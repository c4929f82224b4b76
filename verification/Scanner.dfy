/**
 * The byte-level scanner and renderer of managed regions
 * (core/cli/install_transaction.go), proved against the pieces of `Markers`.
 */
module Scanner {
  import opened Wrappers
  import opened ByteStrings
  import opened Markers

  datatype Span = Span(start: nat, end: nat)

  datatype Topology = NoRegion | SingleRegion | MultipleRegions

  datatype Layout = Layout(topology: Topology, regions: seq<Span>, ordinary: seq<Span>, newline: Bytes)

  /** Where the managed pieces lie. */
  function RegionsOf(pieces: seq<Piece>, at: nat): seq<Span> {
    if pieces == [] then []
    else
      var next := at + |pieces[0].bytes|;
      (if pieces[0].Managed? then [Span(at, next)] else []) + RegionsOf(pieces[1..], next)
  }

  /** The nonempty stretches between the regions. */
  function Gaps(regions: seq<Span>, last: nat, size: nat): seq<Span> {
    if regions == [] then if last < size then [Span(last, size)] else []
    else
      (if last < regions[0].start then [Span(last, regions[0].start)] else []) +
      Gaps(regions[1..], regions[0].end, size)
  }

  function TopologyOf(regions: seq<Span>): Topology {
    if |regions| == 0 then NoRegion else if |regions| == 1 then SingleRegion else MultipleRegions
  }

  function FirstNewline(s: Bytes): Bytes {
    var n := LineLength(s);
    if 0 < n < |s| && s[n - 1] == CR then [CR, LF] else [LF]
  }

  ghost predicate LayoutOf(s: Bytes, layout: Layout) {
    && Outside(s).Ok?
    && layout.regions == RegionsOf(Outside(s).value, 0)
    && layout.ordinary == Gaps(layout.regions, 0, |s|)
    && layout.topology == TopologyOf(layout.regions)
    && layout.newline == FirstNewline(s)
  }

  // ---------------------------------------------------------------- scanning

  method IndexLineFeed(s: Bytes, from: nat) returns (at: int)
    requires from <= |s|
    ensures at < 0 ==> LineLength(s[from..]) == |s| - from
    ensures at >= 0 ==> from <= at < |s| && LineLength(s[from..]) == at - from
  {
    at := from;
    while at < |s|
      invariant from <= at <= |s|
      invariant forall k | from <= k < at :: s[k] != LF
    {
      if s[at] == LF {
        LineLengthFind(s[from..], at - from);
        return;
      }
      at := at + 1;
    }
    LineLengthFind(s[from..], |s| - from);
    at := -1;
  }

  lemma {:induction false} RegionsConcat(a: seq<Piece>, b: seq<Piece>, at: nat)
    ensures RegionsOf(a + b, at) == RegionsOf(a, at) + RegionsOf(b, at + |Flatten(a)|)
  {
    if a == [] {
      assert a + b == b;
    } else {
      assert (a + b)[1..] == a[1..] + b;
      RegionsConcat(a[1..], b, at + |a[0].bytes|);
    }
  }

  /** The loop state of the scanner: what is done, and what the rest will add to it. */
  ghost predicate Scanning(s: Bytes, at: nat, open: int, regions: seq<Span>, done: seq<Piece>) {
    && at <= |s| && -1 <= open <= at
    && regions == RegionsOf(done, 0) && |Flatten(done)| == (if open < 0 then at else open)
    && Outside(s) == Prepend(done, if open < 0 then Outside(s[at..]) else Inside(s[open..at], s[at..]))
  }

  lemma ScanStart(s: Bytes)
    ensures Scanning(s, 0, -1, [], [])
  {
    assert s[0..] == s;
    if Outside(s).Ok? {
      assert [] + Outside(s).value == Outside(s).value;
    }
  }

  lemma Slices(s: Bytes, at: nat, c: nat, n: nat)
    requires at <= |s| && c <= n <= |s| - at
    ensures s[at..][n..] == s[at + n..] && s[at..][..n] == s[at..at + n] && s[at..][..c] == s[at..at + c]
    ensures s[at..][c..n] == s[at + c..at + n]
  {
  }

  lemma Extended(s: Bytes, open: nat, at: nat, end: nat)
    requires open <= at <= end <= |s|
    ensures s[open..at] + s[at..end] == s[open..end]
  {
  }

  lemma ScanPlain(s: Bytes, at: nat, open: int, regions: seq<Span>, done: seq<Piece>) returns (done': seq<Piece>)
    requires Scanning(s, at, open, regions, done) && at < |s| && FirstLine(s[at..]) == PlainLine
    ensures Scanning(s, at + LineSize(s[at..]), open, regions, done')
  {
    hide Outside, Inside, FirstLine, LineSize, ComparedSize, LineLength, Flatten, RegionsOf, Prepend;
    var n := LineSize(s[at..]);
    Slices(s, at, n, n);
    if open < 0 {
      var line := Ordinary(s[at..at + n]);
      done' := done + [line];
      OutsideIs(s[at..]);
      PrependTwice(done, [line], Outside(s[at + n..]));
      OrdinarySpan(done, line);
    } else {
      done' := done;
      InsideIs(s[open..at], s[at..]);
      Extended(s, open, at, at + n);
    }
  }

  lemma OrdinarySpan(done: seq<Piece>, line: Piece)
    requires line.Ordinary?
    ensures RegionsOf(done + [line], 0) == RegionsOf(done, 0)
    ensures Flatten(done + [line]) == Flatten(done) + line.bytes
  {
    RegionsConcat(done, [line], 0);
    FlattenConcat(done, [line]);
    FlattenOne(line);
    assert [line][1..] == [];
  }

  lemma ScanBegin(s: Bytes, at: nat, open: int, regions: seq<Span>, done: seq<Piece>)
    requires Scanning(s, at, open, regions, done) && at < |s| && FirstLine(s[at..]) == BeginLine
    ensures open < 0 ==> Scanning(s, at + LineSize(s[at..]), at, regions, done)
    ensures open >= 0 ==> Outside(s) == Err(NestedBegin)
  {
    hide Outside, Inside, FirstLine, LineSize, ComparedSize, LineLength, Flatten, RegionsOf;
    var n := LineSize(s[at..]);
    Slices(s, at, n, n);
    if open >= 0 {
      InsideIs(s[open..at], s[at..]);
    } else {
      OutsideIs(s[at..]);
    }
  }

  lemma ScanEnd(s: Bytes, at: nat, open: int, regions: seq<Span>, done: seq<Piece>) returns (done': seq<Piece>)
    requires Scanning(s, at, open, regions, done) && at < |s| && FirstLine(s[at..]) == EndLine
    ensures open < 0 ==> Outside(s) == Err(EndWithoutBegin)
    ensures open >= 0 ==>
              Scanning(s, at + LineSize(s[at..]), -1, regions + [Span(open, at + ComparedSize(s[at..]))], done')
  {
    hide Outside, Inside, FirstLine, LineSize, ComparedSize, LineLength, Flatten, RegionsOf, Leftover;
    done' := done;
    var n, c := LineSize(s[at..]), ComparedSize(s[at..]);
    Slices(s, at, c, n);
    if open < 0 {
      OutsideIs(s[at..]);
    } else {
      InsideIs(s[open..at], s[at..]);
      Extended(s, open, at, at + c);
      var closed := [Managed(s[open..at + c])] + Leftover(s[at + c..at + n]);
      done' := done + closed;
      PrependTwice(done, closed, Outside(s[at + n..]));
      ClosedSpan(done, s[open..at + c], s[at + c..at + n]);
    }
  }

  lemma ClosedSpan(done: seq<Piece>, region: Bytes, left: Bytes)
    ensures var closed := [Managed(region)] + Leftover(left);
            && RegionsOf(done + closed, 0) == RegionsOf(done, 0) + [Span(|Flatten(done)|, |Flatten(done)| + |region|)]
            && |Flatten(done + closed)| == |Flatten(done)| + |region| + |left|
  {
    var closed := [Managed(region)] + Leftover(left);
    RegionsConcat(done, closed, 0);
    FlattenConcat(done, closed);
    ClosedRegion(region, left, []);
    assert closed + [] == closed;
    assert Flatten([]) == [];
    assert closed[1..] == Leftover(left);
    if left != [] {
      assert Leftover(left)[1..] == [];
    }
    hide Flatten;
    assert RegionsOf(Leftover(left), |Flatten(done)| + |region|) == [];
  }

  method CollectGaps(regions: seq<Span>, size: nat) returns (ordinary: seq<Span>)
    ensures ordinary == Gaps(regions, 0, size)
  {
    ordinary := [];
    var last: nat := 0;
    assert regions[0..] == regions;
    for i := 0 to |regions|
      invariant Gaps(regions, 0, size) == ordinary + Gaps(regions[i..], last, size)
    {
      assert regions[i..][1..] == regions[i + 1..];
      GapNext(regions[i..], last, size);
      hide Gaps;
      if last < regions[i].start {
        Assoc(ordinary, [Span(last, regions[i].start)], Gaps(regions[i + 1..], regions[i].end, size));
        ordinary := ordinary + [Span(last, regions[i].start)];
      }
      last := regions[i].end;
    }
    if last < size {
      ordinary := ordinary + [Span(last, size)];
    }
  }

  lemma GapNext(regions: seq<Span>, last: nat, size: nat)
    requires regions != []
    ensures Gaps(regions, last, size) ==
            if last < regions[0].start then [Span(last, regions[0].start)] + Gaps(regions[1..], regions[0].end, size)
            else Gaps(regions[1..], regions[0].end, size)
  {
    NothingBefore(Gaps(regions[1..], regions[0].end, size));
  }

  /** One line from `at`: its end without terminator, its end with it, and where comparison stops. */
  method ReadLine(s: Bytes, at: nat) returns (lineEnd: nat, terminatorEnd: nat, comparisonEnd: nat, kind: LineKind)
    requires at < |s|
    ensures lineEnd == at + LineLength(s[at..]) && terminatorEnd == at + LineSize(s[at..])
    ensures comparisonEnd == at + ComparedSize(s[at..]) && kind == FirstLine(s[at..])
  {
    lineEnd, terminatorEnd := |s|, |s|;
    var newline := IndexLineFeed(s, at);
    if newline >= 0 {
      lineEnd := newline;
      terminatorEnd := lineEnd + 1;
    }
    comparisonEnd := lineEnd;
    if terminatorEnd > lineEnd && comparisonEnd > at && s[comparisonEnd - 1] == CR {
      comparisonEnd := comparisonEnd - 1;
    }
    var line := s[at..comparisonEnd];
    assert line == s[at..][..ComparedSize(s[at..])];
    hide INSTALL_BEGIN, INSTALL_END;
    kind := if line == INSTALL_BEGIN then BeginLine else if line == INSTALL_END then EndLine else PlainLine;
  }

  method ScanZshrcMarkerTopology(current: Bytes) returns (r: Result<Layout, ScanError>)
    ensures r.Err? ==> Outside(current) == Err(r.error)
    ensures r.Ok? ==> LayoutOf(current, r.value)
  {
    hide Outside, Inside, FirstLine, LineSize, ComparedSize, Scanning, LineLength;
    var newline := [LF];
    var regions: seq<Span> := [];
    var open := -1;
    var lineStart := 0;
    ghost var done: seq<Piece> := [];
    ScanStart(current);
    NewlineOfNothing(current);
    while lineStart < |current|
      invariant Scanning(current, lineStart, open, regions, done) && lineStart <= |current|
      invariant newline == if lineStart == 0 then [LF] else FirstNewline(current)
      decreases |current| - lineStart
    {
      var lineEnd, terminatorEnd, comparisonEnd, kind := ReadLine(current, lineStart);
      if lineStart == 0 {
        assert current[0..] == current;
        NewlineOfFirst(current, lineEnd, terminatorEnd);
        if terminatorEnd > lineEnd && lineEnd > lineStart && current[lineEnd - 1] == CR {
          newline := [CR, LF];
        }
      }
      match kind {
        case BeginLine =>
          ScanBegin(current, lineStart, open, regions, done);
          if open >= 0 {
            return Err(NestedBegin);
          }
          open := lineStart;
        case EndLine =>
          ghost var done' := ScanEnd(current, lineStart, open, regions, done);
          if open < 0 {
            return Err(EndWithoutBegin);
          }
          regions := regions + [Span(open, comparisonEnd)];
          open := -1;
          done := done';
        case PlainLine =>
          done := ScanPlain(current, lineStart, open, regions, done);
      }
      lineStart := terminatorEnd;
    }
    ScanFinish(current, lineStart, open, regions, done);
    if open >= 0 {
      return Err(BeginWithoutEnd);
    }
    var ordinary := CollectGaps(regions, |current|);
    r := Ok(Layout(TopologyOf(regions), regions, ordinary, newline));
  }

  lemma NewlineOfNothing(s: Bytes)
    ensures s == [] ==> FirstNewline(s) == [LF]
  {
  }

  lemma NewlineOfFirst(s: Bytes, lineEnd: nat, terminatorEnd: nat)
    requires s != [] && lineEnd == LineLength(s) && terminatorEnd == LineSize(s)
    ensures FirstNewline(s) ==
            if terminatorEnd > lineEnd && lineEnd > 0 && s[lineEnd - 1] == CR then [CR, LF] else [LF]
  {
  }

  lemma ScanFinish(s: Bytes, at: nat, open: int, regions: seq<Span>, done: seq<Piece>)
    requires Scanning(s, at, open, regions, done) && at == |s|
    ensures open >= 0 ==> Outside(s) == Err(BeginWithoutEnd)
    ensures open < 0 ==> Outside(s) == Ok(done) && regions == RegionsOf(done, 0)
  {
    assert s[at..] == [];
    if open < 0 {
      assert done + [] == done;
    }
  }

  // ---------------------------------------------------------------- the layout partitions the input

  ghost predicate Within(span: Span, k: int) { span.start <= k < span.end }

  ghost predicate Covered(spans: seq<Span>, k: int) { exists i | 0 <= i < |spans| :: Within(spans[i], k) }

  /** Nonempty stretches of [from, size), in order and apart. */
  ghost predicate Apart(spans: seq<Span>, from: nat, size: nat) {
    && (forall i | 0 <= i < |spans| :: from <= spans[i].start < spans[i].end <= size)
    && (forall i, j | 0 <= i < j < |spans| :: spans[i].end <= spans[j].start)
  }

  lemma ApartCons(span: Span, spans: seq<Span>, from: nat, size: nat)
    requires from <= span.start < span.end <= size && Apart(spans, span.end, size)
    ensures Apart([span] + spans, from, size)
    ensures forall k :: Covered([span] + spans, k) <==> Within(span, k) || Covered(spans, k)
  {
    var all := [span] + spans;
    forall k
      ensures Covered(all, k) <==> Within(span, k) || Covered(spans, k)
    {
      if Covered(spans, k) {
        var i :| 0 <= i < |spans| && Within(spans[i], k);
        assert Within(all[i + 1], k);
      }
      if Within(span, k) {
        assert Within(all[0], k);
      }
    }
  }

  lemma {:induction false} RegionsApart(pieces: seq<Piece>, at: nat)
    requires forall p | p in pieces :: p.bytes != []
    ensures Apart(RegionsOf(pieces, at), at, at + |Flatten(pieces)|)
  {
    if pieces != [] {
      var next := at + |pieces[0].bytes|;
      RegionsApart(pieces[1..], next);
      if pieces[0].Managed? {
        ApartCons(Span(at, next), RegionsOf(pieces[1..], next), at, at + |Flatten(pieces)|);
      }
    }
  }

  lemma {:induction false} GapsPartition(regions: seq<Span>, last: nat, size: nat)
    requires Apart(regions, last, size) && last <= size
    ensures Apart(Gaps(regions, last, size), last, size)
    ensures forall k | last <= k < size :: Covered(regions, k) != Covered(Gaps(regions, last, size), k)
  {
    if regions != [] {
      var first, rest := regions[0], regions[1..];
      assert regions[0..] == regions;
      SpanNext(regions, 0, last, size);
      GapsPartition(rest, first.end, size);
      GapNext(regions, last, size);
      hide Gaps;
      FirstGap(first, rest, Gaps(rest, first.end, size), last, size);
    } else if last < size {
      forall k | last <= k < size
        ensures Covered([Span(last, size)], k)
      {
        assert Within([Span(last, size)][0], k);
      }
    }
  }

  lemma FirstGap(first: Span, rest: seq<Span>, gaps: seq<Span>, last: nat, size: nat)
    requires last <= first.start < first.end <= size && Apart(rest, first.end, size) && Apart(gaps, first.end, size)
    requires forall k | first.end <= k < size :: Covered(rest, k) != Covered(gaps, k)
    ensures var all := if last < first.start then [Span(last, first.start)] + gaps else gaps;
            Apart(all, last, size) && forall k | last <= k < size :: Covered([first] + rest, k) != Covered(all, k)
  {
    ApartCons(first, rest, last, size);
    forall k
      ensures k < first.end ==> !Covered(rest, k) && !Covered(gaps, k)
    {
      BelowUncovered(rest, gaps, first, size, k);
    }
    Wider(gaps, first.end, first.start, size);
    Wider(gaps, first.end, last, size);
    hide Apart, Covered;
    if last < first.start {
      ApartCons(Span(last, first.start), gaps, last, size);
    }
  }

  lemma Wider(spans: seq<Span>, from: nat, lower: nat, size: nat)
    requires Apart(spans, from, size) && lower <= from
    ensures Apart(spans, lower, size)
  {
  }

  lemma BelowUncovered(rest: seq<Span>, gaps: seq<Span>, first: Span, size: nat, k: int)
    requires Apart(rest, first.end, size) && Apart(gaps, first.end, size)
    ensures k < first.end ==> !Covered(rest, k) && !Covered(gaps, k)
  {
  }

  lemma {:induction false} PiecesNonempty(s: Bytes, p: Piece)
    requires Outside(s).Ok? && p in Outside(s).value
    ensures p.bytes != []
    decreases |s|
  {
    OutsideEmpty(s);
    OutsideIs(s);
    hide FirstLine, LineSize, ComparedSize, LineLength, Outside, Inside;
    var n := LineSize(s);
    if FirstLine(s) == PlainLine {
      if p in Outside(s[n..]).value {
        PiecesNonempty(s[n..], p);
      }
    } else {
      var body, left, tail := InsideShape(s[..n], s[n..]);
      if p in Outside(tail).value {
        PiecesNonempty(tail, p);
      }
    }
  }

  /** Regions and ordinary spans are in order, nonempty, and together cover every byte once. */
  lemma LayoutPartitions(s: Bytes, layout: Layout)
    requires LayoutOf(s, layout)
    ensures Apart(layout.regions, 0, |s|) && Apart(layout.ordinary, 0, |s|)
    ensures forall k | 0 <= k < |s| :: Covered(layout.regions, k) != Covered(layout.ordinary, k)
  {
    OutsideLossless(s);
    forall p | p in Outside(s).value
      ensures p.bytes != []
    {
      PiecesNonempty(s, p);
    }
    RegionsApart(Outside(s).value, 0);
    GapsPartition(layout.regions, 0, |s|);
  }

  // ---------------------------------------------------------------- the products of a layout

  function EligibleFrom(s: Bytes, regions: seq<Span>, last: nat): Bytes
    requires last <= |s| && Apart(regions, last, |s|)
  {
    if regions == [] then s[last..]
    else s[last..regions[0].start] + EligibleFrom(s, regions[1..], regions[0].end)
  }

  function RenderFrom(s: Bytes, block: Bytes, regions: seq<Span>, last: nat, placed: bool): Bytes
    requires last <= |s| && Apart(regions, last, |s|)
  {
    if regions == [] then s[last..]
    else
      s[last..regions[0].start] + (if placed then [] else block) +
      RenderFrom(s, block, regions[1..], regions[0].end, true)
  }

  lemma {:induction false} FromPieces(s: Bytes, block: Bytes, pieces: seq<Piece>, last: nat, at: nat, placed: bool)
    requires last <= at <= |s| && s[at..] == Flatten(pieces) && forall p | p in pieces :: p.bytes != []
    ensures Apart(RegionsOf(pieces, at), last, |s|)
    ensures EligibleFrom(s, RegionsOf(pieces, at), last) == s[last..at] + Eligible(pieces)
    ensures RenderFrom(s, block, RegionsOf(pieces, at), last, placed) ==
            s[last..at] + Flatten(Rewrite(pieces, block, placed))
  {
    hide *;
    if pieces == [] {
      EmptyRescans(block, placed);
      FromNothing(s, block, last, at, placed);
    } else {
      FirstPiece(s, pieces, at);
      var p, rest, next := pieces[0], pieces[1..], at + |pieces[0].bytes|;
      if p.Ordinary? {
        FromPieces(s, block, rest, last, next, placed);
        FromLine(s, block, p.bytes, rest, last, at, placed);
      } else {
        FromPieces(s, block, rest, next, next, true);
        FromRegion(s, block, p.bytes, rest, last, at, placed);
      }
    }
  }

  lemma FromNothing(s: Bytes, block: Bytes, last: nat, at: nat, placed: bool)
    requires last <= at <= |s| && s[at..] == []
    ensures EligibleFrom(s, [], last) == s[last..at] + Eligible([])
    ensures RenderFrom(s, block, [], last, placed) == s[last..at] + Flatten(Rewrite([], block, placed))
    ensures Apart([], last, |s|) && RegionsOf([], at) == []
  {
    assert s[last..] == s[last..at];
  }

  lemma FirstPiece(s: Bytes, pieces: seq<Piece>, at: nat)
    requires at <= |s| && s[at..] == Flatten(pieces) && pieces != []
    ensures var p, rest := pieces[0], pieces[1..];
            && pieces == [p] + rest && at + |p.bytes| <= |s| && s[at..at + |p.bytes|] == p.bytes
            && s[at + |p.bytes|..] == Flatten(rest)
    ensures pieces[0] == if pieces[0].Ordinary? then Ordinary(pieces[0].bytes) else Managed(pieces[0].bytes)
    ensures s[at + |pieces[0].bytes|..at + |pieces[0].bytes|] == []
  {
    var p, rest := pieces[0], pieces[1..];
    Slice2(p.bytes, Flatten(rest));
    Slices(s, at, |p.bytes|, |p.bytes|);
  }

  lemma FromLine(s: Bytes, block: Bytes, line: Bytes, rest: seq<Piece>, last: nat, at: nat, placed: bool)
    requires last <= at && at + |line| <= |s| && s[at..at + |line|] == line
    requires Apart(RegionsOf(rest, at + |line|), last, |s|)
    ensures Apart(RegionsOf([Ordinary(line)] + rest, at), last, |s|)
    requires EligibleFrom(s, RegionsOf(rest, at + |line|), last) == s[last..at + |line|] + Eligible(rest)
    requires RenderFrom(s, block, RegionsOf(rest, at + |line|), last, placed) ==
             s[last..at + |line|] + Flatten(Rewrite(rest, block, placed))
    ensures RegionsOf([Ordinary(line)] + rest, at) == RegionsOf(rest, at + |line|)
    ensures EligibleFrom(s, RegionsOf([Ordinary(line)] + rest, at), last) ==
            s[last..at] + Eligible([Ordinary(line)] + rest)
    ensures RenderFrom(s, block, RegionsOf([Ordinary(line)] + rest, at), last, placed) ==
            s[last..at] + Flatten(Rewrite([Ordinary(line)] + rest, block, placed))
  {
    OrdinaryFirst(line, rest, at);
    RewriteLine(line, rest, block, placed);
    RewriteLine(line, Rewrite(rest, block, placed), block, placed);
    hide *;
    Extended(s, last, at, at + |line|);
    Assoc(s[last..at], line, Eligible(rest));
    Assoc(s[last..at], line, Flatten(Rewrite(rest, block, placed)));
  }

  lemma OrdinaryFirst(line: Bytes, rest: seq<Piece>, at: nat)
    ensures RegionsOf([Ordinary(line)] + rest, at) == RegionsOf(rest, at + |line|)
    ensures Eligible([Ordinary(line)] + rest) == line + Eligible(rest)
  {
    assert ([Ordinary(line)] + rest)[1..] == rest;
    NothingBefore(RegionsOf(rest, at + |line|));
  }

  lemma FromRegion(s: Bytes, block: Bytes, region: Bytes, rest: seq<Piece>, last: nat, at: nat, placed: bool)
    requires last <= at && region != [] && at + |region| <= |s|
    requires Apart(RegionsOf(rest, at + |region|), at + |region|, |s|)
    requires var next := at + |region|;
             EligibleFrom(s, RegionsOf(rest, next), next) == s[next..next] + Eligible(rest)
    requires var next := at + |region|;
             RenderFrom(s, block, RegionsOf(rest, next), next, true) ==
             s[next..next] + Flatten(Rewrite(rest, block, true))
    ensures Apart(RegionsOf([Managed(region)] + rest, at), last, |s|)
    ensures EligibleFrom(s, RegionsOf([Managed(region)] + rest, at), last) ==
            s[last..at] + Eligible([Managed(region)] + rest)
    ensures RenderFrom(s, block, RegionsOf([Managed(region)] + rest, at), last, placed) ==
            s[last..at] + Flatten(Rewrite([Managed(region)] + rest, block, placed))
  {
    var next := at + |region|;
    var later := RegionsOf(rest, next);
    ManagedFirst(region, rest, block, placed, at);
    ApartCons(Span(at, next), later, last, |s|);
    hide Flatten, Rewrite, Eligible, RegionsOf, Apart, Covered, EligibleFrom, RenderFrom;
    FromCons(s, block, Span(at, next), later, last, placed);
    Assoc(s[last..at], if placed then [] else block, Flatten(Rewrite(rest, block, true)));
    assert s[next..next] == [];
    NothingBefore(Eligible(rest));
    NothingBefore(Flatten(Rewrite(rest, block, true)));
  }

  lemma NothingBefore<T>(s: seq<T>)
    ensures [] + s == s
  {
  }

  lemma ManagedFirst(region: Bytes, rest: seq<Piece>, block: Bytes, placed: bool, at: nat)
    ensures var pieces := [Managed(region)] + rest;
            && RegionsOf(pieces, at) == [Span(at, at + |region|)] + RegionsOf(rest, at + |region|)
            && Eligible(pieces) == Eligible(rest)
            && Flatten(Rewrite(pieces, block, placed)) ==
               (if placed then [] else block) + Flatten(Rewrite(rest, block, true))
  {
    assert ([Managed(region)] + rest)[1..] == rest;
    var r := Rewrite(rest, block, true);
    NothingBefore(Eligible(rest));
    if placed {
      assert [] + r == r;
      NothingBefore(Flatten(r));
    } else {
      assert ([Managed(block)] + r)[1..] == r;
    }
  }

  lemma FromCons(s: Bytes, block: Bytes, span: Span, later: seq<Span>, last: nat, placed: bool)
    requires Apart(later, span.end, |s|) && Apart([span] + later, last, |s|)
    requires last <= span.start < span.end <= |s|
    ensures EligibleFrom(s, [span] + later, last) == s[last..span.start] + EligibleFrom(s, later, span.end)
    ensures RenderFrom(s, block, [span] + later, last, placed) ==
            s[last..span.start] + (if placed then [] else block) + RenderFrom(s, block, later, span.end, true)
  {
    assert ([span] + later)[1..] == later;
  }

  // ---------------------------------------------------------------- rendering

  lemma {:induction false} RegionCount(pieces: seq<Piece>, at: nat)
    ensures |RegionsOf(pieces, at)| == CountManaged(pieces)
  {
    if pieces != [] {
      RegionCount(pieces[1..], at + |pieces[0].bytes|);
    }
  }

  lemma LayoutProducts(s: Bytes, block: Bytes, layout: Layout)
    requires LayoutOf(s, layout)
    ensures Apart(layout.regions, 0, |s|)
    ensures EligibleFrom(s, layout.regions, 0) == Eligible(Outside(s).value)
    ensures layout.regions != [] ==> RenderFrom(s, block, layout.regions, 0, false) == Candidate(s, block)
    ensures layout.regions == [] ==> Appended(s, block) == Candidate(s, block)
    ensures |layout.regions| == CountManaged(Outside(s).value)
  {
    OutsideLossless(s);
    forall p | p in Outside(s).value
      ensures p.bytes != []
    {
      PiecesNonempty(s, p);
    }
    RegionCount(Outside(s).value, 0);
    hide Outside, Inside, Appended, EligibleFrom, RenderFrom, RegionsOf, Apart, CountManaged, Gaps, FirstNewline;
    assert s[0..] == s && s[0..0] == [];
    FromPieces(s, block, Outside(s).value, 0, 0, false);
    NothingBefore(Eligible(Outside(s).value));
    NothingBefore(Flatten(Rewrite(Outside(s).value, block, false)));
  }

  method RenderManagedCandidate(current: Bytes, block: Bytes, layout: Layout) returns (out: Bytes)
    requires LayoutOf(current, layout)
    ensures out == Candidate(current, block)
  {
    LayoutProducts(current, block, layout);
    if layout.topology == NoRegion {
      hide Outside, Candidate, RegionsOf, Gaps, FirstNewline;
      if |current| == 0 {
        return block + [LF];
      }
      out := current;
      if out[|out| - 1] != LF {
        out := out + [LF];
      }
      out := out + [LF];
      return out + block;
    }
    hide LayoutOf, Candidate, RegionsOf, Gaps, FirstNewline, Outside;
    out := RenderRegions(current, block, layout.regions);
  }

  method RenderRegions(current: Bytes, block: Bytes, regions: seq<Span>) returns (out: Bytes)
    requires Apart(regions, 0, |current|)
    ensures out == RenderFrom(current, block, regions, 0, false)
  {
    out := [];
    var last: nat := 0;
    assert regions[0..] == regions;
    NothingBefore(RenderFrom(current, block, regions, 0, false));
    for index := 0 to |regions|
      invariant last <= |current| && Apart(regions[index..], last, |current|)
      invariant RenderFrom(current, block, regions, 0, false) ==
                out + RenderFrom(current, block, regions[index..], last, index > 0)
    {
      var region := regions[index];
      SpanNext(regions, index, last, |current|);
      FromCons(current, block, region, regions[index + 1..], last, index > 0);
      hide RenderFrom, Apart;
      var written := current[last..region.start];
      if index == 0 {
        written := written + block;
      }
      Joined4(out, current[last..region.start], if index > 0 then [] else block,
              RenderFrom(current, block, regions[index + 1..], region.end, true));
      out := out + written;
      last := region.end;
    }
    out := out + current[last..];
  }

  lemma Joined4(a: Bytes, b: Bytes, c: Bytes, d: Bytes)
    ensures a + (b + c + d) == a + (b + c) + d
    ensures c == [] ==> b + c == b
  {
  }

  lemma SpanNext(regions: seq<Span>, i: nat, last: nat, size: nat)
    requires i < |regions| && Apart(regions[i..], last, size)
    ensures last <= regions[i].start < regions[i].end <= size
    ensures regions[i..] == [regions[i]] + regions[i + 1..]
    ensures Apart(regions[i + 1..], regions[i].end, size)
  {
    var tail := regions[i..];
    assert tail[0] == regions[i];
    assert regions[i + 1..] == tail[1..];
  }

  function SpanBytes(s: Bytes, spans: seq<Span>): Bytes
    requires forall i | 0 <= i < |spans| :: spans[i].start <= spans[i].end <= |s|
  {
    if spans == [] then [] else s[spans[0].start..spans[0].end] + SpanBytes(s, spans[1..])
  }

  lemma {:induction false} GapBytes(s: Bytes, regions: seq<Span>, last: nat)
    requires last <= |s| && Apart(regions, last, |s|)
    ensures Apart(Gaps(regions, last, |s|), last, |s|)
    ensures SpanBytes(s, Gaps(regions, last, |s|)) == EligibleFrom(s, regions, last)
  {
    GapsPartition(regions, last, |s|);
    if regions == [] {
      if last < |s| {
        assert [Span(last, |s|)][1..] == [];
        assert s[last..|s|] + [] == s[last..];
      }
    } else {
      assert regions[0..] == regions;
      SpanNext(regions, 0, last, |s|);
      GapBytes(s, regions[1..], regions[0].end);
      GapNext(regions, last, |s|);
      FromCons(s, [], regions[0], regions[1..], last, true);
      hide Gaps, EligibleFrom, RenderFrom, Apart;
      GapBytesNext(s, regions[0], Gaps(regions[1..], regions[0].end, |s|), last);
    }
  }

  lemma GapBytesNext(s: Bytes, first: Span, gaps: seq<Span>, last: nat)
    requires last <= first.start < first.end <= |s| && Apart(gaps, first.end, |s|)
    ensures var all := if last < first.start then [Span(last, first.start)] + gaps else gaps;
            (forall i | 0 <= i < |all| :: all[i].start <= all[i].end <= |s|) &&
            SpanBytes(s, all) == s[last..first.start] + SpanBytes(s, gaps)
  {
    if last < first.start {
      assert ([Span(last, first.start)] + gaps)[1..] == gaps;
    } else {
      assert s[last..first.start] == [];
      NothingBefore(SpanBytes(s, gaps));
    }
  }

  method EligibleSourceFromLayout(current: Bytes, layout: Layout) returns (out: Bytes)
    requires LayoutOf(current, layout)
    ensures out == Eligible(Outside(current).value)
  {
    LayoutProducts(current, [], layout);
    if |layout.regions| == 0 {
      assert current[0..] == current;
      return current;
    }
    GapBytes(current, layout.regions, 0);
    hide LayoutOf, RegionsOf, FirstNewline, Outside, EligibleFrom, Gaps, SpanBytes;
    LayoutGaps(current, layout);
    out := CollectSpans(current, layout.ordinary);
  }

  method CollectSpans(s: Bytes, spans: seq<Span>) returns (out: Bytes)
    requires forall i | 0 <= i < |spans| :: spans[i].start <= spans[i].end <= |s|
    ensures out == SpanBytes(s, spans)
  {
    out := [];
    assert spans[0..] == spans;
    NothingBefore(SpanBytes(s, spans));
    for i := 0 to |spans|
      invariant SpanBytes(s, spans) == out + SpanBytes(s, spans[i..])
    {
      assert spans[i..][1..] == spans[i + 1..];
      Assoc(out, s[spans[i].start..spans[i].end], SpanBytes(s, spans[i + 1..]));
      hide SpanBytes;
      out := out + s[spans[i].start..spans[i].end];
    }
  }

  lemma LayoutGaps(s: Bytes, layout: Layout)
    requires LayoutOf(s, layout)
    ensures layout.ordinary == Gaps(layout.regions, 0, |s|)
  {
  }
}
