/**
 * The managed block of a startup file: the marker scanner and the candidate renderer
 * (core/cli/install_transaction.go).
 *
 * A file is read as pieces: ordinary lines, and managed regions from a BEGIN line up to,
 * and without the terminator of, the matching END line.
 */
module Markers {
  import opened Wrappers
  import opened ByteStrings

  const LF: byte := 10
  const CR: byte := 13

  // The marker texts "# >>> zsh-pro >>>" and "# <<< zsh-pro <<<" (core/cli/install.go).
  const INSTALL_BEGIN: Bytes := [35, 32, 62, 62, 62, 32, 122, 115, 104, 45, 112, 114, 111, 32, 62, 62, 62]
  const INSTALL_END: Bytes := [35, 32, 60, 60, 60, 32, 122, 115, 104, 45, 112, 114, 111, 32, 60, 60, 60]

  datatype ScanError = NestedBegin | EndWithoutBegin | BeginWithoutEnd

  datatype Piece = Ordinary(bytes: Bytes) | Managed(bytes: Bytes)

  // ---------------------------------------------------------------- lines

  function LineLength(s: Bytes): (n: nat)
    ensures n <= |s| && (n < |s| ==> s[n] == LF) && forall i | 0 <= i < n :: s[i] != LF
  {
    if s == [] || s[0] == LF then 0 else 1 + LineLength(s[1..])
  }

  /** The first line with its terminator. */
  function LineSize(s: Bytes): (n: nat)
    ensures n <= |s| && (s != [] ==> 0 < n)
  {
    if LineLength(s) < |s| then LineLength(s) + 1 else |s|
  }

  /** The part of the first line compared with the markers: a CR is dropped only before LF. */
  function ComparedSize(s: Bytes): (n: nat)
    ensures n <= LineSize(s)
  {
    var n := LineLength(s);
    if n < |s| && 0 < n && s[n - 1] == CR then n - 1 else n
  }

  datatype LineKind = BeginLine | EndLine | PlainLine

  function FirstLine(s: Bytes): LineKind {
    var text := s[..ComparedSize(s)];
    if text == INSTALL_BEGIN then BeginLine
    else if text == INSTALL_END then EndLine
    else PlainLine
  }

  // ---------------------------------------------------------------- pieces

  function Prepend(pieces: seq<Piece>, r: Result<seq<Piece>, ScanError>): Result<seq<Piece>, ScanError> {
    match r
    case Err(e) => Err(e)
    case Ok(rest) => Ok(pieces + rest)
  }

  function Leftover(bytes: Bytes): seq<Piece> { if bytes == [] then [] else [Ordinary(bytes)] }

  /** The pieces of a text that begins outside of any region. */
  function Outside(s: Bytes): Result<seq<Piece>, ScanError>
    decreases |s|
  {
    if s == [] then Ok([])
    else
      var n := LineSize(s);
      match FirstLine(s)
      case BeginLine => Inside(s[..n], s[n..])
      case EndLine => Err(EndWithoutBegin)
      case PlainLine => Prepend([Ordinary(s[..n])], Outside(s[n..]))
  }

  /** The pieces of a text that begins inside a region whose bytes so far are `open`. */
  function Inside(open: Bytes, s: Bytes): Result<seq<Piece>, ScanError>
    decreases |s|
  {
    if s == [] then Err(BeginWithoutEnd)
    else
      var n, c := LineSize(s), ComparedSize(s);
      match FirstLine(s)
      case BeginLine => Err(NestedBegin)
      case EndLine => Prepend([Managed(open + s[..c])] + Leftover(s[c..n]), Outside(s[n..]))
      case PlainLine => Inside(open + s[..n], s[n..])
  }

  function Flatten(pieces: seq<Piece>): Bytes {
    if pieces == [] then [] else pieces[0].bytes + Flatten(pieces[1..])
  }

  function Eligible(pieces: seq<Piece>): Bytes {
    if pieces == [] then []
    else (if pieces[0].Ordinary? then pieces[0].bytes else []) + Eligible(pieces[1..])
  }

  function CountManaged(pieces: seq<Piece>): nat {
    if pieces == [] then 0 else (if pieces[0].Managed? then 1 else 0) + CountManaged(pieces[1..])
  }

  /** The first region becomes the block, or every region goes when the block is already placed. */
  function Rewrite(pieces: seq<Piece>, block: Bytes, placed: bool): seq<Piece> {
    if pieces == [] then []
    else if pieces[0].Ordinary? then [pieces[0]] + Rewrite(pieces[1..], block, placed)
    else (if placed then [] else [Managed(block)]) + Rewrite(pieces[1..], block, true)
  }

  /** A block scans as one region that is the whole of it. */
  predicate WellFormedBlock(block: Bytes) { Outside(block) == Ok([Managed(block)]) }

  lemma {:induction false} FlattenConcat(a: seq<Piece>, b: seq<Piece>)
    ensures Flatten(a + b) == Flatten(a) + Flatten(b)
    ensures CountManaged(a + b) == CountManaged(a) + CountManaged(b)
    ensures Eligible(a + b) == Eligible(a) + Eligible(b)
  {
    if a == [] {
      assert a + b == b;
      Assoc([], [], Flatten(b));
    } else {
      assert (a + b)[1..] == a[1..] + b && (a + b)[0] == a[0];
      FlattenConcat(a[1..], b);
      Assoc(a[0].bytes, Flatten(a[1..]), Flatten(b));
      Assoc(if a[0].Ordinary? then a[0].bytes else [], Eligible(a[1..]), Eligible(b));
    }
  }

  lemma FlattenOne(p: Piece)
    ensures Flatten([p]) == p.bytes && CountManaged([p]) == (if p.Managed? then 1 else 0)
    ensures Eligible([p]) == if p.Ordinary? then p.bytes else []
  {
    assert [p][1..] == [];
  }

  // ---------------------------------------------------------------- scanning loses nothing

  lemma {:induction false} OutsideLossless(s: Bytes)
    requires Outside(s).Ok?
    ensures Flatten(Outside(s).value) == s
    decreases |s|
  {
    if s != [] {
      OutsideIs(s);
      hide *;
      var n := LineSize(s);
      Slice3(s, n);
      if FirstLine(s) == BeginLine {
        InsideLossless(s[..n], s[n..]);
      } else {
        PrependOk([Ordinary(s[..n])], Outside(s[n..]));
        OutsideLossless(s[n..]);
        FlattenConcat([Ordinary(s[..n])], Outside(s[n..]).value);
        FlattenOne(Ordinary(s[..n]));
      }
    }
  }

  lemma Slice3(s: Bytes, n: nat)
    requires n <= |s|
    ensures s[..n] + s[n..] == s
  {
  }

  lemma {:induction false} InsideLossless(open: Bytes, s: Bytes)
    requires Inside(open, s).Ok?
    ensures Flatten(Inside(open, s).value) == open + s
    decreases |s|
  {
    InsideIs(open, s);
    hide Inside, Outside, FirstLine, Flatten, LineSize, ComparedSize;
    var n, c := LineSize(s), ComparedSize(s);
    if FirstLine(s) == EndLine {
      OutsideLossless(s[n..]);
      ClosedRegion(open + s[..c], s[c..n], Outside(s[n..]).value);
      Cut(open, s, c, n);
    } else {
      InsideLossless(open + s[..n], s[n..]);
      Cut(open, s, n, n);
    }
  }

  lemma Cut(open: Bytes, s: Bytes, c: nat, n: nat)
    requires c <= n <= |s|
    ensures open + s[..c] + s[c..n] + s[n..] == open + s
    ensures open + s[..n] + s[n..] == open + s
  {
  }

  lemma Joined(line: Bytes, rest: Bytes, left: Bytes, tail: Bytes)
    ensures line + (rest + left + tail) == line + rest + left + tail
  {
  }

  lemma InsideIs(open: Bytes, s: Bytes)
    requires s != []
    ensures var n, c := LineSize(s), ComparedSize(s);
            Inside(open, s) == match FirstLine(s)
                               case BeginLine => Err(NestedBegin)
                               case EndLine => Prepend([Managed(open + s[..c])] + Leftover(s[c..n]), Outside(s[n..]))
                               case PlainLine => Inside(open + s[..n], s[n..])
  {
  }

  lemma OutsideIs(s: Bytes)
    requires s != []
    ensures var n := LineSize(s);
            Outside(s) == match FirstLine(s)
                          case BeginLine => Inside(s[..n], s[n..])
                          case EndLine => Err(EndWithoutBegin)
                          case PlainLine => Prepend([Ordinary(s[..n])], Outside(s[n..]))
  {
  }

  /** The bytes, regions and eligible text of a region, its terminator and what follows. */
  lemma ClosedRegion(region: Bytes, left: Bytes, rest: seq<Piece>)
    ensures var pieces := [Managed(region)] + Leftover(left) + rest;
            && Flatten(pieces) == region + left + Flatten(rest)
            && CountManaged(pieces) == 1 + CountManaged(rest)
            && Eligible(pieces) == left + Eligible(rest)
  {
    FlattenConcat([Managed(region)] + Leftover(left), rest);
    FlattenConcat([Managed(region)], Leftover(left));
    FlattenOne(Managed(region));
    FlattenOne(Ordinary(left));
  }

  // ---------------------------------------------------------------- a line does not see what follows it

  lemma {:induction false} LineLengthLocal(line: Bytes, tail: Bytes)
    requires line != [] && line[|line| - 1] == LF && LineLength(line) == |line| - 1
    ensures LineLength(line + tail) == |line| - 1
  {
    if line[0] != LF {
      assert (line + tail)[1..] == line[1..] + tail;
      LineLengthLocal(line[1..], tail);
    }
  }

  lemma LineLocal(line: Bytes, tail: Bytes)
    requires line != [] && LineSize(line) == |line|
    requires line[|line| - 1] == LF || tail == []
    ensures LineSize(line + tail) == |line| && ComparedSize(line + tail) == ComparedSize(line)
    ensures FirstLine(line + tail) == FirstLine(line)
    ensures (line + tail)[..|line|] == line && (line + tail)[|line|..] == tail
  {
    if line[|line| - 1] == LF {
      LineLengthLocal(line, tail);
      assert (line + tail)[..ComparedSize(line)] == line[..ComparedSize(line)];
    } else {
      assert line + tail == line;
    }
  }

  lemma {:induction false} LineLengthPrefix(s: Bytes, k: nat)
    requires LineLength(s) <= k <= |s|
    ensures LineLength(s[..k]) == LineLength(s)
  {
    if s != [] && s[0] != LF {
      assert s[..k][1..] == s[1..][..k - 1];
      LineLengthPrefix(s[1..], k - 1);
    }
  }

  /** The first line of a text, on its own. */
  lemma LineAlone(s: Bytes)
    requires s != []
    ensures var line := s[..LineSize(s)];
            && line != [] && LineSize(line) == |line| && ComparedSize(line) == ComparedSize(s)
            && FirstLine(line) == FirstLine(s) && s == line + s[LineSize(s)..]
            && (s[LineSize(s)..] != [] ==> line[|line| - 1] == LF)
  {
    LineLengthPrefix(s, LineSize(s));
    assert s[..LineSize(s)][..ComparedSize(s)] == s[..ComparedSize(s)];
  }

  lemma OutsideLine(line: Bytes, tail: Bytes)
    requires line != [] && LineSize(line) == |line| && FirstLine(line) == PlainLine
    requires line[|line| - 1] == LF || tail == []
    ensures Outside(line + tail) == Prepend([Ordinary(line)], Outside(tail))
  {
    LineLocal(line, tail);
  }

  /** What may remain of an END line after its marker. */
  predicate Terminator(left: Bytes) { left == [] || left == [LF] || left == [CR, LF] }

  lemma TerminatorLine(left: Bytes)
    requires Terminator(left) && left != []
    ensures LineSize(left) == |left| && FirstLine(left) == PlainLine && left[|left| - 1] == LF
  {
    if left == [CR, LF] {
      assert left[1..] == [LF];
    }
    assert |left[..ComparedSize(left)]| == 0;
  }

  lemma OutsideTerminator(left: Bytes, tail: Bytes)
    requires Terminator(left) && (left == [] ==> tail == [])
    ensures Outside(left + tail) == Prepend(Leftover(left), Outside(tail))
  {
    if left == [] {
      assert left + tail == tail;
    } else {
      TerminatorLine(left);
      OutsideLine(left, tail);
    }
  }

  // ---------------------------------------------------------------- a block in context

  lemma MarkerBytes()
    ensures forall i | 0 <= i < |INSTALL_END| :: INSTALL_END[i] != LF && INSTALL_END[i] != CR
    ensures forall i | 0 <= i < |INSTALL_BEGIN| :: INSTALL_BEGIN[i] != LF && INSTALL_BEGIN[i] != CR
    ensures |INSTALL_END| == |INSTALL_BEGIN| == 17 && INSTALL_END != INSTALL_BEGIN
  {
    assert INSTALL_END[2] != INSTALL_BEGIN[2];
  }

  lemma {:induction false} NoLineFeed(s: Bytes)
    requires forall i | 0 <= i < |s| :: s[i] != LF
    ensures LineLength(s) == |s|
  {
    if s != [] {
      NoLineFeed(s[1..]);
    }
  }

  lemma {:induction false} LineLengthUpTo(text: Bytes, tail: Bytes)
    requires forall i | 0 <= i < |text| :: text[i] != LF
    ensures LineLength(text + ([LF] + tail)) == |text|
  {
    if text != [] {
      assert (text + ([LF] + tail))[1..] == text[1..] + ([LF] + tail);
      LineLengthUpTo(text[1..], tail);
    }
  }

  /** A marker text followed by a terminator is a marker line whatever comes next. */
  lemma MarkerLine(marker: Bytes, left: Bytes, tail: Bytes)
    requires marker == INSTALL_BEGIN || marker == INSTALL_END
    requires Terminator(left) && (left == [] ==> tail == [])
    ensures var s := marker + left + tail;
            && LineSize(s) == |marker| + |left| && ComparedSize(s) == |marker|
            && FirstLine(s) == (if marker == INSTALL_BEGIN then BeginLine else EndLine)
            && s[..|marker|] == marker && s[|marker|..|marker| + |left|] == left && s[|marker| + |left|..] == tail
  {
    MarkerBytes();
    var s := marker + left + tail;
    hide INSTALL_BEGIN, INSTALL_END;
    if left == [] {
      assert s == marker;
      NoLineFeed(marker);
    } else if left == [LF] {
      assert s == marker + ([LF] + tail);
      LineLengthUpTo(marker, tail);
    } else {
      assert s == (marker + [CR]) + ([LF] + tail);
      LineLengthUpTo(marker + [CR], tail);
    }
    assert s[..|marker|] == marker;
  }

  /** The closing line of a region, alone, is exactly the END marker. */
  lemma ClosingLine(s: Bytes)
    requires s != [] && FirstLine(s) == EndLine && ComparedSize(s) == |s|
    ensures s == INSTALL_END
  {
    assert s[..ComparedSize(s)] == s;
    MarkerBytes();
  }

  lemma {:induction false} InsideThen(open: Bytes, s: Bytes, left: Bytes, tail: Bytes)
    requires Inside(open, s) == Ok([Managed(open + s)])
    requires Terminator(left) && (left == [] ==> tail == [])
    ensures Inside(open, s + left + tail) == Prepend([Managed(open + s)] + Leftover(left), Outside(tail))
    decreases |s|
  {
    InsideNotEmpty(open, s);
    InsideNotBegin(open, s);
    LineAlone(s);
    hide *;
    if FirstLine(s) == EndLine {
      InsideEndThen(open, s, left, tail);
    } else {
      var line, rest := s[..LineSize(s)], s[LineSize(s)..];
      InsideLine(open, line, rest);
      Cut(open, s, |line|, |line|);
      InsideThen(open + line, rest, left, tail);
      InsideLine(open, line, rest + left + tail);
      Joined(line, rest, left, tail);
    }
  }

  lemma InsideNotBegin(open: Bytes, s: Bytes)
    requires s != [] && Inside(open, s).Ok?
    ensures FirstLine(s) != BeginLine
    ensures FirstLine(s) == PlainLine ==> s[LineSize(s)..] != []
  {
  }

  lemma InsideLine(open: Bytes, line: Bytes, tail: Bytes)
    requires line != [] && LineSize(line) == |line| && FirstLine(line) == PlainLine
    requires line[|line| - 1] == LF || tail == []
    ensures Inside(open, line + tail) == Inside(open + line, tail)
  {
    LineLocal(line, tail);
    InsideIs(open, line + tail);
    hide Inside, FirstLine, LineSize, ComparedSize, LineLength, INSTALL_BEGIN, INSTALL_END;
  }

  lemma InsideEndThen(open: Bytes, s: Bytes, left: Bytes, tail: Bytes)
    requires s != [] && FirstLine(s) == EndLine && Inside(open, s) == Ok([Managed(open + s)])
    requires Terminator(left) && (left == [] ==> tail == [])
    ensures Inside(open, s + left + tail) == Prepend([Managed(open + s)] + Leftover(left), Outside(tail))
  {
    InsideEndIsEnd(open, s);
    MarkerLine(INSTALL_END, left, tail);
    EndAfterBegin();
    hide INSTALL_BEGIN, INSTALL_END, Inside, Outside, FirstLine, LineSize, ComparedSize, LineLength;
    InsideIs(open, s + left + tail);
  }

  lemma EndAfterBegin()
    ensures INSTALL_END != INSTALL_BEGIN && INSTALL_END != []
  {
    MarkerBytes();
  }

  lemma InsideEndIsEnd(open: Bytes, s: Bytes)
    requires s != [] && FirstLine(s) == EndLine && Inside(open, s) == Ok([Managed(open + s)])
    ensures s == INSTALL_END
  {
    InsideIs(open, s);
    hide INSTALL_BEGIN, INSTALL_END, Inside, Outside, FirstLine, LineSize, ComparedSize, LineLength;
    var n, c := LineSize(s), ComparedSize(s);
    SameFirst(open + s[..c], Leftover(s[c..n]) + Outside(s[n..]).value, open + s);
    ClosingLine(s);
  }

  lemma InsideNotEmpty(open: Bytes, s: Bytes)
    requires Inside(open, s).Ok?
    ensures s != []
  {
  }

  lemma SameFirst(region: Bytes, rest: seq<Piece>, whole: Bytes)
    requires [Managed(region)] + rest == [Managed(whole)]
    ensures region == whole && rest == []
  {
    assert ([Managed(region)] + rest)[0] == Managed(whole);
    assert |[Managed(region)] + rest| == 1;
  }

  /** A block keeps being one region when a terminator and more text follow it. */
  lemma BlockThen(block: Bytes, left: Bytes, tail: Bytes)
    requires WellFormedBlock(block) && Terminator(left) && (left == [] ==> tail == [])
    ensures Outside(block + left + tail) == Prepend([Managed(block)] + Leftover(left), Outside(tail))
  {
    BlockOpens(block);
    OutsideIs(block + left + tail);
    LineAlone(block);
    hide INSTALL_BEGIN, INSTALL_END, Inside, Outside, FirstLine, LineSize, ComparedSize, LineLength;
    var n := LineSize(block);
    var line, rest := block[..n], block[n..];
    InsideThen(line, rest, left, tail);
    LineLocal(line, rest + left + tail);
    Joined(line, rest, left, tail);
  }

  lemma BlockOpens(block: Bytes)
    requires WellFormedBlock(block)
    ensures block != [] && FirstLine(block) == BeginLine
    ensures block[LineSize(block)..] != []
    ensures Inside(block[..LineSize(block)], block[LineSize(block)..]) == Ok([Managed(block)])
  {
    assert Outside([]) == Ok([]);
    OutsideIs(block);
    forall rest: seq<Piece>
      ensures [Ordinary(block[..LineSize(block)])] + rest != [Managed(block)]
    {
      assert ([Ordinary(block[..LineSize(block)])] + rest)[0].Ordinary?;
    }
  }

  // ---------------------------------------------------------------- rewriting

  lemma {:induction false} RewriteConcat(a: seq<Piece>, b: seq<Piece>, block: Bytes, placed: bool)
    ensures Rewrite(a + b, block, placed) ==
            Rewrite(a, block, placed) + Rewrite(b, block, placed || CountManaged(a) > 0)
  {
    if a == [] {
      assert a + b == b;
    } else {
      assert (a + b)[1..] == a[1..] + b;
      RewriteConcat(a[1..], b, block, placed || a[0].Managed?);
    }
  }

  /** A region ends with its END marker, alone or before a terminator. */
  lemma {:induction false} InsideShape(open: Bytes, s: Bytes) returns (body: Bytes, left: Bytes, rest: Bytes)
    requires Inside(open, s).Ok?
    ensures |rest| < |s| && Inside(open, body) == Ok([Managed(open + body)])
    ensures Terminator(left) && (left == [] ==> rest == []) && Outside(rest).Ok?
    ensures Inside(open, s).value == [Managed(open + body)] + Leftover(left) + Outside(rest).value
    decreases |s|
  {
    InsideIs(open, s);
    LineAlone(s);
    var n, c := LineSize(s), ComparedSize(s);
    if FirstLine(s) == EndLine {
      body, left, rest := s[..c], s[c..n], s[n..];
      ClosingTerminator(s);
      OnlyEnd(open);
    } else {
      hide INSTALL_BEGIN, INSTALL_END, Inside, Outside, FirstLine, LineSize, ComparedSize, LineLength;
      body, left, rest := InsideShape(open + s[..n], s[n..]);
      InsideIs(open, s[..n] + body);
      InsideNotEmpty(open + s[..n], body);
      LineLocal(s[..n], body);
      assert open + s[..n] + body == open + (s[..n] + body);
      body := s[..n] + body;
    }
  }

  lemma ClosingTerminator(s: Bytes)
    requires s != [] && FirstLine(s) == EndLine
    ensures s[..ComparedSize(s)] == INSTALL_END
    ensures Terminator(s[ComparedSize(s)..LineSize(s)])
    ensures s[ComparedSize(s)..LineSize(s)] == [] ==> s[LineSize(s)..] == []
  {
  }

  lemma EndAlone()
    ensures INSTALL_END != [] && FirstLine(INSTALL_END) == EndLine
    ensures LineSize(INSTALL_END) == ComparedSize(INSTALL_END) == |INSTALL_END|
  {
    MarkerLine(INSTALL_END, [], []);
    MarkerBytes();
    hide INSTALL_BEGIN, INSTALL_END, FirstLine, LineSize, ComparedSize;
    assert INSTALL_END + [] + [] == INSTALL_END;
  }

  lemma OnlyEnd(open: Bytes)
    ensures Inside(open, INSTALL_END) == Ok([Managed(open + INSTALL_END)])
  {
    EndAlone();
    InsideIs(open, INSTALL_END);
    OutsideNothing();
    hide *;
    var n := |INSTALL_END|;
    assert INSTALL_END[..n] == INSTALL_END && INSTALL_END[n..n] == [] && INSTALL_END[n..] == [];
    assert Leftover([]) == [] by { LeftoverNothing(); }
    PrependNothing([Managed(open + INSTALL_END)]);
  }

  lemma OutsideNothing()
    ensures Outside([]) == Ok([])
  {
  }

  lemma LeftoverNothing()
    ensures Leftover([]) == []
  {
  }

  lemma PrependNothing(pieces: seq<Piece>)
    ensures Prepend(pieces + [], Ok([])) == Ok(pieces)
  {
    assert pieces + [] + [] == pieces;
  }

  lemma RewriteRegion(region: Bytes, left: Bytes, rest: seq<Piece>, block: Bytes, placed: bool)
    ensures Rewrite([Managed(region)] + Leftover(left) + rest, block, placed) ==
            (if placed then [] else [Managed(block)]) + Leftover(left) + Rewrite(rest, block, true)
  {
    var pieces := [Managed(region)] + Leftover(left) + rest;
    assert pieces[1..] == Leftover(left) + rest;
    if left != [] {
      assert (Leftover(left) + rest)[1..] == rest;
    } else {
      assert Leftover(left) + rest == rest;
    }
  }

  lemma RewriteLine(line: Bytes, rest: seq<Piece>, block: Bytes, placed: bool)
    ensures Rewrite([Ordinary(line)] + rest, block, placed) == [Ordinary(line)] + Rewrite(rest, block, placed)
    ensures Flatten([Ordinary(line)] + rest) == line + Flatten(rest)
  {
    assert ([Ordinary(line)] + rest)[1..] == rest;
  }

  lemma FlattenLeftover(left: Bytes, rest: seq<Piece>)
    ensures Flatten(Leftover(left) + rest) == left + Flatten(rest)
  {
    if left != [] {
      assert (Leftover(left) + rest)[1..] == rest;
    } else {
      assert Leftover(left) + rest == rest;
    }
  }

  /** Scanning the rewritten text finds exactly the rewritten pieces. */
  lemma {:induction false} RewriteRescans(s: Bytes, block: Bytes, placed: bool)
    requires Outside(s).Ok? && WellFormedBlock(block)
    ensures var pieces := Rewrite(Outside(s).value, block, placed);
            Outside(Flatten(pieces)) == Ok(pieces)
    decreases |s|
  {
    hide *;
    if s == [] {
      EmptyRescans(block, placed);
    } else {
      OutsideIs(s);
      LineAlone(s);
      var line, rest := s[..LineSize(s)], s[LineSize(s)..];
      if FirstLine(s) == PlainLine {
        PrependOk([Ordinary(line)], Outside(rest));
        RewriteRescans(rest, block, placed);
        RewriteLineRescans(line, rest, block, placed);
      } else {
        var body, left, tail := InsideShape(line, rest);
        RewriteRescans(tail, block, true);
        RewriteRegionRescans(line + body, left, tail, block, placed);
      }
    }
  }

  lemma EmptyRescans(block: Bytes, placed: bool)
    ensures Outside([]) == Ok([]) && Rewrite([], block, placed) == [] && Flatten([]) == []
  {
  }

  lemma PrependOk(pieces: seq<Piece>, r: Result<seq<Piece>, ScanError>)
    requires Prepend(pieces, r).Ok?
    ensures r.Ok? && Prepend(pieces, r).value == pieces + r.value
  {
  }

  lemma RewriteLineRescans(line: Bytes, rest: Bytes, block: Bytes, placed: bool)
    requires line != [] && LineSize(line) == |line| && FirstLine(line) == PlainLine
    requires (rest != [] ==> line[|line| - 1] == LF) && Outside(rest).Ok?
    requires var pieces := Rewrite(Outside(rest).value, block, placed);
             Outside(Flatten(pieces)) == Ok(pieces)
    ensures var pieces := Rewrite([Ordinary(line)] + Outside(rest).value, block, placed);
            Outside(Flatten(pieces)) == Ok(pieces)
  {
    hide INSTALL_BEGIN, INSTALL_END, Inside, Outside, FirstLine, LineSize, ComparedSize, LineLength, Flatten, Rewrite;
    RewriteLine(line, Outside(rest).value, block, placed);
    var tail := Rewrite(Outside(rest).value, block, placed);
    RewriteLine(line, tail, block, placed);
    RewriteEmpty(rest, block, placed);
    OutsideLine(line, Flatten(tail));
  }

  lemma RewriteRegionRescans(region: Bytes, left: Bytes, tail: Bytes, block: Bytes, placed: bool)
    requires WellFormedBlock(block) && Terminator(left) && (left == [] ==> tail == []) && Outside(tail).Ok?
    requires var pieces := Rewrite(Outside(tail).value, block, true);
             Outside(Flatten(pieces)) == Ok(pieces)
    ensures var pieces := Rewrite([Managed(region)] + Leftover(left) + Outside(tail).value, block, placed);
            Outside(Flatten(pieces)) == Ok(pieces)
  {
    hide INSTALL_BEGIN, INSTALL_END, Inside, Outside, FirstLine, LineSize, ComparedSize, LineLength, Flatten,
         Rewrite, WellFormedBlock, Terminator, Leftover;
    RewriteRegion(region, left, Outside(tail).value, block, placed);
    var rest := Rewrite(Outside(tail).value, block, true);
    RewriteEmpty(tail, block, true);
    if placed {
      FlattenLeftover(left, rest);
      OutsideTerminator(left, Flatten(rest));
      assert [] + Leftover(left) + rest == Leftover(left) + rest;
    } else {
      ClosedRegion(block, left, rest);
      BlockThen(block, left, Flatten(rest));
    }
  }

  lemma RewriteEmpty(s: Bytes, block: Bytes, placed: bool)
    requires Outside(s).Ok?
    ensures s == [] ==> Flatten(Rewrite(Outside(s).value, block, placed)) == []
  {
  }

  /** Every region of a scanned text is itself a well-formed block. */
  lemma {:induction false} RegionsAreBlocks(s: Bytes, p: Piece)
    requires Outside(s).Ok? && p in Outside(s).value && p.Managed?
    ensures WellFormedBlock(p.bytes)
    decreases |s|
  {
    OutsideEmpty(s);
    OutsideIs(s);
    LineAlone(s);
    hide INSTALL_BEGIN, INSTALL_END, Inside, Outside, FirstLine, LineSize, ComparedSize, LineLength;
    var n := LineSize(s);
    if FirstLine(s) == PlainLine {
      RegionsAreBlocks(s[n..], p);
    } else {
      var body, left, tail := InsideShape(s[..n], s[n..]);
      if p == Managed(s[..n] + body) {
        InsideNotEmpty(s[..n], body);
        LineLocal(s[..n], body);
        OutsideIs(s[..n] + body);
      } else {
        RegionsAreBlocks(tail, p);
      }
    }
  }

  lemma OutsideEmpty(s: Bytes)
    requires Outside(s).Ok? && Outside(s).value != []
    ensures s != []
  {
  }

  lemma {:induction false} RewriteKeeps(pieces: seq<Piece>, block: Bytes, placed: bool)
    ensures var r := Rewrite(pieces, block, placed);
            && Eligible(r) == Eligible(pieces)
            && CountManaged(r) == (if placed || CountManaged(pieces) == 0 then 0 else 1)
            && Rewrite(r, block, placed) == r
            && forall p | p in r && p.Managed? :: p.bytes == block
  {
    if pieces != [] {
      var next := placed || pieces[0].Managed?;
      RewriteKeeps(pieces[1..], block, next);
      var rest := Rewrite(pieces[1..], block, next);
      if pieces[0].Ordinary? {
        assert ([pieces[0]] + rest)[1..] == rest;
      } else if !placed {
        assert ([Managed(block)] + rest)[1..] == rest;
      } else {
        assert [] + rest == rest;
      }
    }
  }

  // ---------------------------------------------------------------- a text without markers

  /** The bytes after the last line feed. */
  function LastLine(s: Bytes): Bytes {
    if s == [] then []
    else if s[|s| - 1] == LF then []
    else LastLine(s[..|s| - 1]) + [s[|s| - 1]]
  }

  /** The final line is a marker that only its missing terminator keeps from being one. */
  predicate EndsInLoneCr(s: Bytes) {
    LastLine(s) == INSTALL_BEGIN + [CR] || LastLine(s) == INSTALL_END + [CR]
  }

  function Appended(s: Bytes, block: Bytes): Bytes {
    if s == [] then block + [LF]
    else (if s[|s| - 1] == LF then s else s + [LF]) + [LF] + block
  }

  lemma {:induction false} LineLengthFind(s: Bytes, n: nat)
    requires n <= |s| && (n < |s| ==> s[n] == LF) && forall i | 0 <= i < n :: s[i] != LF
    ensures LineLength(s) == n
  {
  }

  /** Complete lines scan independently of what follows them. */
  lemma {:induction false} LinesThen(s: Bytes, tail: Bytes)
    requires Outside(s).Ok? && CountManaged(Outside(s).value) == 0
    requires s != [] ==> s[|s| - 1] == LF
    ensures Outside(s + tail) == Prepend(Outside(s).value, Outside(tail))
    decreases |s|
  {
    hide *;
    if s == [] {
      NothingThen(tail);
    } else {
      PlainStart(s);
      LineAlone(s);
      LinesRest(s);
      var line, rest := s[..LineSize(s)], s[LineSize(s)..];
      LinesThen(rest, tail);
      OutsideLine(line, rest + tail);
      Assoc(line, rest, tail);
      PrependTwice([Ordinary(line)], Outside(rest).value, Outside(tail));
    }
  }

  lemma NothingThen(tail: Bytes)
    ensures Outside([] + tail) == Prepend(Outside([]).value, Outside(tail))
  {
    OutsideNothing();
    assert [] + tail == tail;
    hide Outside, Inside;
    if Outside(tail).Ok? {
      assert [] + Outside(tail).value == Outside(tail).value;
    }
  }

  lemma LinesRest(s: Bytes)
    requires s != [] && s[|s| - 1] == LF
    ensures var line, rest := s[..LineSize(s)], s[LineSize(s)..];
            && line[|line| - 1] == LF && (rest != [] ==> rest[|rest| - 1] == LF) && |rest| < |s|
            && line + rest == s
  {
  }

  lemma Assoc<T>(a: seq<T>, b: seq<T>, c: seq<T>)
    ensures a + (b + c) == a + b + c
  {
  }

  lemma PrependTwice(a: seq<Piece>, b: seq<Piece>, r: Result<seq<Piece>, ScanError>)
    ensures Prepend(a, Prepend(b, r)) == Prepend(a + b, r)
  {
    if r.Ok? {
      assert a + (b + r.value) == a + b + r.value;
    }
  }

  /** A text without regions starts with an ordinary line. */
  lemma PlainStart(s: Bytes)
    requires s != [] && Outside(s).Ok? && CountManaged(Outside(s).value) == 0
    ensures var line, rest := s[..LineSize(s)], s[LineSize(s)..];
            && FirstLine(s) == PlainLine && Outside(rest).Ok? && CountManaged(Outside(rest).value) == 0
            && Outside(s) == Ok([Ordinary(line)] + Outside(rest).value)
    ensures LineLength(s) < |s| || s[LineSize(s)..] == []
  {
    OutsideIs(s);
    LineAlone(s);
    hide Outside, Inside, FirstLine, LineLength, ComparedSize, INSTALL_BEGIN, INSTALL_END, CountManaged;
    var line, rest := s[..LineSize(s)], s[LineSize(s)..];
    if FirstLine(s) == PlainLine {
      FlattenConcat([Ordinary(line)], Outside(rest).value);
      FlattenOne(Ordinary(line));
    } else {
      var body, left, tail := InsideShape(line, rest);
      ClosedRegion(line + body, left, Outside(tail).value);
    }
  }

  lemma {:induction false} LastLineDrop(line: Bytes, rest: Bytes)
    requires line != [] && line[|line| - 1] == LF
    ensures LastLine(line + rest) == LastLine(rest)
  {
    if rest == [] {
      assert line + rest == line;
    } else if rest[|rest| - 1] != LF {
      assert (line + rest)[..|line + rest| - 1] == line + rest[..|rest| - 1];
      LastLineDrop(line, rest[..|rest| - 1]);
    }
  }

  lemma {:induction false} LastLineWhole(s: Bytes)
    requires forall i | 0 <= i < |s| :: s[i] != LF
    ensures LastLine(s) == s
  {
    if s != [] {
      LastLineWhole(s[..|s| - 1]);
      assert s == s[..|s| - 1] + [s[|s| - 1]];
    }
  }

  /** What a terminator makes of an unterminated ordinary line. */
  lemma TerminatedLine(line: Bytes, tail: Bytes)
    requires line != [] && (forall i | 0 <= i < |line| :: line[i] != LF)
    requires line != INSTALL_BEGIN && line != INSTALL_END
    ensures var s := line + [LF] + tail;
            && LineSize(s) == |line| + 1 && s[..LineSize(s)] == line + [LF] && s[LineSize(s)..] == tail
            && FirstLine(s) == if line == INSTALL_BEGIN + [CR] then BeginLine
                               else if line == INSTALL_END + [CR] then EndLine
                               else PlainLine
  {
    MarkerBytes();
    hide INSTALL_BEGIN, INSTALL_END;
    assert line + [LF] + tail == line + ([LF] + tail);
    LineLengthUpTo(line, tail);
    var s, n := line + [LF] + tail, |line|;
    if line[n - 1] == CR {
      assert s[..n - 1] == line[..n - 1] && line == line[..n - 1] + [CR];
      CutCr(INSTALL_BEGIN);
      CutCr(INSTALL_END);
    } else {
      assert s[..n] == line;
    }
  }

  lemma CutCr(marker: Bytes)
    ensures (marker + [CR])[..|marker + [CR]| - 1] == marker && (marker + [CR])[|marker|] == CR
  {
  }

  /** The same pieces with the final line terminated. */
  function Terminated(pieces: seq<Piece>): seq<Piece>
    requires pieces != []
  {
    pieces[..|pieces| - 1] + [Ordinary(pieces[|pieces| - 1].bytes + [LF])]
  }

  lemma WholeLine(s: Bytes)
    requires s != [] && LineLength(s) == |s|
    ensures LineSize(s) == |s| && s[LineSize(s)..] == [] && s[..LineSize(s)] == s && LastLine(s) == s
    ensures ComparedSize(s) == |s|
  {
    LastLineWhole(s);
  }

  lemma PlainText(s: Bytes)
    requires FirstLine(s) == PlainLine && ComparedSize(s) == |s|
    ensures s != INSTALL_BEGIN && s != INSTALL_END
  {
    assert s[..ComparedSize(s)] == s;
    hide INSTALL_BEGIN, INSTALL_END, ComparedSize;
  }

  /** Terminating the final line and going on with a plain line and a block. */
  lemma {:induction false} UnterminatedThen(s: Bytes, tail: Bytes)
    requires s != [] && s[|s| - 1] != LF && Outside(s).Ok? && CountManaged(Outside(s).value) == 0
    ensures Outside(s).value != []
    ensures !EndsInLoneCr(s) ==>
              Outside(s + [LF] + tail) == Prepend(Terminated(Outside(s).value), Outside(tail))
    ensures LastLine(s) == INSTALL_END + [CR] ==> Outside(s + [LF] + tail).Err?
    ensures LastLine(s) == INSTALL_BEGIN + [CR] && Inside(LastLine(s) + [LF], tail).Err? ==>
              Outside(s + [LF] + tail).Err?
    decreases |s|
  {
    hide *;
    if LineLength(s) == |s| {
      OnlyLineThen(s, tail);
    } else {
      PlainStart(s);
      LineAlone(s);
      TerminatedNext(s);
      var line, rest := s[..LineSize(s)], s[LineSize(s)..];
      UnterminatedThen(rest, tail);
      LastLineDrop(line, rest);
      SameEnding(s, rest);
      OutsideLine(line, rest + [LF] + tail);
      Joined(line, rest, [LF], tail);
      LineBefore(line, Outside(rest).value, Outside(rest + [LF] + tail), Outside(tail));
    }
  }

  lemma LineBefore(line: Bytes, rest: seq<Piece>, next: Result<seq<Piece>, ScanError>,
                   tail: Result<seq<Piece>, ScanError>)
    requires rest != []
    ensures [Ordinary(line)] + rest != []
    ensures Prepend([Ordinary(line)], next).Err? <==> next.Err?
    ensures next == Prepend(Terminated(rest), tail) ==>
              Prepend([Ordinary(line)], next) == Prepend(Terminated([Ordinary(line)] + rest), tail)
  {
    TerminatedCons(Ordinary(line), rest);
    PrependTwice([Ordinary(line)], Terminated(rest), tail);
  }

  lemma OnlyLineThen(s: Bytes, tail: Bytes)
    requires s != [] && LineLength(s) == |s| && Outside(s).Ok? && CountManaged(Outside(s).value) == 0
    ensures Outside(s).value != []
    ensures !EndsInLoneCr(s) ==>
              Outside(s + [LF] + tail) == Prepend(Terminated(Outside(s).value), Outside(tail))
    ensures LastLine(s) == INSTALL_END + [CR] ==> Outside(s + [LF] + tail).Err?
    ensures LastLine(s) == INSTALL_BEGIN + [CR] && Inside(LastLine(s) + [LF], tail).Err? ==>
              Outside(s + [LF] + tail).Err?
  {
    PlainStart(s);
    WholeLine(s);
    PlainText(s);
    OutsideNothing();
    TerminatedLine(s, tail);
    OutsideIs(s + [LF] + tail);
    LastPiece(s, Outside(s).value);
    EitherMarker(s);
    hide *;
  }

  lemma TerminatedNext(s: Bytes)
    requires s != [] && s[|s| - 1] != LF && LineLength(s) < |s|
    ensures var line, rest := s[..LineSize(s)], s[LineSize(s)..];
            line[|line| - 1] == LF && rest != [] && rest[|rest| - 1] != LF && |rest| < |s|
  {
  }

  lemma LastPiece(s: Bytes, pieces: seq<Piece>)
    requires pieces == [Ordinary(s)] + []
    ensures pieces != [] && Terminated(pieces) == [Ordinary(s + [LF])]
  {
  }

  lemma EitherMarker(s: Bytes)
    requires LastLine(s) == s
    ensures EndsInLoneCr(s) <==> s == INSTALL_BEGIN + [CR] || s == INSTALL_END + [CR]
    ensures INSTALL_BEGIN + [CR] != INSTALL_END + [CR]
  {
    MarkerBytes();
    assert (INSTALL_BEGIN + [CR])[2] != (INSTALL_END + [CR])[2];
  }

  lemma SameEnding(s: Bytes, rest: Bytes)
    requires LastLine(s) == LastLine(rest)
    ensures EndsInLoneCr(s) == EndsInLoneCr(rest)
  {
  }

  lemma TerminatedCons(p: Piece, rest: seq<Piece>)
    requires rest != []
    ensures Terminated([p] + rest) == [p] + Terminated(rest) && [p] + rest != []
  {
  }

  lemma PrependErr(pieces: seq<Piece>, r: Result<seq<Piece>, ScanError>)
    ensures Prepend(pieces, r).Err? <==> r.Err?
  {
  }

  // ---------------------------------------------------------------- the candidate

  lemma {:induction false} RewriteNone(pieces: seq<Piece>, block: Bytes, placed: bool)
    requires CountManaged(pieces) == 0
    ensures Rewrite(pieces, block, placed) == pieces
  {
    if pieces != [] {
      RewriteNone(pieces[1..], block, placed);
    }
  }

  /** The pieces of a text to which a block was appended. */
  lemma BlockAtEnd(pieces: seq<Piece>, block: Bytes)
    requires CountManaged(pieces) == 0
    ensures var r := pieces + [Ordinary([LF]), Managed(block)];
            && CountManaged(r) == 1 && Rewrite(r, block, false) == r && Managed(block) in r
  {
    var tail := [Ordinary([LF]), Managed(block)];
    assert tail[1..] == [Managed(block)] && tail[1..][1..] == [];
    FlattenConcat(pieces, tail);
    FlattenOne(Managed(block));
    RewriteConcat(pieces, tail, block, false);
    RewriteNone(pieces, block, false);
    assert Rewrite(tail[1..], block, false) == [Managed(block)];
  }

  lemma {:induction false} TerminatedCount(pieces: seq<Piece>)
    requires pieces != [] && CountManaged(pieces) == 0
    ensures CountManaged(Terminated(pieces)) == 0
  {
    var front := pieces[..|pieces| - 1];
    assert pieces == front + [pieces[|pieces| - 1]];
    FlattenConcat(front, [pieces[|pieces| - 1]]);
    FlattenConcat(front, [Ordinary(pieces[|pieces| - 1].bytes + [LF])]);
    FlattenOne(Ordinary(pieces[|pieces| - 1].bytes + [LF]));
  }

  lemma BlankThenBlock(block: Bytes)
    requires WellFormedBlock(block)
    ensures Outside([LF] + block) == Ok([Ordinary([LF]), Managed(block)])
    ensures forall open :: Inside(open, [LF] + block).Err?
  {
    OutsideTerminator([LF], block);
    assert [Ordinary([LF])] + [Managed(block)] == [Ordinary([LF]), Managed(block)];
    forall open
      ensures Inside(open, [LF] + block).Err?
    {
      TerminatorLine([LF]);
      InsideLine(open, [LF], block);
      BlockOpens(block);
      InsideIs(open + [LF], block);
    }
  }

  /**
   * Appending a block to a text without markers keeps the text as a prefix. The result scans
   * again, with the block as its one region, exactly unless the text ends in a marker that
   * only its lone CR kept from being one.
   */
  lemma AppendedRescans(s: Bytes, block: Bytes)
    requires Outside(s).Ok? && CountManaged(Outside(s).value) == 0 && WellFormedBlock(block)
    ensures s <= Appended(s, block)
    ensures Outside(Appended(s, block)).Ok? <==> !EndsInLoneCr(s)
    ensures !EndsInLoneCr(s) ==>
              var pieces := Outside(Appended(s, block)).value;
              && CountManaged(pieces) == 1 && Managed(block) in pieces && Rewrite(pieces, block, false) == pieces
  {
    BlankThenBlock(block);
    LastLineEnds(s);
    if s == [] {
      AppendedToNothing(block);
    } else if s[|s| - 1] == LF {
      LinesThen(s, [LF] + block);
      Assoc(s, [LF], block);
      BlockAtEnd(Outside(s).value, block);
      hide *;
      PrependErr(Outside(s).value, Outside([LF] + block));
      AppendedIs(s, block);
    } else {
      UnterminatedThen(s, [LF] + block);
      TerminatedCount(Outside(s).value);
      BlockAtEnd(Terminated(Outside(s).value), block);
      Assoc(s + [LF], [LF], block);
      hide *;
      AppendedIs(s, block);
      LoneCrIs(s);
    }
  }

  lemma LastLineEnds(s: Bytes)
    ensures s == [] || s[|s| - 1] == LF ==> !EndsInLoneCr(s)
  {
    MarkerBytes();
    hide INSTALL_BEGIN, INSTALL_END;
    assert |INSTALL_BEGIN + [CR]| > 0 && |INSTALL_END + [CR]| > 0;
  }

  lemma LoneCrIs(s: Bytes)
    ensures EndsInLoneCr(s) <==> LastLine(s) == INSTALL_BEGIN + [CR] || LastLine(s) == INSTALL_END + [CR]
  {
  }

  lemma AppendedIs(s: Bytes, block: Bytes)
    requires s != []
    ensures Appended(s, block) == (if s[|s| - 1] == LF then s else s + [LF]) + [LF] + block
    ensures s <= Appended(s, block)
  {
  }

  lemma AppendedToNothing(block: Bytes)
    requires WellFormedBlock(block)
    ensures var pieces := [Managed(block), Ordinary([LF])];
            && Outside(Appended([], block)) == Ok(pieces) && CountManaged(pieces) == 1
            && Rewrite(pieces, block, false) == pieces && Managed(block) in pieces
  {
    BlockThen(block, [LF], []);
    OutsideNothing();
    assert block + [LF] + [] == block + [LF];
    ClosedRegion(block, [LF], []);
    RewriteRegion(block, [LF], [], block, false);
    assert [Managed(block)] + [Ordinary([LF])] + [] == [Managed(block), Ordinary([LF])];
    assert CountManaged([]) == 0 && Rewrite([], block, true) == [];
    hide Outside, WellFormedBlock, CountManaged, Rewrite;
  }

  /** Such a text exists: a lone BEGIN marker and CR scans as ordinary, its candidate does not scan. */
  lemma LoneCrBreaksRescan(block: Bytes)
    requires WellFormedBlock(block)
    ensures var s := INSTALL_BEGIN + [CR];
            Outside(s) == Ok([Ordinary(s)]) && Outside(Appended(s, block)).Err?
  {
    MarkerBytes();
    hide INSTALL_BEGIN, INSTALL_END, Outside, Inside, Appended, LastLine, WellFormedBlock;
    var s := INSTALL_BEGIN + [CR];
    NotAMarker();
    OnlyLine(s);
    FlattenOne(Ordinary(s));
    LastLineWhole(s);
    AppendedRescans(s, block);
  }

  lemma NotAMarker()
    ensures INSTALL_BEGIN + [CR] != INSTALL_BEGIN && INSTALL_BEGIN + [CR] != INSTALL_END
  {
    MarkerBytes();
    hide INSTALL_BEGIN, INSTALL_END;
    assert |INSTALL_BEGIN + [CR]| == 18;
  }

  lemma OnlyLine(s: Bytes)
    requires s != [] && s != INSTALL_BEGIN && s != INSTALL_END && forall i | 0 <= i < |s| :: s[i] != LF
    ensures Outside(s) == Ok([Ordinary(s)])
  {
    OnlyLineKind(s);
    hide *;
    OutsideIs(s);
    OutsideNothing();
    assert s[..|s|] == s && s[|s|..] == [];
    PrependNothing([Ordinary(s)]);
    assert [Ordinary(s)] + [] == [Ordinary(s)];
  }

  lemma OnlyLineKind(s: Bytes)
    requires s != [] && s != INSTALL_BEGIN && s != INSTALL_END && forall i | 0 <= i < |s| :: s[i] != LF
    ensures LineSize(s) == |s| && FirstLine(s) == PlainLine
  {
    NoLineFeed(s);
    hide INSTALL_BEGIN, INSTALL_END, LineLength;
    assert s[..|s|] == s;
  }

  /** What the renderer writes for a text that scans. */
  function Candidate(s: Bytes, block: Bytes): Bytes
    requires Outside(s).Ok?
  {
    if CountManaged(Outside(s).value) == 0 then Appended(s, block)
    else Flatten(Rewrite(Outside(s).value, block, false))
  }

  /**
   * Rendering is lossless and idempotent. The candidate scans again, exactly unless a text
   * without markers ends in a lone-CR marker; then the block is its one region, rendering it
   * again changes nothing, and a text that had a region keeps every byte outside its regions.
   */
  lemma RenderingIsIdempotent(s: Bytes, block: Bytes)
    requires Outside(s).Ok? && WellFormedBlock(block)
    ensures Outside(Candidate(s, block)).Ok? <==> !(CountManaged(Outside(s).value) == 0 && EndsInLoneCr(s))
    ensures Outside(Candidate(s, block)).Ok? ==>
              var pieces := Outside(Candidate(s, block)).value;
              && CountManaged(pieces) == 1 && (forall p | p in pieces && p.Managed? :: p.bytes == block)
              && Candidate(Candidate(s, block), block) == Candidate(s, block)
    ensures CountManaged(Outside(s).value) > 0 ==>
              Eligible(Outside(Candidate(s, block)).value) == Eligible(Outside(s).value)
    ensures CountManaged(Outside(s).value) == 0 ==> s <= Candidate(s, block)
  {
    var pieces := Outside(s).value;
    if CountManaged(pieces) == 0 {
      AppendedRescans(s, block);
    } else {
      RewriteRescans(s, block, false);
      RewriteKeeps(pieces, block, false);
    }
    hide Outside, Inside, EndsInLoneCr, Appended, Eligible, CountManaged, Flatten, WellFormedBlock, Rewrite;
    if Outside(Candidate(s, block)).Ok? {
      OutsideLossless(Candidate(s, block));
      RewriteKeeps(Outside(Candidate(s, block)).value, block, false);
    }
  }

  // ---------------------------------------------------------------- the shape of the installed block

  lemma {:induction false} InsideLines(open: Bytes, s: Bytes, tail: Bytes)
    requires Outside(s).Ok? && CountManaged(Outside(s).value) == 0
    requires s != [] ==> s[|s| - 1] == LF
    ensures Inside(open, s + tail) == Inside(open + s, tail)
    decreases |s|
  {
    hide *;
    if s == [] {
      assert [] + tail == tail && open + [] == open;
    } else {
      PlainStart(s);
      LineAlone(s);
      LinesRest(s);
      var line, rest := s[..LineSize(s)], s[LineSize(s)..];
      InsideLine(open, line, rest + tail);
      InsideLines(open + line, rest, tail);
      Assoc(line, rest, tail);
      Assoc(open, line, rest);
    }
  }

  /** BEGIN and END around complete lines that are not markers make a well-formed block. */
  lemma FramedBlock(body: Bytes)
    requires Outside(body).Ok? && CountManaged(Outside(body).value) == 0
    requires body != [] ==> body[|body| - 1] == LF
    ensures WellFormedBlock(INSTALL_BEGIN + [LF] + body + INSTALL_END)
  {
    MarkerBytes();
    MarkerLine(INSTALL_BEGIN, [LF], body + INSTALL_END);
    var opening := INSTALL_BEGIN + [LF];
    hide *;
    var block := opening + (body + INSTALL_END);
    OutsideIs(block);
    Slice2(opening, body + INSTALL_END);
    InsideLines(opening, body, INSTALL_END);
    OnlyEnd(opening + body);
    Assoc(opening, body, INSTALL_END);
    BlockIs(block);
  }

  lemma Slice2(a: Bytes, b: Bytes)
    ensures (a + b)[..|a|] == a && (a + b)[|a|..] == b
  {
  }

  lemma BlockIs(block: Bytes)
    requires Outside(block) == Ok([Managed(block)])
    ensures WellFormedBlock(block)
  {
  }
}
