/**
 * What scanning and rendering a startup file come to, told over the file's marker lines and
 * bytes instead of the scanner's pieces.
 */
module Rendered {
  import opened Wrappers
  import opened ByteStrings
  import opened Markers
  import opened Scanner

  // ---------------------------------------------------------------- marker lines decide the scan

  /** The marker lines in order: true for BEGIN, false for END. */
  function Marks(s: Bytes): seq<bool>
    decreases |s|
  {
    if s == [] then []
    else
      (match FirstLine(s)
       case BeginLine => [true]
       case EndLine => [false]
       case PlainLine => []) + Marks(s[LineSize(s)..])
  }

  /** The first marker that is not the one its turn asks for: BEGIN, END, BEGIN and so on. */
  predicate FirstWrong(m: seq<bool>, i: int) {
    0 <= i < |m| && m[i] != (i % 2 == 0) && forall j | 0 <= j < i :: m[j] == (j % 2 == 0)
  }

  ghost predicate AllRight(m: seq<bool>) { forall j | 0 <= j < |m| :: m[j] == (j % 2 == 0) }

  /** The verdict of a scan over marker lines `m`. */
  ghost predicate Decided(m: seq<bool>, r: Result<seq<Piece>, ScanError>) {
    match r
    case Ok(pieces) => AllRight(m) && |m| == 2 * CountManaged(pieces)
    case Err(BeginWithoutEnd) => AllRight(m) && |m| % 2 == 1
    case Err(EndWithoutBegin) => exists i :: FirstWrong(m, i) && i % 2 == 0
    case Err(NestedBegin) => exists i :: FirstWrong(m, i) && i % 2 == 1
  }

  lemma MarksIs(s: Bytes)
    requires s != []
    ensures Marks(s) == match FirstLine(s)
                        case BeginLine => [true] + Marks(s[LineSize(s)..])
                        case EndLine => [false] + Marks(s[LineSize(s)..])
                        case PlainLine => Marks(s[LineSize(s)..])
  {
    hide FirstLine, LineSize;
    assert [] + Marks(s[LineSize(s)..]) == Marks(s[LineSize(s)..]);
  }

  lemma DecidedPrepend(m: seq<bool>, pieces: seq<Piece>, r: Result<seq<Piece>, ScanError>)
    requires CountManaged(pieces) == 0 && Decided(m, r)
    ensures Decided(m, Prepend(pieces, r))
  {
    if r.Ok? {
      FlattenConcat(pieces, r.value);
    }
  }

  lemma DecidedRegion(m: seq<bool>, region: Bytes, left: Bytes, r: Result<seq<Piece>, ScanError>)
    requires Decided(m, r)
    ensures Decided([true, false] + m, Prepend([Managed(region)] + Leftover(left), r))
  {
    var m' := [true, false] + m;
    assert forall j | 0 <= j < |m| :: m'[j + 2] == m[j] && ((j + 2) % 2 == 0 <==> j % 2 == 0);
    if r.Ok? {
      ClosedRegion(region, left, r.value);
      forall j | 0 <= j < |m'|
        ensures m'[j] == (j % 2 == 0)
      {
        assert j >= 2 ==> m[j - 2] == m'[j];
      }
    } else if r.error == BeginWithoutEnd {
      forall j | 0 <= j < |m'|
        ensures m'[j] == (j % 2 == 0)
      {
        assert j >= 2 ==> m[j - 2] == m'[j];
      }
    } else {
      var i :| FirstWrong(m, i) && (i % 2 == 0 <==> r.error == EndWithoutBegin);
      WrongLater(m, i);
      assert FirstWrong(m', i + 2);
    }
  }

  lemma WrongLater(m: seq<bool>, i: nat)
    requires FirstWrong(m, i)
    ensures FirstWrong([true, false] + m, i + 2)
  {
    var m' := [true, false] + m;
    forall j | 0 <= j < i + 2
      ensures m'[j] == (j % 2 == 0)
    {
      assert j >= 2 ==> m[j - 2] == m'[j];
    }
  }

  lemma {:induction false} OutsideDecided(s: Bytes)
    ensures Decided(Marks(s), Outside(s))
    decreases |s|
  {
    if s == [] {
      OutsideNothing();
    } else {
      OutsideIs(s);
      MarksIs(s);
      var n := LineSize(s);
      hide *;
      match FirstLine(s) {
        case BeginLine =>
          InsideDecided(s[..n], s[n..]);
        case EndLine =>
          EndWrong(Marks(s[n..]));
        case PlainLine =>
          OutsideDecided(s[n..]);
          FlattenOne(Ordinary(s[..n]));
          DecidedPrepend(Marks(s[n..]), [Ordinary(s[..n])], Outside(s[n..]));
      }
    }
  }

  lemma {:induction false} InsideDecided(open: Bytes, s: Bytes)
    ensures Decided([true] + Marks(s), Inside(open, s))
    decreases |s|
  {
    if s == [] {
      InsideNothing(open);
    } else {
      InsideIs(open, s);
      MarksIs(s);
      var n, c := LineSize(s), ComparedSize(s);
      hide *;
      match FirstLine(s) {
        case BeginLine =>
          Two(true, Marks(s[n..]));
          NestedWrong(Marks(s[n..]));
        case EndLine =>
          OutsideDecided(s[n..]);
          DecidedRegion(Marks(s[n..]), open + s[..c], s[c..n], Outside(s[n..]));
          Two(false, Marks(s[n..]));
        case PlainLine =>
          InsideDecided(open + s[..n], s[n..]);
      }
    }
  }

  lemma Two(b: bool, m: seq<bool>)
    ensures [true] + ([b] + m) == [true, b] + m
  {
  }

  lemma InsideNothing(open: Bytes)
    ensures Decided([true] + Marks([]), Inside(open, []))
  {
    assert [true] + [] == [true];
  }

  lemma NestedWrong(m: seq<bool>)
    ensures Decided([true, true] + m, Err(NestedBegin))
  {
    assert FirstWrong([true, true] + m, 1);
  }

  lemma EndWrong(m: seq<bool>)
    ensures Decided([false] + m, Err(EndWithoutBegin))
  {
    assert FirstWrong([false] + m, 0);
  }

  lemma WrongIsOne(m: seq<bool>, i: int)
    requires FirstWrong(m, i)
    ensures !AllRight(m) && forall k | FirstWrong(m, k) :: k == i
  {
    assert m[i] != (i % 2 == 0);
  }

  /**
   * The marker lines decide a scan: it succeeds exactly when they are BEGIN, END, BEGIN, END
   * and so on, with one region for each pair. Otherwise the first line out of turn is an END
   * before any BEGIN or a BEGIN in an open region, or else the last BEGIN is never closed.
   */
  lemma MarkersDecide(s: Bytes)
    ensures Outside(s).Ok? <==> AllRight(Marks(s)) && |Marks(s)| % 2 == 0
    ensures Outside(s).Ok? ==> |Marks(s)| == 2 * CountManaged(Outside(s).value)
    ensures Outside(s) == Err(BeginWithoutEnd) <==> AllRight(Marks(s)) && |Marks(s)| % 2 == 1
    ensures Outside(s) == Err(EndWithoutBegin) <==> exists i :: FirstWrong(Marks(s), i) && i % 2 == 0
    ensures Outside(s) == Err(NestedBegin) <==> exists i :: FirstWrong(Marks(s), i) && i % 2 == 1
  {
    OutsideDecided(s);
    hide Marks, Outside;
    hide FirstWrong, AllRight;
    if i :| FirstWrong(Marks(s), i) {
      WrongIsOne(Marks(s), i);
    }
  }

  // ---------------------------------------------------------------- where the block goes

  /**
   * With a region in the file, the bytes before the first region and the bytes outside the
   * later ones stay, and the block stands exactly where the first region stood.
   */
  lemma RenderedInPlace(s: Bytes, block: Bytes, k: nat)
    requires Outside(s).Ok? && k < |Outside(s).value| && Outside(s).value[k].Managed?
    requires forall i | 0 <= i < k :: Outside(s).value[i].Ordinary?
    ensures var pieces := Outside(s).value;
            var before, after := Flatten(pieces[..k]), pieces[k + 1..];
            && s == before + pieces[k].bytes + Flatten(after)
            && Candidate(s, block) == before + block + Eligible(after)
  {
    var pieces := Outside(s).value;
    OutsideLossless(s);
    FlattenAt(pieces, k);
    RewrittenInPlace(pieces, block, k);
    CandidateRewrites(s, block);
    hide *;
    Assoc(Flatten(pieces[..k]), block, Eligible(pieces[k + 1..]));
  }

  lemma CandidateRewrites(s: Bytes, block: Bytes)
    requires Outside(s).Ok?
    ensures CountManaged(Outside(s).value) > 0 ==>
              Candidate(s, block) == Flatten(Rewrite(Outside(s).value, block, false))
  {
    hide Outside, CountManaged, Flatten, Rewrite;
  }

  lemma {:induction false} FlattenAt(pieces: seq<Piece>, k: nat)
    requires k < |pieces|
    ensures Flatten(pieces) == Flatten(pieces[..k]) + pieces[k].bytes + Flatten(pieces[k + 1..])
    ensures pieces[k].Managed? ==> CountManaged(pieces) > 0
  {
    if k == 0 {
      assert pieces[..0] == [];
      assert [] + pieces[0].bytes == pieces[0].bytes;
    } else {
      FlattenAt(pieces[1..], k - 1);
      assert pieces[1..][k - 1] == pieces[k] && pieces[1..][k..] == pieces[k + 1..];
      FlattenCons(pieces[0], pieces[1..][..k - 1]);
      assert pieces[..k] == [pieces[0]] + pieces[1..][..k - 1];
      assert Flatten(pieces) == pieces[0].bytes + Flatten(pieces[1..]);
      hide Flatten, CountManaged;
      Assoc(pieces[0].bytes, Flatten(pieces[1..][..k - 1]), pieces[k].bytes);
      Assoc(pieces[0].bytes, Flatten(pieces[1..][..k - 1]) + pieces[k].bytes, Flatten(pieces[k + 1..]));
    }
  }

  lemma FlattenCons(p: Piece, rest: seq<Piece>)
    ensures Flatten([p] + rest) == p.bytes + Flatten(rest)
  {
    assert ([p] + rest)[1..] == rest;
  }

  lemma {:induction false} RewrittenInPlace(pieces: seq<Piece>, block: Bytes, k: nat)
    requires k < |pieces| && pieces[k].Managed? && forall i | 0 <= i < k :: pieces[i].Ordinary?
    ensures Flatten(Rewrite(pieces, block, false)) == Flatten(pieces[..k]) + (block + Eligible(pieces[k + 1..]))
  {
    var rest := Rewrite(pieces[1..], block, pieces[0].Managed?);
    if k == 0 {
      RewrittenAway(pieces[1..], block);
      FlattenConcat([Managed(block)], rest);
      FlattenOne(Managed(block));
      assert pieces[..0] == [];
      assert [] + (block + Eligible(pieces[1..])) == block + Eligible(pieces[1..]);
    } else {
      RewrittenInPlace(pieces[1..], block, k - 1);
      FlattenConcat([pieces[0]], rest);
      FlattenOne(pieces[0]);
      assert pieces[..k] == [pieces[0]] + pieces[1..][..k - 1];
      FlattenConcat([pieces[0]], pieces[1..][..k - 1]);
      assert pieces[1..][k..] == pieces[k + 1..];
      Assoc(pieces[0].bytes, Flatten(pieces[1..][..k - 1]), block + Eligible(pieces[k + 1..]));
    }
  }

  lemma {:induction false} RewrittenAway(pieces: seq<Piece>, block: Bytes)
    ensures Flatten(Rewrite(pieces, block, true)) == Eligible(pieces)
  {
    if pieces != [] {
      RewrittenAway(pieces[1..], block);
      var rest := Rewrite(pieces[1..], block, true);
      assert [] + rest == rest && [] + Eligible(pieces[1..]) == Eligible(pieces[1..]);
      if pieces[0].Ordinary? {
        FlattenConcat([pieces[0]], rest);
        FlattenOne(pieces[0]);
      }
    }
  }

  /** The text ends with an empty line. */
  predicate EndsBlank(s: Bytes) { s == [LF] || (|s| >= 2 && s[|s| - 1] == LF && s[|s| - 2] == LF) }

  /** The fewest line feeds after which the text ends with an empty line, its last line ended first. */
  predicate LeavesBlank(s: Bytes, gap: Bytes)
    requires s != []
  {
    EndsBlank(s + gap) && (gap == [LF] || (gap == [LF, LF] && s[|s| - 1] != LF))
  }

  /**
   * Without a region the block goes to the end of the file, after the fewest line feeds that
   * end the last line and leave an empty line; alone in the file it ends with a line feed.
   */
  lemma RenderedAtEnd(s: Bytes, block: Bytes)
    requires Outside(s).Ok? && Marks(s) == []
    ensures s == [] ==> Candidate(s, block) == block + [LF]
    ensures s != [] ==> exists gap | LeavesBlank(s, gap) :: Candidate(s, block) == s + gap + block
  {
    MarkersDecide(s);
    AppendedWhenNone(s, block);
    hide *;
    if s != [] {
      AppendedIs(s, block);
      BlankAfter(s, if s[|s| - 1] == LF then [LF] else [LF, LF], block);
    }
  }

  lemma AppendedWhenNone(s: Bytes, block: Bytes)
    requires Outside(s).Ok?
    ensures CountManaged(Outside(s).value) == 0 ==> Candidate(s, block) == Appended(s, block)
    ensures Appended([], block) == block + [LF]
  {
    hide Outside, CountManaged;
  }

  lemma BlankAfter(s: Bytes, gap: Bytes, block: Bytes)
    requires s != [] && gap == if s[|s| - 1] == LF then [LF] else [LF, LF]
    ensures LeavesBlank(s, gap)
    ensures (if s[|s| - 1] == LF then s else s + [LF]) + [LF] + block == s + gap + block
  {
    assert s + [LF] + [LF] == s + [LF, LF];
    assert (s + gap)[|s|..] == gap && (s + gap)[|s| - 1] == s[|s| - 1];
  }

  /** The recorded line terminator is that of the first line: CR LF, or LF when there is none. */
  lemma NewlineIsFirst(s: Bytes, layout: Layout)
    requires LayoutOf(s, layout)
    ensures layout.newline == [CR, LF] <==> exists i | 0 < i < |s| :: s[i] == LF && s[i - 1] == CR && LF !in s[..i]
    ensures layout.newline == [CR, LF] || layout.newline == [LF]
  {
    hide Outside, RegionsOf, Gaps;
    if i :| 0 < i < |s| && s[i] == LF && s[i - 1] == CR && LF !in s[..i] {
      assert forall j | 0 <= j < i :: s[..i][j] == s[j];
      assert LineLength(s) == i;
    }
    if layout.newline == [CR, LF] {
      var i := LineLength(s);
      assert s[i] == LF && s[i - 1] == CR && LF !in s[..i];
    }
  }
}
