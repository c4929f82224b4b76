/**
 * PATH and FPATH composition (core/activate/builder.go): accepted assignments are reduced to
 * one list of additions around the runtime's own list.
 */
module Lists {
  import opened Wrappers
  import opened LastOccurrence

  /** One part of a semantic list value: the list's own value, a late-bound source, or text. */
  datatype Segment = Segment(value: string, source: string, dynamic: bool, self: bool)

  predicate ValidSegment(s: Segment) {
    if s.self then !s.dynamic && s.value == "" && s.source == ""
    else if s.dynamic then s.value == "" && s.source != ""
    else s.source == ""
  }

  function SelfCount(segments: seq<Segment>): nat {
    if segments == [] then 0
    else SelfCount(segments[..|segments| - 1]) + if segments[|segments| - 1].self then 1 else 0
  }

  /** A list value names the list itself exactly once. */
  predicate ValidList(segments: seq<Segment>) {
    (forall s | s in segments :: ValidSegment(s)) && SelfCount(segments) == 1
  }

  /** An assignment with parser-proven segments, or only its historical text. */
  datatype Assignment =
    | Semantic(raw: string, segments: seq<Segment>) | Legacy(raw: string, value: string) | Opaque(raw: string)

  datatype Token = Base | Addition(value: string, dynamic: bool)

  /** Whether a legacy part is an acceptable addition, and whether it is late-bound. */
  type Grammar = string -> Option<bool>

  function CanonicalList(name: string): string {
    if name == "PATH" || name == "path" then "PATH" else if name == "FPATH" || name == "fpath" then "FPATH" else ""
  }

  predicate IsBase(name: string, part: string) {
    if name == "PATH" then part == "$PATH" || part == "$path" || part == "${PATH}"
    else part == "$FPATH" || part == "$fpath" || part == "${FPATH}"
  }

  function Split(s: string): (parts: seq<string>)
    ensures |parts| > 0
  {
    if s == "" then [""]
    else
      var rest := Split(s[1..]);
      if s[0] == ':' then [""] + rest else [[s[0]] + rest[0]] + rest[1..]
  }

  // ---------------------------------------------------------------- what an assignment does

  /** The elements one addition stands for; a late-bound one may stand for any number. */
  type Meaning = (string, bool) -> seq<string>

  function TokenOf(s: Segment): Token {
    if s.self then Base else if s.dynamic then Addition(s.source, true) else Addition(s.value, false)
  }

  function Expand(meaning: Meaning, token: Token, current: seq<string>): seq<string> {
    match token
    case Base => current
    case Addition(value, dynamic) => meaning(value, dynamic)
  }

  /** Executing a token stream in a shell whose list is `current`. */
  function Execute(meaning: Meaning, tokens: seq<Token>, current: seq<string>): seq<string> {
    if tokens == [] then [] else Expand(meaning, tokens[0], current) + Execute(meaning, tokens[1..], current)
  }

  function BaseCount(tokens: seq<Token>): nat {
    if tokens == [] then 0 else (if tokens[0].Base? then 1 else 0) + BaseCount(tokens[1..])
  }

  function BaseParts(name: string, parts: seq<string>): nat {
    if parts == [] then 0 else (if IsBase(name, parts[0]) then 1 else 0) + BaseParts(name, parts[1..])
  }

  /** A legacy value: one reference to the list itself at either end, acceptable parts elsewhere. */
  predicate AcceptsLegacy(grammar: Grammar, name: string, parts: seq<string>) {
    && BaseParts(name, parts) == 1
    && parts != [] && (IsBase(name, parts[0]) || IsBase(name, parts[|parts| - 1]))
    && forall p | p in parts && !IsBase(name, p) :: grammar(p).Some?
  }

  function LegacyToken(grammar: Grammar, name: string, part: string): Token {
    if IsBase(name, part) then Base else Addition(part, grammar(part) == Some(true))
  }

  function SegmentTokens(segments: seq<Segment>): (r: seq<Token>)
    ensures |r| == |segments| && forall i | 0 <= i < |r| :: r[i] == TokenOf(segments[i])
  {
    seq(|segments|, i requires 0 <= i < |segments| => TokenOf(segments[i]))
  }

  function LegacyTokens(grammar: Grammar, name: string, parts: seq<string>): (r: seq<Token>)
    ensures |r| == |parts| && forall i | 0 <= i < |r| :: r[i] == LegacyToken(grammar, name, parts[i])
  {
    seq(|parts|, i requires 0 <= i < |parts| => LegacyToken(grammar, name, parts[i]))
  }

  /** The token stream an assignment writes, if activation accepts the assignment. */
  function Written(grammar: Grammar, a: Assignment): Option<seq<Token>> {
    var name := CanonicalList(a.raw);
    match a
    case Semantic(_, segments) => if name != "" && ValidList(segments) then Some(SegmentTokens(segments)) else None
    case Legacy(_, value) =>
      if name != "" && AcceptsLegacy(grammar, name, Split(value)) then Some(LegacyTokens(grammar, name, Split(value)))
      else None
    case Opaque(_) => None
  }

  /** A shell executing the accepted assignments of one list, in source order. */
  function Run(meaning: Meaning, grammar: Grammar, name: string, assignments: seq<Assignment>,
               base: seq<string>): seq<string> {
    if assignments == [] then base
    else
      var n := |assignments| - 1;
      var before := Run(meaning, grammar, name, assignments[..n], base);
      var written := Written(grammar, assignments[n]);
      if written.Some? && CanonicalList(assignments[n].raw) == name then Execute(meaning, written.value, before)
      else before
  }

  /** The order in which lists were last written. */
  function WrittenNames(grammar: Grammar, assignments: seq<Assignment>): seq<string> {
    if assignments == [] then []
    else
      var n := |assignments| - 1;
      WrittenNames(grammar, assignments[..n]) +
      if Written(grammar, assignments[n]).Some? then [CanonicalList(assignments[n].raw)] else []
  }

  // ---------------------------------------------------------------- substitution

  function Substitute(tokens: seq<Token>, current: seq<Token>): seq<Token> {
    if tokens == [] then []
    else (if tokens[0].Base? then current else [tokens[0]]) + Substitute(tokens[1..], current)
  }

  lemma {:induction false} ExecuteConcat(meaning: Meaning, a: seq<Token>, b: seq<Token>, current: seq<string>)
    ensures Execute(meaning, a + b, current) == Execute(meaning, a, current) + Execute(meaning, b, current)
    ensures BaseCount(a + b) == BaseCount(a) + BaseCount(b)
  {
    if a == [] {
      assert a + b == b;
    } else {
      assert (a + b)[1..] == a[1..] + b;
      ExecuteConcat(meaning, a[1..], b, current);
      Assoc(Expand(meaning, a[0], current), Execute(meaning, a[1..], current), Execute(meaning, b, current));
    }
  }

  lemma ExecuteOne(meaning: Meaning, token: Token, current: seq<string>)
    ensures Execute(meaning, [token], current) == Expand(meaning, token, current)
    ensures BaseCount([token]) == if token.Base? then 1 else 0
  {
    assert [token][1..] == [];
    assert Expand(meaning, token, current) + [] == Expand(meaning, token, current);
  }

  /** Substituting a stream for the list's own value is executing one after the other. */
  lemma {:induction false} SubstituteExecutes(meaning: Meaning, tokens: seq<Token>, current: seq<Token>,
                                              base: seq<string>)
    ensures Execute(meaning, Substitute(tokens, current), base) ==
            Execute(meaning, tokens, Execute(meaning, current, base))
    ensures BaseCount(Substitute(tokens, current)) == BaseCount(tokens) * BaseCount(current)
  {
    if tokens != [] {
      SubstituteExecutes(meaning, tokens[1..], current, base);
      var head := if tokens[0].Base? then current else [tokens[0]];
      ExecuteConcat(meaning, head, Substitute(tokens[1..], current), base);
      ExecuteOne(meaning, tokens[0], base);
      CountTimes(if tokens[0].Base? then 1 else 0, BaseCount(tokens[1..]), BaseCount(current));
    }
  }

  lemma CountTimes(a: nat, b: nat, c: nat)
    ensures (a + b) * c == a * c + b * c
  {
  }

  lemma {:induction false} SubstituteConcat(a: seq<Token>, b: seq<Token>, current: seq<Token>)
    ensures Substitute(a + b, current) == Substitute(a, current) + Substitute(b, current)
  {
    if a == [] {
      assert a + b == b;
    } else {
      assert (a + b)[1..] == a[1..] + b;
      SubstituteConcat(a[1..], b, current);
      Assoc(if a[0].Base? then current else [a[0]], Substitute(a[1..], current), Substitute(b, current));
    }
  }

  lemma SubstituteOne(token: Token, current: seq<Token>)
    ensures Substitute([token], current) == if token.Base? then current else [token]
  {
    assert [token][1..] == [];
    assert current + [] == current && [token] + [] == [token];
  }

  // ---------------------------------------------------------------- composition

  type Streams = map<string, seq<Token>>

  function CurrentOf(prior: Streams, name: string): seq<Token> { if name in prior then prior[name] else [Base] }

  /** What composing an assignment makes of the streams, if it is accepted. */
  function Composed(grammar: Grammar, a: Assignment, prior: Streams): Option<(string, seq<Token>)> {
    match Written(grammar, a)
    case None => None
    case Some(tokens) => Some((CanonicalList(a.raw), Substitute(tokens, CurrentOf(prior, CanonicalList(a.raw)))))
  }

  method ValidateList(segments: seq<Segment>) returns (ok: bool)
    ensures ok <==> ValidList(segments)
  {
    var selfCount := 0;
    for i := 0 to |segments|
      invariant selfCount == SelfCount(segments[..i])
      invariant forall k | 0 <= k < i :: ValidSegment(segments[k])
    {
      assert segments[..i + 1][..i] == segments[..i];
      var s := segments[i];
      if s.self {
        if s.dynamic || s.value != "" || s.source != "" {
          assert !ValidSegment(s) && s in segments;
          return false;
        }
        selfCount := selfCount + 1;
      } else if s.dynamic {
        if s.value != "" || s.source == "" {
          assert !ValidSegment(s) && s in segments;
          return false;
        }
      } else if s.source != "" {
        assert !ValidSegment(s) && s in segments;
        return false;
      }
    }
    assert segments[..|segments|] == segments;
    ok := selfCount == 1;
  }

  method ComposeList(grammar: Grammar, raw: string, segments: seq<Segment>, prior: Streams)
    returns (r: Option<(string, seq<Token>)>)
    ensures r == Composed(grammar, Semantic(raw, segments), prior)
  {
    var name := CanonicalList(raw);
    var valid := ValidateList(segments);
    if name == "" || !valid {
      return None;
    }
    var current := CurrentOf(prior, name);
    var next: seq<Token> := [];
    ghost var tokens := SegmentTokens(segments);
    for i := 0 to |segments|
      invariant next == Substitute(tokens[..i], current)
    {
      assert tokens[..i + 1] == tokens[..i] + [tokens[i]];
      SubstituteConcat(tokens[..i], [tokens[i]], current);
      SubstituteOne(tokens[i], current);
      var segment := segments[i];
      if segment.self {
        next := next + current;
      } else if segment.dynamic {
        next := next + [Addition(segment.source, true)];
      } else {
        next := next + [Addition(segment.value, false)];
      }
    }
    assert tokens[..|segments|] == tokens;
    r := Some((name, next));
  }

  datatype Delta = Delta(name: string, additions: seq<string>, baseIndex: nat, dynamic: seq<bool>)

  predicate ValidDelta(d: Delta) { d.baseIndex <= |d.additions| && |d.dynamic| == |d.additions| }

  function Additions(values: seq<string>, dynamic: seq<bool>): (r: seq<Token>)
    requires |values| == |dynamic|
    ensures |r| == |values| && forall i | 0 <= i < |r| :: r[i] == Addition(values[i], dynamic[i])
  {
    seq(|values|, i requires 0 <= i < |values| => Addition(values[i], dynamic[i]))
  }

  /** A delta as a token stream: its additions with the list itself at the base index. */
  function DeltaTokens(d: Delta): seq<Token>
    requires ValidDelta(d)
  {
    Additions(d.additions, d.dynamic)[..d.baseIndex] + [Base] + Additions(d.additions, d.dynamic)[d.baseIndex..]
  }

  function Elements(meaning: Meaning, values: seq<string>, dynamic: seq<bool>): seq<string>
    requires |values| == |dynamic|
  {
    if values == [] then [] else meaning(values[0], dynamic[0]) + Elements(meaning, values[1..], dynamic[1..])
  }

  /** What a delta makes of a list: the additions before the base index, the list, the rest. */
  function ExpandDelta(meaning: Meaning, d: Delta, base: seq<string>): seq<string>
    requires ValidDelta(d)
  {
    Elements(meaning, d.additions[..d.baseIndex], d.dynamic[..d.baseIndex]) + base +
    Elements(meaning, d.additions[d.baseIndex..], d.dynamic[d.baseIndex..])
  }

  lemma {:induction false} ExecuteAdditions(meaning: Meaning, values: seq<string>, dynamic: seq<bool>,
                                            base: seq<string>)
    requires |values| == |dynamic|
    ensures Execute(meaning, Additions(values, dynamic), base) == Elements(meaning, values, dynamic)
    ensures BaseCount(Additions(values, dynamic)) == 0
  {
    if values != [] {
      ExecuteAdditions(meaning, values[1..], dynamic[1..], base);
      assert Additions(values, dynamic)[1..] == Additions(values[1..], dynamic[1..]);
    }
  }

  /** Expanding a delta is executing its token stream. */
  lemma DeltaExecutes(meaning: Meaning, d: Delta, base: seq<string>)
    requires ValidDelta(d)
    ensures ExpandDelta(meaning, d, base) == Execute(meaning, DeltaTokens(d), base)
    ensures BaseCount(DeltaTokens(d)) == 1
  {
    var b := d.baseIndex;
    var front := Additions(d.additions[..b], d.dynamic[..b]);
    var back := Additions(d.additions[b..], d.dynamic[b..]);
    assert Additions(d.additions, d.dynamic)[..b] == front && Additions(d.additions, d.dynamic)[b..] == back;
    ExecuteConcat(meaning, front + [Base], back, base);
    ExecuteConcat(meaning, front, [Base], base);
    ExecuteOne(meaning, Base, base);
    ExecuteAdditions(meaning, d.additions[..b], d.dynamic[..b], base);
    ExecuteAdditions(meaning, d.additions[b..], d.dynamic[b..], base);
  }

  // ---------------------------------------------------------------- the legacy form

  lemma {:induction false} BasePartsConcat(name: string, a: seq<string>, b: seq<string>)
    ensures BaseParts(name, a + b) == BaseParts(name, a) + BaseParts(name, b)
  {
    if a == [] {
      assert a + b == b;
    } else {
      assert (a + b)[1..] == a[1..] + b;
      BasePartsConcat(name, a[1..], b);
    }
  }

  lemma BasePartsSnoc(name: string, parts: seq<string>, i: nat)
    requires i < |parts|
    ensures BaseParts(name, parts[..i + 1]) == BaseParts(name, parts[..i]) + if IsBase(name, parts[i]) then 1 else 0
    ensures BaseParts(name, parts[..i + 1]) <= BaseParts(name, parts)
  {
    assert parts[..i + 1] == parts[..i] + [parts[i]];
    BasePartsConcat(name, parts[..i], [parts[i]]);
    assert [parts[i]][1..] == [];
    assert parts == parts[..i + 1] + parts[i + 1..];
    BasePartsConcat(name, parts[..i + 1], parts[i + 1..]);
  }

  /** The index of the one reference to the list itself, -1 for none, -2 for several. */
  method FindBase(name: string, parts: seq<string>) returns (idx: int)
    ensures idx >= 0 <==> BaseParts(name, parts) == 1
    ensures idx >= 0 ==> idx < |parts| && IsBase(name, parts[idx])
    ensures idx >= 0 ==> forall k | 0 <= k < |parts| && k != idx :: !IsBase(name, parts[k])
  {
    idx := -1;
    for i := 0 to |parts|
      invariant -1 <= idx < i
      invariant BaseParts(name, parts[..i]) == if idx >= 0 then 1 else 0
      invariant idx >= 0 ==> IsBase(name, parts[idx])
      invariant forall k | 0 <= k < i && k != idx :: !IsBase(name, parts[k])
    {
      BasePartsSnoc(name, parts, i);
      if IsBase(name, parts[i]) {
        if idx != -1 {
          return -2;
        }
        idx := i;
      }
    }
    assert parts[..|parts|] == parts;
  }

  /** pathDelta: the additions and base index of a legacy value. */
  method PathDelta(grammar: Grammar, raw: string, value: string) returns (r: Option<Delta>)
    ensures r.Some? <==> CanonicalList(raw) != "" && AcceptsLegacy(grammar, CanonicalList(raw), Split(value))
    ensures r.Some? ==> r.value.name == CanonicalList(raw) && ValidDelta(r.value) &&
                        DeltaTokens(r.value) == LegacyTokens(grammar, CanonicalList(raw), Split(value))
  {
    var name := CanonicalList(raw);
    if name == "" {
      return None;
    }
    var parts := Split(value);
    var idx := FindBase(name, parts);
    if idx != 0 && idx != |parts| - 1 {
      EndsAreNotBase(name, parts, idx);
      return None;
    }
    var adds := if idx == 0 then parts[1..] else parts[..|parts| - 1];
    var dynamic: seq<bool> := [];
    for i := 0 to |adds|
      invariant |dynamic| == i
      invariant forall k | 0 <= k < i :: grammar(adds[k]).Some? && dynamic[k] == (grammar(adds[k]) == Some(true))
    {
      var verdict := grammar(adds[i]);
      if verdict.None? {
        var at := if idx == 0 then i + 1 else i;
        assert parts[at] == adds[i] && parts[at] in parts;
        return None;
      }
      dynamic := dynamic + [verdict.value];
    }
    var baseIndex := if idx == |parts| - 1 then |adds| else idx;
    var d := Delta(name, adds, baseIndex, dynamic);
    LegacyDelta(grammar, name, parts, idx, d);
    r := Some(d);
  }

  lemma EndsAreNotBase(name: string, parts: seq<string>, idx: int)
    requires parts != [] && (idx >= 0 <==> BaseParts(name, parts) == 1)
    requires idx != 0 && idx != |parts| - 1 && idx < |parts|
    requires idx >= 0 ==> forall k | 0 <= k < |parts| && k != idx :: !IsBase(name, parts[k])
    ensures !(BaseParts(name, parts) == 1 && (IsBase(name, parts[0]) || IsBase(name, parts[|parts| - 1])))
  {
  }

  lemma LegacyDelta(grammar: Grammar, name: string, parts: seq<string>, idx: nat, d: Delta)
    requires idx < |parts| && (idx == 0 || idx == |parts| - 1)
    requires IsBase(name, parts[idx]) && BaseParts(name, parts) == 1
    requires forall k | 0 <= k < |parts| && k != idx :: !IsBase(name, parts[k])
    requires d.additions == (if idx == 0 then parts[1..] else parts[..|parts| - 1])
    requires d.baseIndex == (if idx == |parts| - 1 then |d.additions| else idx) && |d.dynamic| == |d.additions|
    requires forall k | 0 <= k < |d.additions| ::
               grammar(d.additions[k]).Some? && d.dynamic[k] == (grammar(d.additions[k]) == Some(true))
    ensures AcceptsLegacy(grammar, name, parts)
    ensures ValidDelta(d) && DeltaTokens(d) == LegacyTokens(grammar, name, parts)
  {
    forall p | p in parts && !IsBase(name, p)
      ensures grammar(p).Some?
    {
      var k :| 0 <= k < |parts| && parts[k] == p;
      assert d.additions[if idx == 0 then k - 1 else k] == p;
    }
    var tokens := LegacyTokens(grammar, name, parts);
    if idx == |parts| - 1 {
      assert tokens[..|parts| - 1] == Additions(d.additions, d.dynamic)[..d.baseIndex];
    } else {
      assert tokens[1..] == Additions(d.additions, d.dynamic)[d.baseIndex..];
    }
  }

  /** How many tokens of a delta's stream the first `i` rounds of the interleaving emit. */
  function Emitted(d: Delta, i: nat): nat {
    (if i <= |d.additions| then i else |d.additions|) + (if i > d.baseIndex then 1 else 0)
  }

  lemma EmitRound(d: Delta, i: nat)
    requires ValidDelta(d) && i <= |d.additions|
    ensures Emitted(d, i + 1) <= |DeltaTokens(d)|
    ensures DeltaTokens(d)[..Emitted(d, i + 1)] ==
            DeltaTokens(d)[..Emitted(d, i)] + (if i == d.baseIndex then [Base] else []) +
            (if i < |d.additions| then [Addition(d.additions[i], d.dynamic[i])] else [])
  {
  }

  /** The composed stream after the first `i` rounds. */
  function Interleaved(d: Delta, i: nat, current: seq<Token>): seq<Token>
    requires ValidDelta(d) && i <= |d.additions| + 1
  {
    Substitute(DeltaTokens(d)[..Emitted(d, i)], current)
  }

  lemma InterleaveEnds(d: Delta, current: seq<Token>)
    requires ValidDelta(d)
    ensures Interleaved(d, 0, current) == []
    ensures Interleaved(d, |d.additions| + 1, current) == Substitute(DeltaTokens(d), current)
  {
    assert DeltaTokens(d)[..|DeltaTokens(d)|] == DeltaTokens(d);
  }

  lemma InterleaveRound(d: Delta, i: nat, current: seq<Token>)
    requires ValidDelta(d) && i <= |d.additions|
    ensures Interleaved(d, i + 1, current) ==
            Interleaved(d, i, current) + (if i == d.baseIndex then current else []) +
            (if i < |d.additions| then [Addition(d.additions[i], d.dynamic[i])] else [])
  {
    EmitRound(d, i);
    var emitted := DeltaTokens(d)[..Emitted(d, i)];
    var base := if i == d.baseIndex then [Base] else [];
    var addition := if i < |d.additions| then [Addition(d.additions[i], d.dynamic[i])] else [];
    SubstituteConcat(emitted + base, addition, current);
    SubstituteConcat(emitted, base, current);
    SubstituteOne(Base, current);
    if i < |d.additions| {
      SubstituteOne(Addition(d.additions[i], d.dynamic[i]), current);
    }
  }

  method ComposeLegacyList(grammar: Grammar, raw: string, value: string, prior: Streams)
    returns (r: Option<(string, seq<Token>)>)
    ensures r == Composed(grammar, Legacy(raw, value), prior)
  {
    hide AcceptsLegacy, LegacyTokens, Split, DeltaTokens, Interleaved, Substitute;
    var delta := PathDelta(grammar, raw, value);
    if delta.None? {
      return None;
    }
    var d := delta.value;
    var current := CurrentOf(prior, d.name);
    var next: seq<Token> := [];
    InterleaveEnds(d, current);
    for i := 0 to |d.additions| + 1
      invariant next == Interleaved(d, i, current)
    {
      InterleaveRound(d, i, current);
      if i == d.baseIndex {
        next := next + current;
      }
      if i < |d.additions| {
        next := next + [Addition(d.additions[i], d.dynamic[i])];
      }
    }
    r := Some((d.name, next));
  }

  // ---------------------------------------------------------------- reduction

  /** The stream composed for one list from the assignments in source order. */
  function StreamOf(grammar: Grammar, name: string, assignments: seq<Assignment>): seq<Token> {
    if assignments == [] then [Base]
    else
      var n := |assignments| - 1;
      var before := StreamOf(grammar, name, assignments[..n]);
      var written := Written(grammar, assignments[n]);
      if written.Some? && CanonicalList(assignments[n].raw) == name then Substitute(written.value, before) else before
  }

  lemma {:induction false} SegmentBases(segments: seq<Segment>)
    requires forall s | s in segments :: ValidSegment(s)
    ensures BaseCount(SegmentTokens(segments)) == SelfCount(segments)
  {
    if segments != [] {
      var n := |segments| - 1;
      SegmentBases(segments[..n]);
      assert SegmentTokens(segments) == SegmentTokens(segments[..n]) + [TokenOf(segments[n])];
      ExecuteConcat((_, _) => [], SegmentTokens(segments[..n]), [TokenOf(segments[n])], []);
      ExecuteOne((_, _) => [], TokenOf(segments[n]), []);
    }
  }

  lemma {:induction false} LegacyBases(grammar: Grammar, name: string, parts: seq<string>)
    ensures BaseCount(LegacyTokens(grammar, name, parts)) == BaseParts(name, parts)
  {
    if parts != [] {
      LegacyBases(grammar, name, parts[1..]);
      assert LegacyTokens(grammar, name, parts)[1..] == LegacyTokens(grammar, name, parts[1..]);
    }
  }

  /** Every accepted assignment names its own list exactly once. */
  lemma WrittenOnce(grammar: Grammar, a: Assignment)
    requires Written(grammar, a).Some?
    ensures BaseCount(Written(grammar, a).value) == 1
  {
    match a
    case Semantic(_, segments) => SegmentBases(segments);
    case Legacy(_, value) => LegacyBases(grammar, CanonicalList(a.raw), Split(value));
    case Opaque(_) =>
  }

  /**
   * Whatever mixture of semantic and legacy assignments was composed, the stream keeps exactly
   * one base token and executing it equals executing the assignments one after another.
   */
  lemma {:induction false} StreamExecutes(meaning: Meaning, grammar: Grammar, name: string,
                                          assignments: seq<Assignment>,
                                          base: seq<string>)
    ensures BaseCount(StreamOf(grammar, name, assignments)) == 1
    ensures Execute(meaning, StreamOf(grammar, name, assignments), base) ==
            Run(meaning, grammar, name, assignments, base)
  {
    if assignments == [] {
      ExecuteOne(meaning, Base, base);
    } else {
      var n := |assignments| - 1;
      StreamExecutes(meaning, grammar, name, assignments[..n], base);
      var written := Written(grammar, assignments[n]);
      if written.Some? {
        WrittenOnce(grammar, assignments[n]);
        SubstituteExecutes(meaning, written.value, StreamOf(grammar, name, assignments[..n]), base);
      }
    }
  }

  /** The reduction state after a prefix of a stream. */
  ghost predicate Reduced(prefix: seq<Token>, adds: seq<string>, dynamic: seq<bool>, base: nat) {
    && |dynamic| == |adds| && base <= |adds| && BaseCount(prefix) <= 1
    && (BaseCount(prefix) == 0 ==> prefix == Additions(adds, dynamic))
    && (BaseCount(prefix) == 1 ==> prefix == DeltaTokens(Delta("", adds, base, dynamic)))
  }

  lemma ReduceBase(prefix: seq<Token>, adds: seq<string>, dynamic: seq<bool>, base: nat)
    requires Reduced(prefix, adds, dynamic, base) && BaseCount(prefix) == 0 && BaseCount(prefix + [Base]) == 1
    ensures Reduced(prefix + [Base], adds, dynamic, |adds|)
  {
    assert Additions(adds, dynamic)[..|adds|] == Additions(adds, dynamic);
    assert Additions(adds, dynamic)[|adds|..] == [];
  }

  lemma ReduceAddition(prefix: seq<Token>, adds: seq<string>, dynamic: seq<bool>, base: nat, token: Token)
    requires Reduced(prefix, adds, dynamic, base) && token.Addition? && BaseCount(prefix + [token]) == BaseCount(prefix)
    ensures Reduced(prefix + [token], adds + [token.value], dynamic + [token.dynamic], base)
  {
    var before := Additions(adds, dynamic);
    assert Additions(adds + [token.value], dynamic + [token.dynamic]) == before + [token];
    assert (before + [token])[..base] == before[..base] && (before + [token])[base..] == before[base..] + [token];
  }

  /** The additions of a stream, in order, and where the list itself stands among them. */
  method ReduceStream(name: string, tokens: seq<Token>) returns (d: Delta)
    requires BaseCount(tokens) == 1
    ensures d.name == name && ValidDelta(d) && DeltaTokens(d) == tokens
  {
    var base: nat := 0;
    var adds: seq<string> := [];
    var dynamic: seq<bool> := [];
    assert Reduced(tokens[..0], adds, dynamic, base);
    for i := 0 to |tokens|
      invariant Reduced(tokens[..i], adds, dynamic, base)
    {
      ReduceStep(tokens, i);
      if tokens[i].Base? {
        ReduceBase(tokens[..i], adds, dynamic, base);
        hide Reduced;
        base := |adds|;
      } else {
        ReduceAddition(tokens[..i], adds, dynamic, base, tokens[i]);
        hide Reduced;
        adds := adds + [tokens[i].value];
        dynamic := dynamic + [tokens[i].dynamic];
      }
    }
    assert tokens[..|tokens|] == tokens;
    d := Delta(name, adds, base, dynamic);
  }

  lemma ReduceStep(tokens: seq<Token>, i: nat)
    requires i < |tokens| && BaseCount(tokens) == 1
    ensures tokens[..i + 1] == tokens[..i] + [tokens[i]]
    ensures BaseCount(tokens[..i + 1]) == BaseCount(tokens[..i]) + (if tokens[i].Base? then 1 else 0)
    ensures BaseCount(tokens[..i + 1]) <= 1
  {
    ExecuteConcat((_, _) => [], tokens[..i], [tokens[i]], []);
    ExecuteOne((_, _) => [], tokens[i], []);
    assert tokens == tokens[..i + 1] + tokens[i + 1..];
    ExecuteConcat((_, _) => [], tokens[..i + 1], tokens[i + 1..], []);
    assert tokens[..i + 1] == tokens[..i] + [tokens[i]];
  }
}
