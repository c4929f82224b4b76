/**
 * The two-slot install journal (core/cli/install_transaction.go). Generation g lives in slot
 * (g - 1) mod 2 beside generation g - 1, so a write can only tear the older slot.
 */
module Journal {
  import opened Wrappers
  import opened ByteStrings

  const SLOT_MAGIC: Bytes := [90, 80, 74, 82, 78, 76, 48, 49]
  const SLOT_FORMAT: nat := 1
  const SLOT_SIZE: nat := 65536
  const DIGEST_SIZE: nat := 32

  // Where the fields of a slot begin: magic, format, generation, payload length, digest, payload.
  const FORMAT_AT: nat := 8
  const GENERATION_AT: nat := 12
  const LENGTH_AT: nat := 20
  const DIGEST_AT: nat := 24
  const PAYLOAD_AT: nat := 56
  const MAX_GENERATION: nat := 0xFFFF_FFFF_FFFF_FFFF

  /** JSON, the digest and the journal's own rules, which the codec is generic in. */
  datatype Codec<!J> = Codec(encode: J -> Bytes, decode: Bytes -> Option<J>, valid: J -> bool,
                             transition: (J, J) -> bool, digest: Bytes -> Bytes)

  /** Decoding inverts encoding on valid journals, and a digest has its size. */
  ghost predicate Faithful<J(!new)>(codec: Codec<J>) {
    && (forall j :: codec.valid(j) ==> codec.decode(codec.encode(j)) == Some(j))
    && (forall s :: |codec.digest(s)| == DIGEST_SIZE)
  }

  datatype Record<J> = Record(generation: nat, journal: J)

  // ---------------------------------------------------------------- one slot

  function Header(generation: nat, length: nat): (s: Bytes)
    ensures |s| == DIGEST_AT
  {
    SLOT_MAGIC + BigEndian(SLOT_FORMAT, 4) + BigEndian(generation, 8) + BigEndian(length, 4)
  }

  predicate Fits<J>(codec: Codec<J>, j: J) { 0 < |codec.encode(j)| <= SLOT_SIZE - PAYLOAD_AT }

  function Zeros(n: nat): Bytes { seq(n, _ => 0 as byte) }

  function SlotBytes<J>(codec: Codec<J>, j: J, generation: nat): (s: Bytes)
    requires Fits(codec, j)
  {
    var payload := codec.encode(j);
    var header := Header(generation, |payload|);
    header + codec.digest(header + payload) + payload + Zeros(SLOT_SIZE - PAYLOAD_AT - |payload|)
  }

  function GenerationOf(slot: Bytes): nat requires |slot| == SLOT_SIZE { FromBigEndian(slot[GENERATION_AT..LENGTH_AT]) }

  function LengthOf(slot: Bytes): nat requires |slot| == SLOT_SIZE { FromBigEndian(slot[LENGTH_AT..DIGEST_AT]) }

  /** Magic, format, generation and payload length are acceptable. */
  predicate WellHeaded(slot: Bytes) {
    && |slot| == SLOT_SIZE && slot[..FORMAT_AT] == SLOT_MAGIC &&
       FromBigEndian(slot[FORMAT_AT..GENERATION_AT]) == SLOT_FORMAT
    && GenerationOf(slot) != 0 && 0 < LengthOf(slot) <= SLOT_SIZE - PAYLOAD_AT
  }

  function Payload(slot: Bytes): Bytes
    requires WellHeaded(slot)
  {
    slot[PAYLOAD_AT..PAYLOAD_AT + LengthOf(slot)]
  }

  /** What the digest of a slot covers. */
  function Content(slot: Bytes): Bytes
    requires WellHeaded(slot)
  {
    slot[..DIGEST_AT] + Payload(slot)
  }

  predicate Authentic<J>(codec: Codec<J>, slot: Bytes)
    requires WellHeaded(slot)
  {
    slot[DIGEST_AT..PAYLOAD_AT] == codec.digest(Content(slot))
  }

  function DecodeSlot<J>(codec: Codec<J>, slot: Bytes): Option<Record<J>> {
    if !WellHeaded(slot) || !Authentic(codec, slot) then None
    else
      match codec.decode(Payload(slot))
      case None => None
      case Some(j) => if codec.valid(j) then Some(Record(GenerationOf(slot), j)) else None
  }

  lemma Widths()
    ensures Power(4) == 0x1_0000_0000 && Power(8) == 0x1_0000_0000_0000_0000
  {
    assert Power(1) == 256 && Power(2) == 65536 && Power(3) == 0x100_0000;
    assert Power(5) == 256 * Power(4) && Power(6) == 256 * Power(5) && Power(7) == 256 * Power(6);
  }

  lemma HeaderFields(generation: nat, length: nat)
    requires generation <= MAX_GENERATION && length <= SLOT_SIZE
    ensures var h := Header(generation, length);
            && h[..FORMAT_AT] == SLOT_MAGIC && FromBigEndian(h[FORMAT_AT..GENERATION_AT]) == SLOT_FORMAT
            && FromBigEndian(h[GENERATION_AT..LENGTH_AT]) == generation &&
               FromBigEndian(h[LENGTH_AT..DIGEST_AT]) == length
  {
    Widths();
    BigEndianRoundTrip(SLOT_FORMAT, 4);
    BigEndianRoundTrip(generation, 8);
    BigEndianRoundTrip(length, 4);
    hide BigEndian, FromBigEndian, Power;
    var h := Header(generation, length);
    assert h[FORMAT_AT..GENERATION_AT] == BigEndian(SLOT_FORMAT, 4);
    assert h[GENERATION_AT..LENGTH_AT] == BigEndian(generation, 8);
    assert h[LENGTH_AT..DIGEST_AT] == BigEndian(length, 4);
  }

  lemma SlotFields<J>(codec: Codec<J>, j: J, generation: nat)
    requires Fits(codec, j) && 0 < generation <= MAX_GENERATION
    requires |codec.digest(Header(generation, |codec.encode(j)|) + codec.encode(j))| == DIGEST_SIZE
    ensures var slot := SlotBytes(codec, j, generation);
            && WellHeaded(slot) && GenerationOf(slot) == generation && Payload(slot) == codec.encode(j)
            && Content(slot) == Header(generation, |codec.encode(j)|) + codec.encode(j) && Authentic(codec, slot)
  {
    var payload := codec.encode(j);
    var header := Header(generation, |payload|);
    HeaderFields(generation, |payload|);
    hide Header, FromBigEndian, BigEndian, SLOT_MAGIC;
    var slot := SlotBytes(codec, j, generation);
    assert slot[..DIGEST_AT] == header;
    assert slot[..FORMAT_AT] == header[..FORMAT_AT];
    assert slot[FORMAT_AT..GENERATION_AT] == header[FORMAT_AT..GENERATION_AT];
    assert slot[GENERATION_AT..LENGTH_AT] == header[GENERATION_AT..LENGTH_AT];
    assert slot[LENGTH_AT..DIGEST_AT] == header[LENGTH_AT..DIGEST_AT];
    assert slot[DIGEST_AT..PAYLOAD_AT] == codec.digest(header + payload);
    assert slot[PAYLOAD_AT..PAYLOAD_AT + |payload|] == payload;
  }

  /** Decoding a slot inverts encoding it, for every valid journal that fits. */
  lemma SlotRoundTrip<J(!new)>(codec: Codec<J>, j: J, generation: nat)
    requires Faithful(codec) && codec.valid(j) && Fits(codec, j) && 0 < generation <= MAX_GENERATION
    ensures DecodeSlot(codec, SlotBytes(codec, j, generation)) == Some(Record(generation, j))
  {
    SlotFields(codec, j, generation);
    hide SlotBytes, WellHeaded, Authentic, Payload, GenerationOf;
  }

  // ---------------------------------------------------------------- the file

  function SlotAt(file: Bytes, index: nat): (s: Bytes)
    requires |file| == 2 * SLOT_SIZE && index < 2
    ensures |s| == SLOT_SIZE
  {
    if index == 0 then file[..SLOT_SIZE] else file[SLOT_SIZE..]
  }

  /** The newer of two consecutive records, provided the older one may precede it. */
  function Newer<J>(codec: Codec<J>, a: Record<J>, b: Record<J>): Option<Record<J>> {
    var older, newer := if a.generation > b.generation then b else a, if a.generation > b.generation then a else b;
    if newer.generation != older.generation + 1 || !codec.transition(older.journal, newer.journal) then None
    else Some(newer)
  }

  function DecodeFile<J>(codec: Codec<J>, file: Bytes): Option<Record<J>> {
    if |file| != 2 * SLOT_SIZE then None
    else
      match (DecodeSlot(codec, SlotAt(file, 0)), DecodeSlot(codec, SlotAt(file, 1)))
      case (None, None) => None
      case (Some(a), None) => Some(a)
      case (None, Some(b)) => Some(b)
      case (Some(a), Some(b)) => Newer(codec, a, b)
  }

  predicate Storable<J>(codec: Codec<J>, j: J) { codec.valid(j) && Fits(codec, j) }

  /** Generation `g` holds `j`, beside its predecessor or, for the first, an empty slot. */
  ghost predicate Kept<J(!new)>(codec: Codec<J>, file: Bytes, g: nat, j: J) {
    && |file| == 2 * SLOT_SIZE && 0 < g <= MAX_GENERATION && Storable(codec, j)
    && SlotAt(file, (g - 1) % 2) == SlotBytes(codec, j, g)
    && (if g == 1 then SlotAt(file, 1) == Zeros(SLOT_SIZE)
        else exists p :: Precedes(codec, file, g, p, j))
  }

  ghost predicate Precedes<J(!new)>(codec: Codec<J>, file: Bytes, g: nat, p: J, j: J)
    requires |file| == 2 * SLOT_SIZE && g > 1
  {
    Storable(codec, p) && codec.transition(p, j) && SlotAt(file, g % 2) == SlotBytes(codec, p, g - 1)
  }

  lemma ZerosDoNotDecode<J>(codec: Codec<J>)
    ensures DecodeSlot(codec, Zeros(SLOT_SIZE)).None?
  {
    assert Zeros(SLOT_SIZE)[..FORMAT_AT][0] == 0;
  }

  /** What the file decodes to, whatever the slot beside generation `g` decodes to. */
  lemma BesideDecodes<J>(codec: Codec<J>, file: Bytes, g: nat, j: J)
    requires |file| == 2 * SLOT_SIZE && g > 0
    requires DecodeSlot(codec, SlotAt(file, (g - 1) % 2)) == Some(Record(g, j))
    ensures var other := DecodeSlot(codec, SlotAt(file, g % 2));
            DecodeFile(codec, file) == if other.None? then Some(Record(g, j))
                                       else Newer(codec, other.value, Record(g, j))
  {
    hide DecodeSlot, SlotAt;
    assert (g - 1) % 2 == 0 ==> g % 2 == 1;
    assert (g - 1) % 2 == 1 ==> g % 2 == 0;
    var other := DecodeSlot(codec, SlotAt(file, g % 2));
    if other.Some? {
      NewerSymmetric(codec, other.value, Record(g, j));
    }
  }

  lemma NewerSymmetric<J>(codec: Codec<J>, a: Record<J>, b: Record<J>)
    ensures Newer(codec, a, b) == Newer(codec, b, a)
  {
  }

  lemma KeptDecodes<J(!new)>(codec: Codec<J>, file: Bytes, g: nat, j: J)
    requires Faithful(codec) && Kept(codec, file, g, j)
    ensures DecodeSlot(codec, SlotAt(file, (g - 1) % 2)) == Some(Record(g, j))
    ensures DecodeFile(codec, file) == Some(Record(g, j))
  {
    SlotRoundTrip(codec, j, g);
    ReplacedSlot(codec, file, g, j);
    hide DecodeSlot, SlotBytes, DecodeFile, WellHeaded, Faithful, Fits;
    BesideDecodes(codec, file, g, j);
  }

  // ---------------------------------------------------------------- writing

  /** A slot write that reached the disk up to `k` bytes. */
  function Torn(file: Bytes, index: nat, slot: Bytes, k: nat): (s: Bytes)
    requires |file| == 2 * SLOT_SIZE && index < 2 && |slot| == SLOT_SIZE && k <= SLOT_SIZE
    ensures |s| == 2 * SLOT_SIZE
  {
    if index == 0 then slot[..k] + file[k..] else file[..SLOT_SIZE] + slot[..k] + file[SLOT_SIZE + k..]
  }

  function Splice(before: Bytes, after: Bytes, k: nat): (s: Bytes)
    requires |before| == |after| == SLOT_SIZE && k <= SLOT_SIZE
    ensures |s| == SLOT_SIZE
  {
    after[..k] + before[k..]
  }

  lemma TornSlots(file: Bytes, index: nat, slot: Bytes, k: nat)
    requires |file| == 2 * SLOT_SIZE && index < 2 && |slot| == SLOT_SIZE && k <= SLOT_SIZE
    ensures SlotAt(Torn(file, index, slot, k), index) == Splice(SlotAt(file, index), slot, k)
    ensures SlotAt(Torn(file, index, slot, k), 1 - index) == SlotAt(file, 1 - index)
  {
  }

  /** What a torn write leaves collides in its digest with neither of the two slots it is made of. */
  ghost predicate NoCollision<J>(codec: Codec<J>, before: Bytes, after: Bytes)
    requires |before| == |after| == SLOT_SIZE
  {
    forall k | 0 <= k <= SLOT_SIZE ::
      var t := Splice(before, after, k);
      WellHeaded(t) ==> Apart(codec, t, before) && Apart(codec, t, after)
  }

  predicate Apart<J>(codec: Codec<J>, t: Bytes, slot: Bytes)
    requires WellHeaded(t)
  {
    WellHeaded(slot) && codec.digest(Content(t)) == codec.digest(Content(slot)) ==> Content(t) == Content(slot)
  }

  /**
   * The two accidents that no digest over the contents excludes. A write torn inside the digest
   * field leaves the new header over the old payload, whose digest is not a mixture of the two
   * stored ones; and a header torn over an empty slot has no digest of zeros.
   */
  ghost predicate NoAccident<J>(codec: Codec<J>, before: Bytes, after: Bytes)
    requires |before| == |after| == SLOT_SIZE
  {
    && (WellHeaded(after) ==>
          var mixed := after[..DIGEST_AT] + before[PAYLOAD_AT..PAYLOAD_AT + LengthOf(after)];
          forall k | DIGEST_AT < k < PAYLOAD_AT ::
            codec.digest(mixed) == after[DIGEST_AT..k] + before[k..PAYLOAD_AT] ==>
              mixed == Content(after) || (WellHeaded(before) && mixed == Content(before)))
    && (before == Zeros(SLOT_SIZE) ==>
          forall k | 0 <= k <= DIGEST_AT ::
            var t := Splice(before, after, k);
            WellHeaded(t) ==> codec.digest(Content(t)) != Zeros(DIGEST_SIZE))
  }

  /** A torn slot whose digest fits has the very content of one of the two slots it is made of. */
  ghost predicate Unforgeable<J>(codec: Codec<J>, before: Bytes, after: Bytes, k: nat)
    requires |before| == |after| == SLOT_SIZE && k <= SLOT_SIZE
  {
    var t := Splice(before, after, k);
    WellHeaded(t) && Authentic(codec, t) ==>
      (WellHeaded(after) && Content(t) == Content(after)) || (WellHeaded(before) && Content(t) == Content(before))
  }

  /** A slot that a write may replace: one written before, or the empty one. */
  predicate Replaceable<J>(codec: Codec<J>, before: Bytes) {
    before == Zeros(SLOT_SIZE) || (WellHeaded(before) && Authentic(codec, before))
  }

  lemma ReplaceableFacts<J>(codec: Codec<J>, before: Bytes)
    requires Replaceable(codec, before)
    ensures WellHeaded(before) ==> Authentic(codec, before)
  {
    assert Zeros(SLOT_SIZE)[..FORMAT_AT][0] == 0;
  }

  /** Torn in the header, a slot keeps the old digest field. */
  lemma TornHeader<J>(codec: Codec<J>, before: Bytes, after: Bytes, k: nat)
    requires |before| == |after| == SLOT_SIZE && WellHeaded(after) && k <= DIGEST_AT && Replaceable(codec, before)
    requires NoCollision(codec, before, after) && NoAccident(codec, before, after)
    ensures Unforgeable(codec, before, after, k)
  {
    var t := Splice(before, after, k);
    assert t[DIGEST_AT..PAYLOAD_AT] == before[DIGEST_AT..PAYLOAD_AT];
    assert before == Zeros(SLOT_SIZE) ==> before[DIGEST_AT..PAYLOAD_AT] == Zeros(DIGEST_SIZE);
    hide Splice, WellHeaded, Content;
    assert WellHeaded(t) ==> Apart(codec, t, before);
  }

  /** Torn in the payload, a slot has the new header and digest field. */
  lemma TornPayload<J>(codec: Codec<J>, before: Bytes, after: Bytes, k: nat)
    requires |before| == |after| == SLOT_SIZE && WellHeaded(after) && PAYLOAD_AT <= k <= SLOT_SIZE
    requires Authentic(codec, after) && NoCollision(codec, before, after)
    ensures Unforgeable(codec, before, after, k)
  {
    var t := Splice(before, after, k);
    assert t[DIGEST_AT..PAYLOAD_AT] == after[DIGEST_AT..PAYLOAD_AT];
    hide Splice, WellHeaded, Content;
    assert WellHeaded(t) ==> Apart(codec, t, after);
  }

  /** Torn in the digest field, a slot has the new header over the old payload. */
  lemma TornDigest<J>(codec: Codec<J>, before: Bytes, after: Bytes, k: nat)
    requires |before| == |after| == SLOT_SIZE && WellHeaded(after) && DIGEST_AT < k < PAYLOAD_AT
    requires NoAccident(codec, before, after)
    ensures Unforgeable(codec, before, after, k)
  {
    var t := Splice(before, after, k);
    hide FromBigEndian;
    assert t[..DIGEST_AT] == after[..DIGEST_AT];
    assert t[LENGTH_AT..DIGEST_AT] == t[..DIGEST_AT][LENGTH_AT..] == after[LENGTH_AT..DIGEST_AT];
    assert LengthOf(t) == LengthOf(after);
    var n := LengthOf(after);
    assert t[PAYLOAD_AT..PAYLOAD_AT + n] == before[PAYLOAD_AT..PAYLOAD_AT + n];
    assert t[DIGEST_AT..PAYLOAD_AT] == after[DIGEST_AT..k] + before[k..PAYLOAD_AT];
    if WellHeaded(t) {
      assert Content(t) == after[..DIGEST_AT] + before[PAYLOAD_AT..PAYLOAD_AT + n];
    }
  }

  lemma TearsUnforgeable<J>(codec: Codec<J>, before: Bytes, after: Bytes, k: nat)
    requires |before| == |after| == SLOT_SIZE && k <= SLOT_SIZE && Replaceable(codec, before)
    requires WellHeaded(after) && Authentic(codec, after)
    requires NoCollision(codec, before, after) && NoAccident(codec, before, after)
    ensures Unforgeable(codec, before, after, k)
  {
    hide *;
    if k <= DIGEST_AT {
      TornHeader(codec, before, after, k);
    } else if k < PAYLOAD_AT {
      TornDigest(codec, before, after, k);
    } else {
      TornPayload(codec, before, after, k);
    }
  }

  lemma SameContent(a: Bytes, b: Bytes)
    requires WellHeaded(a) && WellHeaded(b) && Content(a) == Content(b)
    ensures GenerationOf(a) == GenerationOf(b) && Payload(a) == Payload(b)
  {
    hide FromBigEndian;
    assert a[..DIGEST_AT] == Content(a)[..DIGEST_AT] && b[..DIGEST_AT] == Content(b)[..DIGEST_AT];
    assert a[GENERATION_AT..LENGTH_AT] == a[..DIGEST_AT][GENERATION_AT..LENGTH_AT];
    assert b[GENERATION_AT..LENGTH_AT] == b[..DIGEST_AT][GENERATION_AT..LENGTH_AT];
    assert Payload(a) == Content(a)[DIGEST_AT..] && Payload(b) == Content(b)[DIGEST_AT..];
  }

  /** A torn slot decodes to the record it replaces, to the new one, or not at all. */
  lemma SpliceDecodes<J>(codec: Codec<J>, before: Bytes, after: Bytes, k: nat)
    requires |before| == |after| == SLOT_SIZE && k <= SLOT_SIZE && Unforgeable(codec, before, after, k)
    requires WellHeaded(after) && Authentic(codec, after) && Replaceable(codec, before)
    ensures var d := DecodeSlot(codec, Splice(before, after, k));
            d.None? || d == DecodeSlot(codec, before) || d == DecodeSlot(codec, after)
  {
    ReplaceableFacts(codec, before);
    hide WellHeaded, Authentic, Content, Payload, GenerationOf, Splice, Replaceable;
    var t := Splice(before, after, k);
    if WellHeaded(t) && Authentic(codec, t) {
      if WellHeaded(after) && Content(t) == Content(after) {
        SameContent(t, after);
      } else {
        SameContent(t, before);
      }
    }
  }

  lemma SlotsApart(g: nat)
    requires g > 0
    ensures g % 2 == 1 - (g - 1) % 2 && (g + 1 - 1) % 2 == g % 2 && (g + 1) % 2 == (g - 1) % 2
  {
  }

  /** What the slot that a next write will replace holds. */
  lemma ReplacedSlot<J(!new)>(codec: Codec<J>, file: Bytes, g: nat, j: J)
    requires Faithful(codec) && Kept(codec, file, g, j)
    ensures var before := SlotAt(file, g % 2);
            && Replaceable(codec, before)
            && (DecodeSlot(codec, before).None? ||
                exists p :: codec.transition(p, j) && DecodeSlot(codec, before) == Some(Record(g - 1, p)))
  {
    ZerosDoNotDecode(codec);
    assert Zeros(SLOT_SIZE)[..FORMAT_AT][0] == 0;
    if g > 1 {
      var p :| Precedes(codec, file, g, p, j);
      SlotRoundTrip(codec, p, g - 1);
      SlotFields(codec, p, g - 1);
      hide DecodeSlot, SlotBytes, SlotAt, WellHeaded, Authentic;
    }
  }

  lemma SlotLength<J(!new)>(codec: Codec<J>, j: J, g: nat)
    requires Faithful(codec) && Storable(codec, j)
    ensures |SlotBytes(codec, j, g)| == SLOT_SIZE
  {
  }

  /** The digest tells apart what a torn write of `next` after generation `g` can leave. */
  ghost predicate DigestHolds<J(!new)>(codec: Codec<J>, file: Bytes, g: nat, next: J)
    requires |file| == 2 * SLOT_SIZE && Faithful(codec) && Storable(codec, next)
  {
    SlotLength(codec, next, g + 1);
    var before, after := SlotAt(file, g % 2), SlotBytes(codec, next, g + 1);
    NoCollision(codec, before, after) && NoAccident(codec, before, after)
  }

  /** The file after a write of `next` after generation `g` that reached `k` bytes. */
  ghost function Written<J(!new)>(codec: Codec<J>, file: Bytes, g: nat, next: J, k: nat): (torn: Bytes)
    requires |file| == 2 * SLOT_SIZE && Faithful(codec) && Storable(codec, next) && k <= SLOT_SIZE
    ensures |torn| == 2 * SLOT_SIZE
  {
    SlotLength(codec, next, g + 1);
    Torn(file, g % 2, SlotBytes(codec, next, g + 1), k)
  }

  /**
   * However far the write of a next record reaches, the file decodes to exactly the record it
   * held or exactly the next one; a complete write leaves the next one, ready for more.
   */
  lemma TornWriteIsAtomic<J(!new)>(codec: Codec<J>, file: Bytes, g: nat, j: J, next: J, k: nat)
    requires Faithful(codec) && Kept(codec, file, g, j) && g < MAX_GENERATION && k <= SLOT_SIZE
    requires Storable(codec, next) && codec.transition(j, next) && DigestHolds(codec, file, g, next)
    ensures var r := DecodeFile(codec, Written(codec, file, g, next, k));
            r == Some(Record(g, j)) || r == Some(Record(g + 1, next))
    ensures k == 0 ==> Written(codec, file, g, next, k) == file
    ensures k == SLOT_SIZE ==> Kept(codec, Written(codec, file, g, next, k), g + 1, next)
  {
    SlotLength(codec, next, g + 1);
    var before, after := SlotAt(file, g % 2), SlotBytes(codec, next, g + 1);
    KeptDecodes(codec, file, g, j);
    ReplacedSlot(codec, file, g, j);
    SlotFields(codec, next, g + 1);
    SlotRoundTrip(codec, next, g + 1);
    TearsUnforgeable(codec, before, after, k);
    SpliceDecodes(codec, before, after, k);
    TornSlots(file, g % 2, after, k);
    SlotsApart(g);
    WholeSplice(before, after);
    if k == SLOT_SIZE {
      CompleteWrite(codec, file, g, j, next);
    }
    if k == 0 {
      NothingWritten(file, g % 2, after);
    }
    hide DecodeSlot, SlotBytes, SlotAt, WellHeaded, Authentic, Kept, Torn, Splice, DecodeFile, Unforgeable,
         NoCollision, NoAccident, Replaceable;
    BesideDecodes(codec, Torn(file, g % 2, after, k), g, j);
  }

  lemma WholeSplice(before: Bytes, after: Bytes)
    requires |before| == |after| == SLOT_SIZE
    ensures Splice(before, after, SLOT_SIZE) == after && Splice(before, after, 0) == before
  {
  }

  lemma NothingWritten(file: Bytes, index: nat, slot: Bytes)
    requires |file| == 2 * SLOT_SIZE && index < 2 && |slot| == SLOT_SIZE
    ensures Torn(file, index, slot, 0) == file
  {
  }

  lemma CompleteWrite<J(!new)>(codec: Codec<J>, file: Bytes, g: nat, j: J, next: J)
    requires Kept(codec, file, g, j) && g < MAX_GENERATION && Storable(codec, next) && codec.transition(j, next)
    requires |SlotBytes(codec, next, g + 1)| == SLOT_SIZE
    ensures Kept(codec, Torn(file, g % 2, SlotBytes(codec, next, g + 1), SLOT_SIZE), g + 1, next)
  {
    var after := SlotBytes(codec, next, g + 1);
    var file' := Torn(file, g % 2, after, SLOT_SIZE);
    TornSlots(file, g % 2, after, SLOT_SIZE);
    WholeSplice(SlotAt(file, g % 2), after);
    SlotsApart(g);
    hide Torn, Splice, SlotAt, SlotBytes, Zeros;
    assert Precedes(codec, file', g + 1, j, next);
  }

  // ---------------------------------------------------------------- runs

  /** The file after a run of journals, the first of them the prepared one. */
  ghost function FileAfter<J(!new)>(codec: Codec<J>, js: seq<J>): (file: Bytes)
    requires js != [] && Faithful(codec) && forall j | j in js :: Storable(codec, j)
    ensures |file| == 2 * SLOT_SIZE
  {
    var n := |js|;
    SlotLength(codec, js[n - 1], n);
    if n == 1 then SlotBytes(codec, js[0], 1) + Zeros(SLOT_SIZE)
    else Torn(FileAfter(codec, js[..n - 1]), (n - 1) % 2, SlotBytes(codec, js[n - 1], n), SLOT_SIZE)
  }

  /** After any run of valid transitions generation n sits in its slot beside generation n - 1. */
  lemma {:induction false} RunIsKept<J(!new)>(codec: Codec<J>, js: seq<J>)
    requires js != [] && |js| <= MAX_GENERATION && Faithful(codec) && forall j | j in js :: Storable(codec, j)
    requires forall i | 0 <= i < |js| - 1 :: codec.transition(js[i], js[i + 1])
    ensures Kept(codec, FileAfter(codec, js), |js|, js[|js| - 1])
  {
    var n := |js|;
    SlotLength(codec, js[n - 1], n);
    if n > 1 {
      var before := js[..n - 1];
      assert before[n - 2] == js[n - 2] && codec.transition(js[n - 2], js[n - 2 + 1]);
      forall i | 0 <= i < |before| - 1
        ensures codec.transition(before[i], before[i + 1])
      {
        assert codec.transition(js[i], js[i + 1]);
      }
      RunIsKept(codec, before);
      hide SlotBytes, Torn, Kept;
      CompleteWrite(codec, FileAfter(codec, before), n - 1, js[n - 2], js[n - 1]);
    }
  }

  /** The journal of an install survives a write torn anywhere, after any run of transitions. */
  lemma TornRunIsAtomic<J(!new)>(codec: Codec<J>, js: seq<J>, next: J, k: nat)
    requires js != [] && |js| < MAX_GENERATION && Faithful(codec) && forall j | j in js :: Storable(codec, j)
    requires forall i | 0 <= i < |js| - 1 :: codec.transition(js[i], js[i + 1])
    requires Storable(codec, next) && codec.transition(js[|js| - 1], next) && k <= SLOT_SIZE
    requires DigestHolds(codec, FileAfter(codec, js), |js|, next)
    ensures var r := DecodeFile(codec, Written(codec, FileAfter(codec, js), |js|, next, k));
            r == Some(Record(|js|, js[|js| - 1])) || r == Some(Record(|js| + 1, next))
  {
    RunIsKept(codec, js);
    TornWriteIsAtomic(codec, FileAfter(codec, js), |js|, js[|js| - 1], next, k);
  }

  // ---------------------------------------------------------------- the codec over buffers

  method CopyInto(buffer: array<byte>, at: nat, source: Bytes)
    requires at + |source| <= buffer.Length
    modifies buffer
    ensures buffer[..] == old(buffer[..at]) + source + old(buffer[at + |source|..])
  {
    for i := 0 to |source|
      invariant buffer[..] == old(buffer[..at]) + source[..i] + old(buffer[at + i..])
    {
      buffer[at + i] := source[i];
    }
  }

  lemma Overwrites(all: Bytes, written: Bytes, source: Bytes)
    requires |written| + |source| <= |all| && all == written + Zeros(|all| - |written|)
    ensures all[..|written|] + source + all[|written| + |source|..] ==
            written + source + Zeros(|all| - |written| - |source|)
  {
  }

  /** Copies the next field into a buffer whose rest is still zero. */
  method Append(buffer: array<byte>, ghost written: Bytes, offset: nat, source: Bytes) returns (next: nat)
    requires offset == |written| && offset + |source| <= buffer.Length
    requires buffer[..] == written + Zeros(buffer.Length - |written|)
    modifies buffer
    ensures next == |written + source|
    ensures buffer[..] == (written + source) + Zeros(buffer.Length - |written + source|)
  {
    Overwrites(buffer[..], written, source);
    assert buffer[..][..offset] == buffer[..offset];
    assert buffer[..][offset + |source|..] == buffer[offset + |source|..];
    CopyInto(buffer, offset, source);
    next := offset + |source|;
  }

  /** Fills a zeroed buffer field by field. */
  method EncodeSlot<J>(codec: Codec<J>, j: J, generation: nat) returns (slot: Option<Bytes>)
    requires forall s :: |codec.digest(s)| == DIGEST_SIZE
    ensures slot == if generation == 0 || !Fits(codec, j) then None else Some(SlotBytes(codec, j, generation))
  {
    if generation == 0 {
      return None;
    }
    var payload := codec.encode(j);
    if |payload| == 0 || |payload| > SLOT_SIZE - PAYLOAD_AT {
      return None;
    }
    hide SLOT_MAGIC, BigEndian, Power;
    MagicSize();
    var buffer := new byte[SLOT_SIZE](_ => 0);
    ghost var written: Bytes := [];
    assert buffer[..] == written + Zeros(SLOT_SIZE);
    var offset := Append(buffer, written, 0, SLOT_MAGIC);
    written := written + SLOT_MAGIC;
    offset := Append(buffer, written, offset, BigEndian(SLOT_FORMAT, 4));
    written := written + BigEndian(SLOT_FORMAT, 4);
    offset := Append(buffer, written, offset, BigEndian(generation, 8));
    written := written + BigEndian(generation, 8);
    offset := Append(buffer, written, offset, BigEndian(|payload|, 4));
    written := written + BigEndian(|payload|, 4);
    assert written == Header(generation, |payload|);
    assert buffer[..offset] == buffer[..][..offset];
    assert buffer[..offset] == written;
    var digest := codec.digest(buffer[..offset] + payload);
    offset := Append(buffer, written, offset, digest);
    written := written + digest;
    offset := Append(buffer, written, offset, payload);
    slot := Some(buffer[..]);
  }

  lemma MagicSize()
    ensures |SLOT_MAGIC| == FORMAT_AT
  {
  }

  function Found<J>(r: Option<Record<J>>): seq<Record<J>> { if r.None? then [] else [r.value] }

  /** Decodes the slots in turn and takes the newer of what it finds. */
  method DecodeRecord<J>(codec: Codec<J>, content: Bytes) returns (r: Option<Record<J>>)
    ensures r == DecodeFile(codec, content)
  {
    hide DecodeSlot;
    if |content| != 2 * SLOT_SIZE {
      return None;
    }
    var records: seq<Record<J>> := [];
    for slotIndex := 0 to 2
      invariant records == (if slotIndex > 0 then Found(DecodeSlot(codec, SlotAt(content, 0))) else []) +
                           (if slotIndex > 1 then Found(DecodeSlot(codec, SlotAt(content, 1))) else [])
    {
      var start := slotIndex * SLOT_SIZE;
      assert content[start..start + SLOT_SIZE] == SlotAt(content, slotIndex);
      var record := DecodeSlot(codec, content[start..start + SLOT_SIZE]);
      if record.Some? {
        records := records + [record.value];
      }
    }
    if |records| == 0 {
      return None;
    }
    if |records| == 1 {
      return Some(records[0]);
    }
    var first, second := records[0], records[1];
    if first.generation > second.generation {
      first, second := second, first;
    }
    if second.generation != first.generation + 1 || !codec.transition(first.journal, second.journal) {
      return None;
    }
    r := Some(second);
  }
}
