/**
 * The journal of an install on disk: what `Install.Transaction.WriteRecord` takes for granted of
 * a record is what the two-slot file gives it.
 */
module Durable {
  import opened Wrappers
  import opened ByteStrings
  import Journal
  import Install

  type Codec = Journal.Codec<Install.Journal>

  /** The codec stores install journals, and knows their transitions. */
  ghost predicate Stores(codec: Codec) {
    Journal.Faithful(codec) && forall a, b :: codec.transition(a, b) == Install.ValidTransition(a, b)
  }

  /** The journals one install wrote, in order. */
  ghost predicate History(codec: Codec, js: seq<Install.Journal>) {
    && js != [] && js[0] == Install.Journal(Install.Prepared, None)
    && (forall j | j in js :: Journal.Storable(codec, j))
    && forall i | 0 <= i < |js| - 1 :: Install.ValidTransition(js[i], js[i + 1])
  }

  function Rank(state: Install.PromotionState): nat {
    match state
    case Prepared => 0
    case Exchanged => 1
    case Created => 1
    case ParentSynced => 2
    case Reversed => 3
    case Finalized => 4
  }

  /** Transitions only go forward. */
  lemma {:induction false} Forward(codec: Codec, js: seq<Install.Journal>, i: nat)
    requires History(codec, js) && i < |js|
    ensures i <= Rank(js[i].state)
  {
    if i > 0 {
      Forward(codec, js, i - 1);
      assert Install.ValidTransition(js[i - 1], js[i - 1 + 1]);
    }
  }

  /** An install writes at most five generations. */
  lemma AtMostFive(codec: Codec, js: seq<Install.Journal>)
    requires History(codec, js)
    ensures |js| <= 5
  {
    Forward(codec, js, |js| - 1);
  }

  function AsRecord(r: Option<Journal.Record<Install.Journal>>): Option<Install.Record> {
    if r.None? then None else Some(Install.Record(r.value.generation, r.value.journal))
  }

  /** What is read back from the journal file. */
  function Read(codec: Codec, file: Bytes): Option<Install.Record> { AsRecord(Journal.DecodeFile(codec, file)) }

  /** The file holds the record that the install goes by. */
  ghost predicate Backs(codec: Codec, js: seq<Install.Journal>, d: Install.Disk)
    requires Stores(codec) && History(codec, js)
  {
    d.record == Read(codec, Journal.FileAfter(codec, js))
  }

  /** The file of an install reads back as its last journal, at the generation that counts them. */
  lemma HistoryReads(codec: Codec, js: seq<Install.Journal>)
    requires Stores(codec) && History(codec, js)
    ensures Read(codec, Journal.FileAfter(codec, js)) == Some(Install.Record(|js|, js[|js| - 1]))
  {
    AtMostFive(codec, js);
    Journal.RunIsKept(codec, js);
    Journal.KeptDecodes(codec, Journal.FileAfter(codec, js), |js|, js[|js| - 1]);
  }

  /**
   * Wherever a journal write is torn, the file reads back as the record before it or as exactly
   * the next one: the step that an install takes when it writes its record.
   */
  lemma TornWriteIsAStep(codec: Codec, js: seq<Install.Journal>, d: Install.Disk, next: Install.Journal, k: nat)
    requires Stores(codec) && History(codec, js) && Backs(codec, js, d)
    requires Journal.Storable(codec, next) && Install.ValidTransition(js[|js| - 1], next) && k <= Journal.SLOT_SIZE
    requires Journal.DigestHolds(codec, Journal.FileAfter(codec, js), |js|, next)
    ensures var torn := Journal.Written(codec, Journal.FileAfter(codec, js), |js|, next, k);
            && Read(codec, torn).Some?
            && Install.Recorded(d, d.(record := Read(codec, torn)), Install.Record(|js| + 1, next))
    ensures History(codec, js + [next])
    ensures Read(codec, Journal.FileAfter(codec, js + [next])) == Some(Install.Record(|js| + 1, next))
  {
    AtMostFive(codec, js);
    HistoryReads(codec, js);
    Journal.TornRunIsAtomic(codec, js, next, k);
    var longer := js + [next];
    forall i | 0 <= i < |longer| - 1
      ensures Install.ValidTransition(longer[i], longer[i + 1])
    {
      if i < |js| - 1 {
        assert Install.ValidTransition(js[i], js[i + 1]);
      }
    }
    HistoryReads(codec, longer);
  }
}
