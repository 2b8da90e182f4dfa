/** Blob addresses and what the stores compute from a set of them. */
module BlobKeys {
  import opened Base

  datatype BlobKey = BlobKey(pseudonym: string, device: string, generation: int, seqNo: int)
  {
    /** The log, a (pseudonym, device, generation) triple, that an entry belongs to. */
    predicate SameLog(other: BlobKey) {
      pseudonym == other.pseudonym && device == other.device && generation == other.generation
    }

    predicate OfDevice(p: string, d: string) {
      pseudonym == p && device == d
    }

    function At(n: int): BlobKey {
      this.(seqNo := n)
    }
  }

  /** How many generations survive pruning. */
  const RETAINED_GENERATIONS := 2

  /** MAX(seq) over the entries of k's log, 0 when there are none. */
  function HeadSeq(keys: set<BlobKey>, k: BlobKey): (head: int)
    ensures head != 0 ==> k.At(head) in keys
    ensures forall r :: r in keys && r.SameLog(k) ==> k.At(head) in keys
    ensures forall r :: r in keys && r.SameLog(k) ==> r.seqNo <= head
  {
    var seqs := set r | r in keys && r.SameLog(k) :: r.seqNo;
    if seqs == {} then
      assert forall r :: r in keys && r.SameLog(k) ==> r.seqNo in seqs;
      0
    else
      var m := MaxOf(seqs);
      assert forall r :: r in keys && r.SameLog(k) ==> r.seqNo in seqs;
      assert k.At(m) in keys by {
        var r :| r in keys && r.SameLog(k) && r.seqNo == m;
        assert r == k.At(m);
      }
      m
  }

  /** MAX(generation) over the entries of a device; None stands for SQL NULL. */
  function Newest(keys: set<BlobKey>, pseudonym: string, device: string): (newest: Option<int>)
    ensures newest.None? ==> forall r :: r in keys ==> !r.OfDevice(pseudonym, device)
    ensures newest.Some? ==>
              && (exists r :: r in keys && r.OfDevice(pseudonym, device) && r.generation == newest.value)
              && forall r :: r in keys && r.OfDevice(pseudonym, device) ==> r.generation <= newest.value
  {
    var gens := set r | r in keys && r.OfDevice(pseudonym, device) :: r.generation;
    assert forall r :: r in keys && r.OfDevice(pseudonym, device) ==> r.generation in gens;
    if gens == {} then None else Some(MaxOf(gens))
  }

  /** Every log holds the sequence numbers 1..n for some n. */
  ghost predicate Contiguous(keys: set<BlobKey>) {
    forall k {:trigger Linked(keys, k)} :: k in keys ==> Linked(keys, k)
  }

  /** The entry before k is there, unless k is a first entry. */
  ghost predicate Linked(keys: set<BlobKey>, k: BlobKey) {
    k.seqNo >= 1 && (k.seqNo > 1 ==> k.At(k.seqNo - 1) in keys)
  }

  lemma {:induction false} ContiguousBelow(keys: set<BlobKey>, k: BlobKey, i: int)
    requires Contiguous(keys) && k in keys && 1 <= i <= k.seqNo
    ensures k.At(i) in keys
    decreases k.seqNo
  {
    assert Linked(keys, k);
    if i < k.seqNo {
      ContiguousBelow(keys, k.At(k.seqNo - 1), i);
      assert k.At(k.seqNo - 1).At(i) == k.At(i);
    } else {
      assert k.At(i) == k;
    }
  }

  /** The sequence numbers in k's log are exactly 1..HeadSeq. */
  ghost predicate OneToHead(keys: set<BlobKey>, k: BlobKey) {
    forall i :: k.At(i) in keys <==> 1 <= i <= HeadSeq(keys, k)
  }

  /** In a contiguous log the head pins down the whole set of sequence numbers. */
  lemma HeadIsLength(keys: set<BlobKey>, k: BlobKey)
    requires Contiguous(keys)
    ensures HeadSeq(keys, k) >= 0
    ensures OneToHead(keys, k)
  {
    var head := HeadSeq(keys, k);
    forall i ensures k.At(i) in keys <==> 1 <= i <= head {
      if k.At(i) in keys {
        assert k.At(i).SameLog(k) && Linked(keys, k.At(i));
      }
      if 1 <= i <= head {
        ContiguousBelow(keys, k.At(head), i);
      }
    }
  }

  /** A free slot right after an existing entry, or slot 1, is exactly the slot after the head. */
  lemma NextSlot(keys: set<BlobKey>, k: BlobKey)
    requires Contiguous(keys)
    ensures k.seqNo == HeadSeq(keys, k) + 1 <==> k !in keys && Linked(keys, k)
  {
    HeadIsLength(keys, k);
    assert k == k.At(k.seqNo);
    assert k.seqNo - 1 >= 1 ==> (k.At(k.seqNo - 1) in keys <==> k.seqNo - 1 <= HeadSeq(keys, k));
  }

  /** What a delete removes: one generation of one device, or everything of one pseudonym. */
  datatype Scope =
    | Generation(pseudonym: string, device: string, generation: int)
    | Account(pseudonym: string)
  {
    predicate Covers(k: BlobKey) {
      match this
      case Generation(p, d, g) => k.pseudonym == p && k.device == d && k.generation == g
      case Account(p) => k.pseudonym == p
    }
  }

  /** The retention guard of a prune, on what its MAX(generation) query returned. */
  predicate GuardRefuses(newest: Option<int>, generation: int) {
    newest.Some? && generation > newest.value - RETAINED_GENERATIONS
  }

  /** The device has an entry, and none of a generation two or more above this one. */
  ghost predicate Retained(keys: set<BlobKey>, pseudonym: string, device: string, generation: int) {
    && (exists k :: k in keys && k.pseudonym == pseudonym && k.device == device)
    && (forall k :: k in keys && k.pseudonym == pseudonym && k.device == device ==> k.generation < generation + 2)
  }

  /** That is what the guard refuses. */
  lemma GuardRefusesExactly(keys: set<BlobKey>, pseudonym: string, device: string, generation: int)
    ensures GuardRefuses(Newest(keys, pseudonym, device), generation) <==> Retained(keys, pseudonym, device, generation)
  {
    var newest := Newest(keys, pseudonym, device);
    if newest.Some? {
      var top :| top in keys && top.OfDevice(pseudonym, device) && top.generation == newest.value;
      assert top in keys && top.pseudonym == pseudonym && top.device == device;
    }
  }

  predicate OfGeneration(k: BlobKey, pseudonym: string, device: string, generation: int) {
    k.pseudonym == pseudonym && k.device == device && k.generation == generation
  }
}
