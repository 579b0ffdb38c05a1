/** What a driver holds against what the kernel has given out: every held pointer is a live block,
    each live block that was not there before is held once. */
module Ledgers {
  /** A pointer that is held, with the block it should be. */
  datatype Hold<+P, +B> = Hold(ptr: P, block: B)

  /** The live blocks are those that were there before and, on top, one for each held pointer, as it
      is held. */
  ghost predicate Owned<K, P, B>(held: map<K, Hold<P, B>>, live: map<P, B>, before: map<P, B>) {
    && (forall k | k in held :: held[k].ptr in live && held[k].ptr !in before && live[held[k].ptr] == held[k].block)
    && (forall k, l | k in held && l in held && held[k].ptr == held[l].ptr :: k == l)
    && (forall p | p in before :: p in live && live[p] == before[p])
    && (forall p | p in live && p !in before :: exists k :: k in held && held[k].ptr == p)
  }

  lemma PutHold<K, P, B>(held: map<K, Hold<P, B>>, live: map<P, B>, before: map<P, B>, k: K, h: Hold<P, B>)
    requires Owned(held, live, before) && k !in held && h.ptr !in live
    ensures Owned(held[k := h], live[h.ptr := h.block], before)
  {
    var after := held[k := h];
    assert after[k].ptr == h.ptr;
    forall p | p in live && p !in before
      ensures exists l :: l in after && after[l].ptr == p
    {
      var l :| l in held && held[l].ptr == p;
      assert after[l].ptr == p;
    }
  }

  lemma DropHold<K, P, B>(held: map<K, Hold<P, B>>, live: map<P, B>, before: map<P, B>, k: K)
    requires Owned(held, live, before) && k in held
    ensures Owned(held - {k}, live - {held[k].ptr}, before)
  {
    var after := held - {k};
    forall p | p in live && p !in before && p != held[k].ptr
      ensures exists l :: l in after && after[l].ptr == p
    {
      var l :| l in held && held[l].ptr == p;
      assert after[l].ptr == p;
    }
  }

  lemma PutSize<K, H>(held: map<K, H>, k: K, h: H)
    requires k !in held
    ensures |held[k := h]| == |held| + 1
  {
    var after := held[k := h];
    assert after.Keys == held.Keys + {k} && |after| == |after.Keys| && |held| == |held.Keys|;
  }

  lemma DropSize<K, H>(held: map<K, H>, k: K)
    requires k in held
    ensures |held - {k}| == |held| - 1
  {
    var after := held - {k};
    assert after.Keys == held.Keys - {k} && |after| == |after.Keys| && |held| == |held.Keys|;
  }

  /** A held pointer may be freed as what it is held. */
  lemma HeldIsLive<K, P, B>(held: map<K, Hold<P, B>>, live: map<P, B>, before: map<P, B>, k: K)
    requires Owned(held, live, before) && k in held
    ensures held[k].ptr in live && live[held[k].ptr] == held[k].block
  {
  }

  lemma NothingYet<K, P, B>(held: map<K, Hold<P, B>>, live: map<P, B>)
    requires held == map[]
    ensures Owned(held, live, live)
  {
  }

  lemma NothingHeld<K, P, B>(held: map<K, Hold<P, B>>, live: map<P, B>, before: map<P, B>)
    requires Owned(held, live, before) && held.Keys == {}
    ensures live == before
  {
  }
}
