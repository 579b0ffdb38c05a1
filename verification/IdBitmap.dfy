/** The 128-bit identifier allocator of lib/vi53xx_xdma.c, packed into 16 bytes. */
module IdBitmap {
  import opened Bits
  import opened Counting

  const MAX_DEV_HANDLE: nat := 128
  const BITMAP_SIZE: nat := 16

  /** The identifiers whose bit is set. */
  function Ids(bytes: seq<Byte>): set<int>
    requires |bytes| == BITMAP_SIZE
  {
    set i: int | 0 <= i < MAX_DEV_HANDLE && Bit(bytes[i / 8], i % 8)
  }

  /** The least number from `from` on that is not in `ids`; 128 when there is none below 128. */
  function LeastAbsent(ids: set<int>, from: nat): (n: nat)
    requires from <= MAX_DEV_HANDLE
    ensures from <= n <= MAX_DEV_HANDLE
    ensures n < MAX_DEV_HANDLE ==> n !in ids
    ensures forall i | from <= i < n :: i in ids
    decreases MAX_DEV_HANDLE - from
  {
    if from == MAX_DEV_HANDLE || from !in ids then from else LeastAbsent(ids, from + 1)
  }

  /** `bytes[id / 8] |= 1 << id % 8` */
  function SetId(bytes: seq<Byte>, id: nat): (r: seq<Byte>)
    requires |bytes| == BITMAP_SIZE && id < MAX_DEV_HANDLE
    ensures |r| == BITMAP_SIZE
  {
    ByteOps(bytes[id / 8], id % 8);
    bytes[id / 8 := Or(bytes[id / 8], Pow2(id % 8))]
  }

  /** `bytes[id / 8] &= ~(1 << id % 8)`, which destroy_id does for an id in range only. */
  function FreeId(bytes: seq<Byte>, id: int): (r: seq<Byte>)
    requires |bytes| == BITMAP_SIZE
    ensures |r| == BITMAP_SIZE
  {
    if 0 <= id < MAX_DEV_HANDLE then
      ByteOps(bytes[id / 8], id % 8);
      bytes[id / 8 := AndNot(bytes[id / 8], Pow2(id % 8))]
    else bytes
  }

  /** What get_unique_id does: the new bytes and the id, 0 when all 128 are taken. */
  function TakeId(bytes: seq<Byte>): (r: (seq<Byte>, int))
    requires |bytes| == BITMAP_SIZE
    ensures |r.0| == BITMAP_SIZE
  {
    var id := LeastAbsent(Ids(bytes), 0);
    if id < MAX_DEV_HANDLE then (SetId(bytes, id), id) else (bytes, 0)
  }

  lemma ByteOps(b: Byte, k: nat)
    requires k < 8
    ensures 0 <= Or(b, Pow2(k)) < 256 && 0 <= AndNot(b, Pow2(k)) < 256
  {
    assert Pow2(8) == 256 by { assert Pow2(4) == 16; }
    Pow2Monotone(k, 7);
    OrBound(b, Pow2(k), 8);
    AndNotBound(b, Pow2(k));
  }

  /** Setting a bit adds exactly that identifier. */
  lemma SetIdAdds(bytes: seq<Byte>, id: nat)
    requires |bytes| == BITMAP_SIZE && id < MAX_DEV_HANDLE
    ensures Ids(SetId(bytes, id)) == Ids(bytes) + {id}
  {
    var after := SetId(bytes, id);
    forall i: int | 0 <= i < MAX_DEV_HANDLE
      ensures Bit(after[i / 8], i % 8) == (Bit(bytes[i / 8], i % 8) || i == id)
    {
      if i / 8 == id / 8 {
        BitOfOr(bytes[i / 8], Pow2(id % 8), i % 8);
        BitOfPow2(id % 8, i % 8);
      }
    }
  }

  /** Freeing clears exactly that identifier, in range or not. */
  lemma FreeIdRemoves(bytes: seq<Byte>, id: int)
    requires |bytes| == BITMAP_SIZE
    ensures Ids(FreeId(bytes, id)) == Ids(bytes) - {id}
  {
    var after := FreeId(bytes, id);
    forall i: int | 0 <= i < MAX_DEV_HANDLE
      ensures Bit(after[i / 8], i % 8) == (Bit(bytes[i / 8], i % 8) && i != id)
    {
      if 0 <= id < MAX_DEV_HANDLE && i / 8 == id / 8 {
        BitOfAndNot(bytes[i / 8], Pow2(id % 8), i % 8);
        BitOfPow2(id % 8, i % 8);
      }
    }
  }

  /** The 16 bytes hold nothing but the set: equal sets, equal bytes. */
  lemma IdsDetermineBytes(a: seq<Byte>, b: seq<Byte>)
    requires |a| == BITMAP_SIZE && |b| == BITMAP_SIZE
    requires Ids(a) == Ids(b)
    ensures a == b
  {
    assert Pow2(8) == 256 by { assert Pow2(4) == 16; }
    forall n | 0 <= n < BITMAP_SIZE
      ensures a[n] == b[n]
    {
      forall k | 0 <= k < 8
        ensures Bit(a[n], k) == Bit(b[n], k)
      {
        var i := 8 * n + k;
        assert i / 8 == n && i % 8 == k;
        assert i in Ids(a) <==> i in Ids(b);
      }
      SameBits(a[n], b[n], 8);
    }
  }

  /** Allocation adds the least absent id; with none absent it returns 0 and changes nothing. */
  lemma TakeIdRefines(bytes: seq<Byte>)
    requires |bytes| == BITMAP_SIZE
    ensures var (after, id) := TakeId(bytes);
            if Ids(bytes) == Below(128) then after == bytes && id == 0
            else 0 <= id < 128 && id !in Ids(bytes)
                 && (forall j | 0 <= j < id :: j in Ids(bytes))
                 && Ids(after) == Ids(bytes) + {id}
  {
    var id := LeastAbsent(Ids(bytes), 0);
    if id < MAX_DEV_HANDLE {
      SetIdAdds(bytes, id);
      assert id in Below(MAX_DEV_HANDLE);
    } else {
      assert Ids(bytes) == Below(MAX_DEV_HANDLE);
    }
  }

  /** Which byte an allocation changes, and by how much: id n is bit n % 8 of byte n / 8. */
  lemma TakenBit(bytes: seq<Byte>, n: nat)
    requires |bytes| == BITMAP_SIZE && Ids(bytes) != Below(128) && n < 16
    ensures var (after, id) := TakeId(bytes);
            0 <= id && after[n] as int == bytes[n] + (if n == id / 8 then Pow2(id % 8) else 0)
  {
    TakeIdRefines(bytes);
    var id := TakeId(bytes).1;
    OrClear(bytes[id / 8], id % 8);
  }

  lemma {:induction false} OrClear(b: nat, k: nat)
    requires !Bit(b, k)
    ensures Or(b, Pow2(k)) == b + Pow2(k)
  {
    hide Or;
    OrStep(b, Pow2(k));
    if k > 0 {
      OrClear(b / 2, k - 1);
    } else {
      OrZero(b / 2);
    }
  }

  /** Freeing what was just allocated restores all 16 bytes. */
  lemma FreeUndoesTake(bytes: seq<Byte>)
    requires |bytes| == BITMAP_SIZE && Ids(bytes) != Below(MAX_DEV_HANDLE)
    ensures var (after, id) := TakeId(bytes); FreeId(after, id) == bytes
  {
    var (after, id) := TakeId(bytes);
    TakeIdRefines(bytes);
    FreeIdRemoves(after, id);
    assert Ids(FreeId(after, id)) == Ids(bytes);
    IdsDetermineBytes(FreeId(after, id), bytes);
  }

  function NoIds(): (bytes: seq<Byte>)
    ensures |bytes| == BITMAP_SIZE
  {
    seq(BITMAP_SIZE, i => 0)
  }

  lemma NoIdsTaken()
    ensures Ids(NoIds()) == {}
  {
    forall k: nat {
      BitOfZero(k);
    }
  }

  class Bitmap {
    const bytes: array<Byte>

    ghost predicate Valid() {
      bytes.Length == BITMAP_SIZE
    }

    constructor ()
      ensures Valid() && fresh(bytes) && bytes[..] == NoIds()
    {
      bytes := new Byte[BITMAP_SIZE](_ => 0);
    }

    /** init_id_bitmap */
    method Clear()
      requires Valid()
      modifies bytes
      ensures bytes[..] == NoIds()
    {
      for i := 0 to BITMAP_SIZE
        invariant forall j | 0 <= j < i :: bytes[j] == 0
      {
        bytes[i] := 0;
      }
    }

    method GetUniqueId() returns (id: int)
      requires Valid()
      modifies bytes
      ensures (bytes[..], id) == TakeId(old(bytes[..]))
    {
      ghost var was := bytes[..];
      for i := 0 to MAX_DEV_HANDLE
        invariant bytes[..] == was
        invariant forall j | 0 <= j < i :: j in Ids(was)
      {
        var index, offset := i / 8, i % 8;
        AndPow2(bytes[index], offset);
        if And(bytes[index], Pow2(offset)) == 0 {
          assert i !in Ids(was) && LeastAbsent(Ids(was), 0) == i;
          ByteOps(bytes[index], offset);
          bytes[index] := Or(bytes[index], Pow2(offset));
          return i;
        }
      }
      return 0;
    }

    method DestroyId(id: int)
      requires Valid()
      modifies bytes
      ensures bytes[..] == FreeId(old(bytes[..]), id)
    {
      if id >= 0 && id < MAX_DEV_HANDLE {
        var index, offset := id / 8, id % 8;
        ByteOps(bytes[index], offset);
        bytes[index] := AndNot(bytes[index], Pow2(offset));
      }
    }
  }
}
