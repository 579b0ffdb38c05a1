/** What the moves of an engine do to memory, and the round trip of a buffer list through the
    card: host to card with one plan, card to host with another. */
module Transfer {
  import opened Bits
  import opened Descriptors
  import opened Engine

  type Memory = int -> Byte

  predicate Covers(v: Move, x: int) {
    v.dst <= x < v.dst + v.len
  }

  /** The byte at x of the target memory after the first n moves, in order, out of an unchanging
      source memory. */
  function ByteAfter(moves: seq<Move>, n: nat, from: Memory, to: Memory, x: int): Byte
    requires n <= |moves|
  {
    if n == 0 then to(x)
    else if Covers(moves[n - 1], x) then from(moves[n - 1].src + (x - moves[n - 1].dst))
    else ByteAfter(moves, n - 1, from, to, x)
  }

  /** The target memory after all the moves. */
  function Copied(moves: seq<Move>, from: Memory, to: Memory): Memory {
    (x: int) => ByteAfter(moves, |moves|, from, to, x)
  }

  /** The last move that covers an address decides it. */
  lemma {:induction false} LastWriter(moves: seq<Move>, n: nat, from: Memory, to: Memory, x: int, i: nat)
    requires i < n <= |moves| && Covers(moves[i], x)
    requires forall j | i < j < n :: !Covers(moves[j], x)
    ensures ByteAfter(moves, n, from, to, x) == from(moves[i].src + (x - moves[i].dst))
  {
    if i < n - 1 {
      LastWriter(moves, n - 1, from, to, x, i);
    }
  }

  /** An address no move covers is unchanged. */
  lemma {:induction false} Untouched(moves: seq<Move>, n: nat, from: Memory, to: Memory, x: int)
    requires n <= |moves| && forall i | 0 <= i < n :: !Covers(moves[i], x)
    ensures ByteAfter(moves, n, from, to, x) == to(x)
  {
    if n > 0 {
      Untouched(moves, n - 1, from, to, x);
    }
  }

  ghost predicate DisjointTargets(moves: seq<Move>) {
    forall i, j, x | 0 <= i < |moves| && 0 <= j < |moves| && Covers(moves[i], x) && Covers(moves[j], x) :: i == j
  }

  /** With disjoint targets every move delivers its bytes. */
  lemma Delivered(moves: seq<Move>, from: Memory, to: Memory, i: nat, k: nat)
    requires DisjointTargets(moves) && i < |moves| && k < moves[i].len
    ensures ByteAfter(moves, |moves|, from, to, moves[i].dst + k) == from(moves[i].src + k)
  {
    hide ByteAfter;
    assert Covers(moves[i], moves[i].dst + k);
    LastWriter(moves, |moves|, from, to, moves[i].dst + k, i);
  }

  // ----- the windows on the card

  /** How much of buffer i its descriptor carries. */
  function Sent(p: Plan, i: nat): nat
    requires PlanOk(p) && i < |p.len|
  {
    p.len[i] % LENGTH_FIELD
  }

  /** The card addresses of buffers i and j have one in common. */
  predicate Overlap(p: Plan, i: nat, j: nat)
    requires PlanOk(p) && i < |p.len| && j < |p.len|
  {
    && Sent(p, i) > 0 && Sent(p, j) > 0
    && WindowAt(p.ep, i) < WindowAt(p.ep, j) + Sent(p, j)
    && WindowAt(p.ep, j) < WindowAt(p.ep, i) + Sent(p, i)
  }

  predicate Apart(p: Plan)
    requires PlanOk(p)
  {
    forall i, j | 0 <= i < j < |p.len| :: !Overlap(p, i, j)
  }

  /** Every buffer but the last fits its window, or its window is the one that ends at or beyond
      the 4 GiB where window addresses start again. */
  predicate WindowsFit(p: Plan)
    requires PlanOk(p)
  {
    forall i | 0 <= i < |p.len| - 1 :: Sent(p, i) <= WINDOW || WindowAt(p.ep, i) + WINDOW >= U32
  }

  /** Where window j lies from window i on, in 32-bit arithmetic. */
  lemma WindowDistance(ep: Word, i: nat, j: nat)
    requires i < j < MAX_DESC_NUM
    ensures WindowAt(ep, j) as int == WindowAt(ep, i) + (j - i) * WINDOW
            || WindowAt(ep, j) as int == WindowAt(ep, i) + (j - i) * WINDOW - U32
  {
  }

  /** Whatever the card address, wrap-around included: buffers that fit their windows keep apart on
      the card, and nonempty ones only then. The last buffer always fits. */
  lemma ApartExactly(p: Plan)
    requires PlanOk(p)
    ensures WindowsFit(p) ==> Apart(p)
    ensures Apart(p) && (forall i | 0 <= i < |p.len| :: Sent(p, i) > 0) ==> WindowsFit(p)
  {
    hide WindowAt, Sent;
    if WindowsFit(p) {
      forall i, j | 0 <= i < j < |p.len|
        ensures !Overlap(p, i, j)
      {
        WindowDistance(p.ep, i, j);
        SentBound(p, j);
      }
    }
    if Apart(p) && forall i | 0 <= i < |p.len| :: Sent(p, i) > 0 {
      forall i | 0 <= i < |p.len| - 1
        ensures Sent(p, i) <= WINDOW || WindowAt(p.ep, i) + WINDOW >= U32
      {
        WindowDistance(p.ep, i, i + 1);
        assert !Overlap(p, i, i + 1);
      }
    }
  }

  lemma SentBound(p: Plan, i: nat)
    requires PlanOk(p) && i < |p.len|
    ensures Sent(p, i) < LENGTH_FIELD && Sent(p, i) <= p.len[i]
  {
  }

  // ----- the round trip

  /** Host buffers that do not overlap. */
  ghost predicate DisjointBuffers(p: Plan)
    requires PlanOk(p)
  {
    forall i, j, x: int {:trigger InBuffer(p, i, x), InBuffer(p, j, x)}
      | 0 <= i < |p.len| && 0 <= j < |p.len| && InBuffer(p, i, x) && InBuffer(p, j, x) :: i == j
  }

  predicate InBuffer(p: Plan, i: int, x: int)
    requires PlanOk(p) && 0 <= i < |p.len|
  {
    p.phy[i] <= x < p.phy[i] + p.len[i]
  }

  /** Out and back: same lengths, same card address. */
  ghost predicate Matching(down: Plan, up: Plan) {
    && PlanOk(down) && PlanOk(up) && down.toCard && !up.toCard
    && down.len == up.len && down.ep == up.ep
  }

  /** The card's memory after the chain to the card. */
  function OnCard(down: Plan, host: Memory, card: Memory): Memory
    requires PlanOk(down)
  {
    Copied(Moves(down, |down.len|), host, card)
  }

  /** The byte at x of host memory after running both chains. */
  function OutAndBack(down: Plan, up: Plan, host: Memory, card: Memory, x: int): Byte
    requires PlanOk(down) && PlanOk(up)
  {
    Copied(Moves(up, |up.len|), OnCard(down, host, card), host)(x)
  }

  /** Byte k of buffer i came back. */
  predicate CameBack(down: Plan, up: Plan, host: Memory, card: Memory, i: nat, k: nat)
    requires PlanOk(down) && PlanOk(up) && |up.len| == |down.len| && i < |down.len|
  {
    OutAndBack(down, up, host, card, up.phy[i] + k) == host(down.phy[i] + k)
  }

  /** Every byte of every buffer came back. */
  ghost predicate Returned(down: Plan, up: Plan, host: Memory, card: Memory)
    requires Matching(down, up)
  {
    forall i, k: nat | 0 <= i < |down.len| && k < down.len[i] :: CameBack(down, up, host, card, i, k)
  }

  /** No buffer is longer than its descriptor can say, unless it is to come back in its own place. */
  predicate Carried(down: Plan, up: Plan)
    requires PlanOk(down) && PlanOk(up) && |up.len| == |down.len|
  {
    forall i | 0 <= i < |down.len| :: down.len[i] < LENGTH_FIELD || up.phy[i] == down.phy[i]
  }

  lemma DisjointMoves(down: Plan, up: Plan)
    requires Matching(down, up) && DisjointBuffers(up)
    ensures DisjointTargets(Moves(up, |up.len|))
    ensures Apart(down) ==> DisjointTargets(Moves(down, |down.len|))
  {
    hide WindowAt;
    var v, w := Moves(up, |up.len|), Moves(down, |down.len|);
    forall i, j, x | 0 <= i < |v| && 0 <= j < |v| && Covers(v[i], x) && Covers(v[j], x)
      ensures i == j
    {
      assert InBuffer(up, i, x) && InBuffer(up, j, x);
    }
    if Apart(down) {
      forall i, j, x | 0 <= i < |w| && 0 <= j < |w| && Covers(w[i], x) && Covers(w[j], x)
        ensures i == j
      {
        assert i < j ==> !Overlap(down, i, j);
        assert j < i ==> !Overlap(down, j, i);
      }
    }
  }

  /** One byte on its way back: it is what the card holds in its window. */
  lemma BackFromCard(down: Plan, up: Plan, host: Memory, card: Memory, i: nat, k: nat)
    requires Matching(down, up) && DisjointBuffers(up) && i < |down.len| && k < Sent(down, i)
    ensures OutAndBack(down, up, host, card, up.phy[i] + k) == OnCard(down, host, card)(WindowAt(down.ep, i) + k)
  {
    hide ByteAfter, WindowAt, OnCard;
    DisjointMoves(down, up);
    Delivered(Moves(up, |up.len|), OnCard(down, host, card), host, i, k);
  }

  /** What lies behind the part of a buffer that the descriptor carries stays as it was. */
  lemma BeyondField(down: Plan, up: Plan, host: Memory, card: Memory, i: nat, k: nat)
    requires Matching(down, up) && DisjointBuffers(up) && i < |down.len| && Sent(down, i) <= k < down.len[i]
    ensures OutAndBack(down, up, host, card, up.phy[i] + k) == host(up.phy[i] + k)
  {
    hide ByteAfter, WindowAt, OnCard;
    var v, x := Moves(up, |up.len|), up.phy[i] + k;
    assert InBuffer(up, i, x);
    forall j | 0 <= j < |v|
      ensures !Covers(v[j], x)
    {
      assert j != i ==> !InBuffer(up, j, x);
    }
    Untouched(v, |v|, OnCard(down, host, card), host, x);
  }

  /** Out and back gives every buffer back, whatever the memories held and wherever the windows lie,
      when the buffers keep apart on the card; host memory outside the receiving buffers is never touched. */
  lemma RoundTrip(down: Plan, up: Plan, host: Memory, card: Memory)
    requires Matching(down, up) && DisjointBuffers(up)
    ensures Apart(down) && Carried(down, up) ==> Returned(down, up, host, card)
    ensures forall x | (forall i | 0 <= i < |up.len| :: !InBuffer(up, i, x)) ::
              OutAndBack(down, up, host, card, x) == host(x)
  {
    hide ByteAfter, WindowAt;
    if Apart(down) && Carried(down, up) {
      forall i, k: nat | 0 <= i < |down.len| && k < down.len[i]
        ensures CameBack(down, up, host, card, i, k)
      {
        ByteReturns(down, up, host, card, i, k);
      }
    }
    forall x | forall i | 0 <= i < |up.len| :: !InBuffer(up, i, x)
      ensures OutAndBack(down, up, host, card, x) == host(x)
    {
      forall i | 0 <= i < |up.len|
        ensures !Covers(Moves(up, |up.len|)[i], x)
      {
        assert !InBuffer(up, i, x);
      }
      Untouched(Moves(up, |up.len|), |up.len|, OnCard(down, host, card), host, x);
    }
  }

  lemma ByteReturns(down: Plan, up: Plan, host: Memory, card: Memory, i: nat, k: nat)
    requires Matching(down, up) && DisjointBuffers(up) && Apart(down) && Carried(down, up)
    requires i < |down.len| && k < down.len[i]
    ensures CameBack(down, up, host, card, i, k)
  {
    hide ByteAfter, WindowAt, OutAndBack;
    if k < Sent(down, i) {
      BackFromCard(down, up, host, card, i, k);
      DisjointMoves(down, up);
      Delivered(Moves(down, |down.len|), host, card, i, k);
    } else {
      BeyondField(down, up, host, card, i, k);
    }
  }

  /** Some last move covers an address that a move covers. */
  lemma {:induction false} LastCover(moves: seq<Move>, n: nat, x: int, j: nat) returns (last: nat)
    requires j < n <= |moves| && Covers(moves[j], x)
    ensures j <= last < n && Covers(moves[last], x) && forall i | last < i < n :: !Covers(moves[i], x)
  {
    last := n - 1;
    if !Covers(moves[n - 1], x) {
      last := LastCover(moves, n - 1, x, j);
    }
  }

  /** Where buffers i and j meet on the card, a byte of the earlier one is overwritten by a later one,
      so some memory contents do not come back. */
  lemma OverlapLoses(down: Plan, up: Plan, i: nat, j: nat, card: Memory) returns (host: Memory)
    requires Matching(down, up) && DisjointBuffers(up) && DisjointBuffers(down)
    requires i < j < |down.len| && Overlap(down, i, j)
    ensures !Returned(down, up, host, card)
  {
    hide ByteAfter, WindowAt, OutAndBack;
    var w, v := Moves(down, |down.len|), WindowAt(down.ep, i);
    var x: int := if v < WindowAt(down.ep, j) then WindowAt(down.ep, j) else v;
    var k := x - v;
    var spot := down.phy[i] + k;
    host := (y: int) => if y == spot then 1 else 0;
    var last := LastCover(w, |w|, x, j);
    LastWriter(w, |w|, host, card, x, last);
    assert InBuffer(down, i, spot);
    assert InBuffer(down, last, down.phy[last] + (x - WindowAt(down.ep, last)));
    BackFromCard(down, up, host, card, i, k);
    assert !CameBack(down, up, host, card, i, k);
  }

  /** A buffer longer than the length field, received elsewhere: its tail does not come back. */
  lemma LengthLoses(down: Plan, up: Plan, i: nat, card: Memory) returns (host: Memory)
    requires Matching(down, up) && DisjointBuffers(up)
    requires i < |down.len| && down.len[i] >= LENGTH_FIELD && up.phy[i] != down.phy[i]
    ensures !Returned(down, up, host, card)
  {
    hide ByteAfter, WindowAt, OutAndBack;
    var k := Sent(down, i);
    var spot := down.phy[i] + k;
    host := (y: int) => if y == spot then 1 else 0;
    BeyondField(down, up, host, card, i, k);
    assert !CameBack(down, up, host, card, i, k);
  }

  /** For disjoint host buffers, of any length and at any card address, the round trip works for all
      memory contents exactly when the buffers keep apart on the card and none is longer than its
      descriptor can say (or else comes back in its own place). */
  lemma RoundTripExactly(down: Plan, up: Plan)
    requires Matching(down, up) && DisjointBuffers(up) && DisjointBuffers(down)
    ensures (forall host: Memory, card: Memory :: Returned(down, up, host, card)) <==> Apart(down) && Carried(down, up)
  {
    hide Overlap, Returned;
    if Apart(down) && Carried(down, up) {
      forall host: Memory, card: Memory
        ensures Returned(down, up, host, card)
      {
        RoundTrip(down, up, host, card);
      }
    } else if Apart(down) {
      var i :| 0 <= i < |down.len| && down.len[i] >= LENGTH_FIELD && up.phy[i] != down.phy[i];
      var host := LengthLoses(down, up, i, (x: int) => 0);
    } else {
      var i, j :| 0 <= i < j < |down.len| && Overlap(down, i, j);
      var host := OverlapLoses(down, up, i, j, (x: int) => 0);
    }
  }
}
