/** A scatter-gather engine that reads descriptors from bus memory, and the meaning of the
    compiled chain: running it moves exactly the listed buffers. The fields and their widths are
    those of the "Descriptors" section of Xilinx product guide PG195. */
module Engine {
  import opened Wrappers
  import opened Bits
  import opened Descriptors

  // ----- descriptors in memory

  /** cpu_to_le32: four bytes, low one first. */
  function Le32(w: Word): (b: seq<Byte>)
    ensures |b| == 4
  {
    [w % 256, w / 256 % 256, w / 256 / 256 % 256, w / 256 / 256 / 256]
  }

  function FromLe32(b: seq<Byte>): Word
    requires |b| == 4
  {
    b[0] as int + 256 * (b[1] as int + 256 * (b[2] as int + 256 * b[3] as int))
  }

  lemma Le32RoundTrip(w: Word)
    ensures FromLe32(Le32(w)) == w
  {
  }

  /** The packed `struct xdma_desc`. */
  function Bytes(d: Desc): (b: seq<Byte>)
    ensures |b| == DESC_SIZE
  {
    Le32(d.control) + Le32(d.bytes) + Le32(d.srcLo) + Le32(d.srcHi)
    + Le32(d.dstLo) + Le32(d.dstHi) + Le32(d.nextLo) + Le32(d.nextHi)
  }

  function Decode(b: seq<Byte>): Desc
    requires |b| == DESC_SIZE
  {
    Desc(FromLe32(b[0..4]), FromLe32(b[4..8]), FromLe32(b[8..12]), FromLe32(b[12..16]),
         FromLe32(b[16..20]), FromLe32(b[20..24]), FromLe32(b[24..28]), FromLe32(b[28..32]))
  }

  lemma DecodeBytes(d: Desc)
    ensures Decode(Bytes(d)) == d
  {
    hide Le32, FromLe32;
    var b := Bytes(d);
    assert b[0..4] == Le32(d.control) && b[4..8] == Le32(d.bytes)
           && b[8..12] == Le32(d.srcLo) && b[12..16] == Le32(d.srcHi);
    assert b[16..20] == Le32(d.dstLo) && b[20..24] == Le32(d.dstHi)
           && b[24..28] == Le32(d.nextLo) && b[28..32] == Le32(d.nextHi);
    forall w: Word {
      Le32RoundTrip(w);
    }
  }

  /** An array of descriptors as bytes. */
  function Image(descs: seq<Desc>): (b: seq<Byte>)
    ensures |b| == DESC_SIZE * |descs|
  {
    if descs == [] then [] else Image(descs[..|descs| - 1]) + Bytes(descs[|descs| - 1])
  }

  lemma {:induction false} ImageAt(descs: seq<Desc>, i: nat)
    requires i < |descs|
    ensures Image(descs)[DESC_SIZE * i..DESC_SIZE * (i + 1)] == Bytes(descs[i])
  {
    var n := |descs| - 1;
    if i < n {
      ImageAt(descs[..n], i);
      assert Image(descs)[DESC_SIZE * i..DESC_SIZE * (i + 1)] == Image(descs[..n])[DESC_SIZE * i..DESC_SIZE * (i + 1)];
    }
  }

  /** The part of bus memory an engine may read: one allocated block. */
  datatype Block = Block(base: Address, bytes: seq<Byte>)

  predicate Inside(m: Block, a: Address, count: nat) {
    m.base <= a && a + DESC_SIZE * count <= m.base + |m.bytes|
  }

  function Fetch(m: Block, a: Address): Desc
    requires Inside(m, a, 1)
  {
    Decode(m.bytes[a - m.base..a - m.base + DESC_SIZE])
  }

  // ----- the engine

  function Magic(d: Desc): nat {
    d.control / 0x1_0000
  }

  /** Bits 13 to 8: how many descriptors stand behind the one the link points to. */
  function Adjacent(d: Desc): nat {
    d.control / 256 % 64
  }

  predicate Stop(d: Desc) {
    d.control % 2 == 1
  }

  datatype Move = Move(src: Address, dst: Address, len: Word)

  /** The length field has 28 bits. */
  const LENGTH_FIELD: nat := 0x1000_0000

  function MoveOf(d: Desc): Move {
    Move(Join(d.srcLo, d.srcHi), Join(d.dstLo, d.dstHi), d.bytes % LENGTH_FIELD)
  }

  /** Running: next is the descriptor to process, ahead the number of further descriptors of the
      prefetched block, credits what is left when crediting is enabled. */
  datatype EngineState =
    | Running(next: Address, ahead: nat, credits: Option<nat>, moves: seq<Move>)
    | Stalled(moves: seq<Move>)
    | Halted(moves: seq<Move>)
    | Faulted

  /** Prefetch of a block of descriptors. */
  function Enter(m: Block, a: Address, adjacent: nat, credits: Option<nat>, moves: seq<Move>): EngineState {
    if Inside(m, a, 1 + adjacent) then Running(a, adjacent, credits, moves) else Faulted
  }

  /** The engine started from its registers: descriptor address and 6-bit adjacent count. */
  function Start(m: Block, low: Word, high: Word, adjacent: nat, credits: Option<nat>): EngineState {
    Enter(m, Join(low, high), adjacent % 64, credits, [])
  }

  /** One descriptor. The engine goes on inside its block, or, when the block is used up or `cut`
      makes it give the rest up, along the link with the count the descriptor announces. */
  function Step(m: Block, e: EngineState, cut: bool): EngineState {
    match e
    case Running(next, ahead, credits, moves) =>
      if credits == Some(0) then Stalled(moves)
      else if !Inside(m, next, 1) || Magic(Fetch(m, next)) != 0xAD4B then Faulted
      else
        var d := Fetch(m, next);
        var moved := moves + [MoveOf(d)];
        var left := match credits case None => None case Some(c) => Some(c - 1);
        if Stop(d) then Halted(moved)
        else if ahead > 0 && !cut then Running((next + DESC_SIZE) % U64, ahead - 1, left, moved)
        else Enter(m, Join(d.nextLo, d.nextHi), Adjacent(d), left, moved)
    case _ => e
  }

  function Run(m: Block, e: EngineState, cuts: seq<bool>): EngineState {
    if cuts == [] then e else Step(m, Run(m, e, cuts[..|cuts| - 1]), cuts[|cuts| - 1])
  }

  // ----- the meaning of a chain

  /** The move a plan asks for: between host buffer i and its window on the card. */
  function Request(p: Plan, i: nat): Move
    requires PlanOk(p) && i < |p.len|
  {
    var card := WindowAt(p.ep, i);
    if p.toCard then Move(p.phy[i], card, p.len[i]) else Move(card, p.phy[i], p.len[i])
  }

  /** What a descriptor can say of it: as much of the length as its field carries. */
  function MoveFor(p: Plan, i: nat): Move
    requires PlanOk(p) && i < |p.len|
  {
    Request(p, i).(len := p.len[i] % LENGTH_FIELD)
  }

  function Moves(p: Plan, n: nat): (r: seq<Move>)
    requires PlanOk(p) && n <= |p.len|
    ensures |r| == n
  {
    seq(n, i requires 0 <= i < n => MoveFor(p, i))
  }

  function Requests(p: Plan, n: nat): (r: seq<Move>)
    requires PlanOk(p) && n <= |p.len|
    ensures |r| == n
  {
    seq(n, i requires 0 <= i < n => Request(p, i))
  }

  /** The descriptors say what the plan asks for exactly when every buffer is below 2^28 bytes. */
  lemma LengthsExactly(p: Plan, n: nat)
    requires PlanOk(p) && n <= |p.len|
    ensures Moves(p, n) == Requests(p, n) <==> forall i | 0 <= i < n :: p.len[i] < LENGTH_FIELD
  {
    if Moves(p, n) == Requests(p, n) {
      forall i | 0 <= i < n
        ensures p.len[i] < LENGTH_FIELD
      {
        assert Moves(p, n)[i] == Requests(p, n)[i];
      }
    }
  }

  /** The chain lies in the block at base. */
  ghost predicate Holds(m: Block, p: Plan, base: Address, was: seq<Desc>) {
    && PlanOk(p) && |was| == |p.len| && base + DESC_SIZE * |p.len| <= U64
    && m == Block(base, Image(Chain(p, base, was)))
  }

  lemma FetchAt(m: Block, p: Plan, base: Address, was: seq<Desc>, i: nat)
    requires Holds(m, p, base, was) && i < |p.len|
    ensures Inside(m, base + DESC_SIZE * i, 1)
    ensures Fetch(m, base + DESC_SIZE * i) == DescAt(p, base, i, was[i])
  {
    hide DescAt, Decode, Bytes;
    ImageAt(Chain(p, base, was), i);
    DecodeBytes(DescAt(p, base, i, was[i]));
  }

  lemma JoinHalves(a: Address)
    ensures Join(Lo(a), Hi(a)) == a
  {
  }

  /** The fields of descriptor i, as the engine reads them. */
  lemma FieldsOf(p: Plan, base: Address, i: nat, was: Desc)
    requires PlanOk(p) && i < |p.len| && base + DESC_SIZE * |p.len| <= U64
    ensures var d := DescAt(p, base, i, was);
            && Magic(d) == 0xAD4B
            && (Stop(d) <==> i == |p.len| - 1)
            && MoveOf(d) == MoveFor(p, i)
            && (i < |p.len| - 1 ==> Join(d.nextLo, d.nextHi) == base + DESC_SIZE * (i + 1)
                                    && Adjacent(d) == NxtAdj(|p.len|, i) <= |p.len| - 2 - i)
  {
    JoinHalves(p.phy[i]);
    JoinHalves(WindowAt(p.ep, i));
    if i < |p.len| - 1 {
      JoinHalves(base + DESC_SIZE * (i + 1));
    }
  }

  /** Adjacency never overruns: from the start register and from every link, the whole block the
      engine may prefetch lies inside the allocated array. */
  lemma PrefetchInside(m: Block, p: Plan, base: Address, was: seq<Desc>, i: nat)
    requires Holds(m, p, base, was) && i < |p.len|
    ensures Inside(m, base, 1 + (|p.len| - 1))
    ensures var d := DescAt(p, base, i, was[i]);
            i < |p.len| - 1 ==> Inside(m, Join(d.nextLo, d.nextHi), 1 + Adjacent(d))
  {
    hide DescAt;
    FieldsOf(p, base, i, was[i]);
  }

  /** The state after k descriptors of the chain, k below its length: it processed the first k in
      order and stands at descriptor k, with no more prefetched than there is. */
  ghost predicate AtDescriptor(e: EngineState, p: Plan, base: Address, k: nat, credits: Option<nat>)
    requires PlanOk(p) && k < |p.len|
  {
    && e.Running? && e.next as int == base + DESC_SIZE * k && e.ahead <= |p.len| - 1 - k
    && e.moves == Moves(p, k)
    && (credits.None? ==> e.credits.None?)
    && (credits.Some? ==> k <= credits.value && e.credits == Some(credits.value - k))
  }

  lemma StepAlong(m: Block, p: Plan, base: Address, was: seq<Desc>, e: EngineState, k: nat,
                  credits: Option<nat>, cut: bool)
    requires Holds(m, p, base, was) && k < |p.len| && AtDescriptor(e, p, base, k, credits)
    requires credits != Some(k)
    ensures if k == |p.len| - 1 then Step(m, e, cut) == Halted(Moves(p, |p.len|))
            else AtDescriptor(Step(m, e, cut), p, base, k + 1, credits)
  {
    hide DescAt, Decode, Image, MoveFor, Adjacent, MoveOf, Join;
    FetchAt(m, p, base, was, k);
    FieldsOf(p, base, k, was[k]);
    PrefetchInside(m, p, base, was, k);
    assert Moves(p, k) + [MoveFor(p, k)] == Moves(p, k + 1);
  }

  /** A compiled chain means its buffer list. Started at the programmed address with the programmed
      count, and whatever blocks the engine splits its prefetch into, it processes descriptors
      0, 1, 2, ... once each; with crediting off, or at least as many credits as descriptors, it
      stops exactly at the last with exactly the listed moves; with c credits, c fewer than that, it
      stalls after exactly the first c. */
  lemma {:induction false} ChainMeansPlan(m: Block, p: Plan, base: Address, was: seq<Desc>,
                                           credits: Option<nat>, cuts: seq<bool>)
    requires Holds(m, p, base, was)
    ensures var n := |p.len|;
            var e := Run(m, Start(m, Lo(base), Hi(base), n - 1, credits), cuts);
            if credits.Some? && credits.value < n && credits.value < |cuts| then e == Stalled(Moves(p, credits.value))
            else if |cuts| < n then AtDescriptor(e, p, base, |cuts|, credits)
            else e == Halted(Moves(p, n))
    decreases |cuts|
  {
    hide DescAt, Image, MoveFor, Step, Join, Lo, Hi;
    var n := |p.len|;
    JoinHalves(base);
    PrefetchInside(m, p, base, was, 0);
    if cuts == [] {
      assert Moves(p, 0) == [];
    } else {
      var k := |cuts| - 1;
      ChainMeansPlan(m, p, base, was, credits, cuts[..k]);
      var e := Run(m, Start(m, Lo(base), Hi(base), n - 1, credits), cuts[..k]);
      if e.Running? && credits == Some(k) {
        StepStalls(m, e, cuts[k]);
      } else if e.Running? {
        StepAlong(m, p, base, was, e, k, credits, cuts[k]);
      } else {
        StepStays(m, e, cuts[k]);
      }
    }
  }

  lemma StepStalls(m: Block, e: EngineState, cut: bool)
    requires e.Running? && e.credits == Some(0)
    ensures Step(m, e, cut) == Stalled(e.moves)
  {
  }

  lemma StepStays(m: Block, e: EngineState, cut: bool)
    requires !e.Running?
    ensures Step(m, e, cut) == e
  {
  }
}
