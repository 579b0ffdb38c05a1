/** DMA memory over the life of a device (driver/vi53xx_xdma_drv.c): channel initialisation under
    every pattern of allocation failures, and xdma_free_resource, against a ledger of live blocks. */
module DmaLedger {
  import opened Wrappers
  import opened Bits
  import opened Descriptors
  import Engine
  import Copying = Transfer
  import opened Channels
  import opened Ledgers

  const CHANNEL_NUM: nat := 2
  const CONFIGS: nat := 4
  const DESC_NUM: Byte := 1

  /** A live block: its size and its bus address. */
  datatype Block = Block(size: nat, bus: Address)

  /** How the kernel answers one allocation. */
  datatype Grant = Grant(ok: bool, bus: Address)

  /** A pointer the device holds: any block of memory. */
  type Held = Hold<object, Block>

  /** Which pointer: configuration, and buffer number below 64 or 64 for the descriptor block. */
  type Slot = (nat, nat)

  /** The two differ at most in the slots of configuration c. */
  ghost predicate SameBut(a: map<Slot, Held>, b: map<Slot, Held>, c: nat) {
    forall k: Slot | k.0 != c :: (k in a <==> k in b) && (k in a ==> a[k] == b[k])
  }

  /** dma_alloc_coherent and dma_free_coherent. `asked` counts allocations, so that `grants` is any
      pattern of successes and failures. */
  class Pool {
    ghost var live: map<object, Block>
    ghost var allocs: nat
    ghost var frees: nat
    const grants: nat -> Grant
    var asked: nat

    constructor (grants: nat -> Grant)
      ensures this.grants == grants && live == map[] && allocs == 0 && frees == 0
    {
      this.grants := grants;
      live, allocs, frees, asked := map[], 0, 0, 0;
    }

    /** A buffer of bytes. */
    method AllocBuffer(size: nat) returns (p: array?<Byte>, bus: Address)
      modifies this
      ensures p == null ==> live == old(live) && allocs == old(allocs)
      ensures p != null ==> fresh(p) && p.Length == size && p !in old(live)
                            && live == old(live)[p := Block(size, bus)] && allocs == old(allocs) + 1
      ensures (p != null <==> grants(old(asked)).ok) && asked == old(asked) + 1
      ensures frees == old(frees)
    {
      var g := grants(asked);
      asked := asked + 1;
      if !g.ok {
        return null, 0;
      }
      p, bus := new Byte[size], g.bus;
      AddFresh(p, size, bus);
    }

    /** A block of descriptors. */
    method AllocDescs(count: nat) returns (p: array?<Desc>, bus: Address)
      modifies this
      ensures p == null ==> live == old(live) && allocs == old(allocs)
      ensures p != null ==> fresh(p) && p.Length == count && p !in old(live)
                            && live == old(live)[p := Block(count * DESC_SIZE, bus)] && allocs == old(allocs) + 1
      ensures (p != null <==> grants(old(asked)).ok) && asked == old(asked) + 1
      ensures frees == old(frees)
    {
      var g := grants(asked);
      asked := asked + 1;
      if !g.ok {
        return null, 0;
      }
      p, bus := new Desc[count], g.bus;
      AddFresh(p, count * DESC_SIZE, bus);
    }

    ghost method AddFresh(p: object, size: nat, bus: Address)
      modifies `live, `allocs
      ensures live == old(live)[p := Block(size, bus)] && allocs == old(allocs) + 1
    {
      live := live[p := Block(size, bus)];
      allocs := allocs + 1;
    }

    /** Only a live block may be freed, and only with the size and bus address it was allocated with. */
    method Free(size: nat, p: object, bus: Address)
      requires p in live && live[p] == Block(size, bus)
      modifies this
      ensures live == old(live) - {p} && frees == old(frees) + 1 && allocs == old(allocs)
    {
      live := live - {p};
      frees := frees + 1;
    }
  }

  /** ch_addr: card address and size by direction and channel; all other entries are zero. */
  function ChannelAddress(c2h: bool, channel: nat): (Word, nat) {
    if channel == 1 then (0x8010_0000, 0x2000)
    else if channel == 2 && c2h then (0, 0x40_0000)
    else (0, 0)
  }

  /** The configuration holds its buffer and its descriptor block exactly as far as allocations
      number n and n + 1 succeed. */
  predicate Granted(m: Memory, grants: nat -> Grant, n: nat) {
    && |m.pData| == MAX_DESC_NUM
    && (m.pData[0] != null <==> grants(n).ok)
    && (m.firstDesc != null <==> grants(n + 1).ok)
  }

  predicate Succeeds(grants: nat -> Grant, n: nat) {
    grants(n).ok
  }

  /** What the initialisation of a pair does to the registers. */
  function PairSetUp(m: Registers, p: Pair, firstDesc: Address): Registers
    requires PairOk(p)
  {
    Apply(Apply(Apply(m, PollInit(p)), Stop(p)), Configure(p, DESC_NUM, firstDesc))
  }

  /** What one turn of the initialisation loop does to the registers, the configurations being ms
      afterwards. */
  function TurnRegs(m: Registers, channel: nat, ms: seq<Memory>): Registers
    requires channel < CHANNEL_NUM && |ms| == CONFIGS
  {
    var c2h := PairSetUp(m, Pair(channel + 1, true), ms[channel].firstDescPhy);
    if channel == 0 then PairSetUp(c2h, Pair(1, false), ms[2].firstDescPhy) else c2h
  }

  lemma TurnRegsSame(m: Registers, ms: seq<Memory>, ns: seq<Memory>)
    requires |ms| == CONFIGS && |ns| == CONFIGS
    ensures ms[0] == ns[0] && ms[2] == ns[2] ==> TurnRegs(m, 0, ms) == TurnRegs(m, 0, ns)
  {
  }

  lemma ControlByNumber(p: Pair)
    requires PairOk(p)
    ensures At(p, Control) == Base(p) + 0x4
  {
  }

  /** The initialisation of a pair programs it, and leaves other pairs and every credit mode alone. */
  lemma SetUpProgramsPair(m: Registers, p: Pair, firstDesc: Address, q: Pair, other: Address)
    requires PairOk(p) && PairOk(q)
    ensures Programmed(PairSetUp(m, p, firstDesc), p, DESC_NUM, firstDesc)
    ensures p != q && Programmed(m, q, DESC_NUM, other) ==> Programmed(PairSetUp(m, p, firstDesc), q, DESC_NUM, other)
    ensures CreditMode(PairSetUp(m, p, firstDesc), q) <==> CreditMode(m, q)
    ensures Read(PairSetUp(m, p, firstDesc), Base(p) + 0x4) == 0
    ensures p != q ==> Agree(PairSetUp(m, p, firstDesc), m, q)
    ensures p != q ==> Read(PairSetUp(m, p, firstDesc), Base(q) + 0x4) == Read(m, Base(q) + 0x4)
  {
    hide Apply, At, Bit, ModeBit;
    var m1 := Apply(m, PollInit(p));
    var m2 := Apply(m1, Stop(p));
    ConfigureProgramsPair(m2, p, DESC_NUM, firstDesc);
    RegistersByNumber(m1, Stop(p), 0);
    ConfigurationByNumber(m2, p, DESC_NUM, firstDesc, Base(p) + 0x4, 0);
    if p != q {
      ForeignApply(m, PollInit(p), q);
      ForeignApply(m1, Stop(p), q);
      ForeignApply(m2, Configure(p, DESC_NUM, firstDesc), q);
      assert At(q, Control) == Base(q) + 0x4 by { ControlByNumber(q); }
    }
    ApplyMode(m, PollInit(p), ModeBit(q));
    ApplyMode(m1, Stop(p), ModeBit(q));
    ApplyMode(m2, Configure(p, DESC_NUM, firstDesc), ModeBit(q));
  }

  /** The pair of configuration number c, for the three that are initialised. */
  function PairOf(c: nat): (p: Pair)
    requires c < 3
    ensures PairOk(p)
  {
    if c == 0 then Pair(1, true) else if c == 1 then Pair(2, true) else Pair(1, false)
  }

  /** After both turns of the loop all three pairs are programmed, each with its own address, and
      stopped: their control registers are 0. The registers of the fourth pair are as they were. */
  lemma TurnsProgramPairs(m: Registers, ms: seq<Memory>, c: nat)
    requires |ms| == CONFIGS && c < 3
    ensures var after := TurnRegs(TurnRegs(m, 0, ms), 1, ms);
            && Programmed(after, PairOf(c), DESC_NUM, ms[c].firstDescPhy)
            && (CreditMode(after, PairOf(c)) <==> CreditMode(m, PairOf(c)))
            && Read(after, if c == 0 then 0x1004 else if c == 1 then 0x1104 else 0x4) == 0
            && Agree(after, m, Pair(2, false))
  {
    hide PairSetUp, Programmed, CreditMode, Agree;
    var p, a := PairOf(c), ms[c].firstDescPhy;
    var m1 := PairSetUp(m, Pair(1, true), ms[0].firstDescPhy);
    var m2 := PairSetUp(m1, Pair(1, false), ms[2].firstDescPhy);
    SetUpProgramsPair(m, Pair(1, true), ms[0].firstDescPhy, p, a);
    SetUpProgramsPair(m1, Pair(1, false), ms[2].firstDescPhy, p, a);
    SetUpProgramsPair(m2, Pair(2, true), ms[1].firstDescPhy, p, a);
    var m3, fourth := PairSetUp(m2, Pair(2, true), ms[1].firstDescPhy), Pair(2, false);
    SetUpProgramsPair(m, Pair(1, true), ms[0].firstDescPhy, fourth, 0);
    SetUpProgramsPair(m1, Pair(1, false), ms[2].firstDescPhy, fourth, 0);
    SetUpProgramsPair(m2, Pair(2, true), ms[1].firstDescPhy, fourth, 0);
    AgreeThrough(m2, m1, m, fourth);
    AgreeThrough(m3, m2, m, fourth);
  }

  /** The control registers of the three pairs are 0: none runs. */
  predicate AllStopped(m: Registers) {
    Read(m, 0x1004) == 0 && Read(m, 0x1104) == 0 && Read(m, 0x4) == 0
  }

  lemma TurnsStop(m: Registers, ms: seq<Memory>)
    requires |ms| == CONFIGS
    ensures var after := TurnRegs(TurnRegs(m, 0, ms), 1, ms); AllStopped(after) && Agree(after, m, Pair(2, false))
  {
    hide TurnRegs, Programmed, CreditMode, Agree;
    TurnsProgramPairs(m, ms, 0);
    TurnsProgramPairs(m, ms, 1);
    TurnsProgramPairs(m, ms, 2);
  }

  /** The transfer side of one configuration, with what its descriptor block holds. */
  datatype Setup = Setup(c2h: bool, channel: nat, count: nat, ep: Word, size: nat, len: Word,
                         buffer: bool, phy: Address, chain: Option<seq<Desc>>, chainPhy: Address)
  {
    /** The one transfer that a configuration with one descriptor describes. */
    function Plan(): (p: Plan)
      ensures PlanOk(p)
    {
      Transfer(!c2h, [len], [phy], ep)
    }
  }

  ghost function SetupOf(cfg: Config): Setup
    requires cfg.Valid()
    reads cfg, cfg.dataLen, cfg.pData, cfg.dataPhy, cfg.firstDesc
  {
    Setup(cfg.direction != 0, cfg.channel, cfg.count as int, cfg.epAddr, cfg.size, cfg.dataLen[0],
          cfg.pData[0] != null, cfg.dataPhy[0],
          if cfg.firstDesc == null then None else Some(cfg.firstDesc[..]), cfg.firstDescPhy)
  }

  /** What initialisation leaves of a configuration: the parameters of its channel, and a descriptor
      block that holds the compiled chain. Where an allocation was refused, the bus address is the
      one before. */
  predicate Prepared(s: Setup, p: Pair, before: Setup) {
    && s.count == DESC_NUM as int && s.c2h == p.c2h && s.channel == p.channel
    && (s.ep, s.size) == ChannelAddress(p.c2h, p.channel) && s.len as int == s.size
    && (!s.buffer ==> s.phy == before.phy)
    && match s.chain
       case None => s.chainPhy == before.chainPhy
       case Some(chain) => |chain| == 1 && chain == Chain(s.Plan(), s.chainPhy, chain)
  }

  /** The configuration has not been given any bus address yet. */
  predicate Unused(s: Setup) {
    s.phy == 0 && s.chainPhy == 0
  }

  const NEW := Setup(false, 0, 0, 0, 0, 0, false, 0, None, 0)

  /** A chain is compiled again to itself: only the link of the last descriptor depends on what was there. */
  lemma ChainAgain(p: Plan, base: Address, was: seq<Desc>)
    requires PlanOk(p) && |was| == |p.len|
    ensures Chain(p, base, Chain(p, base, was)) == Chain(p, base, was)
  {
    hide Lo, Hi, WindowAt;
  }

  /** An engine started from a prepared and programmed pair, crediting off, makes one move: all of the
      buffer, between its bus address and the channel's card address. */
  lemma PreparedMoves(s: Setup, p: Pair, before: Setup, regs: Registers, left: nat, cuts: seq<bool>)
    requires PairOk(p) && Prepared(s, p, before) && s.chain.Some? && s.chainPhy + DESC_SIZE <= U64
    requires Programmed(regs, p, DESC_NUM, s.chainPhy) && !CreditMode(regs, p) && cuts != []
    ensures var block := Engine.Block(s.chainPhy, Engine.Image(s.chain.value));
            Engine.Run(block, StartPair(block, regs, left, p), cuts)
            == Engine.Halted([if p.c2h then Engine.Move(s.ep, s.phy, s.len) else Engine.Move(s.phy, s.ep, s.len)])
  {
    hide Chain, Engine.Image, Engine.Run, Engine.Start, CreditMode, At, Lo, Hi;
    var plan, base, descs := s.Plan(), s.chainPhy, s.chain.value;
    var block := Engine.Block(base, Engine.Image(descs));
    Engine.ChainMeansPlan(block, plan, base, descs, None, cuts);
    assert Engine.Moves(plan, 1) == [Engine.MoveFor(plan, 0)];
  }

  /** One block of host memory was copied to the other, byte for byte, and nothing else changed. */
  ghost predicate Brought(after: Copying.Memory, host: Copying.Memory, from: Block, to: Block) {
    forall x :: after(x) == if to.bus <= x < to.bus + to.size then host(from.bus + (x - to.bus)) else host(x)
  }

  /** Channel 1 has one card address and one size in both directions, so what H2C sends there C2H brings back. */
  lemma ChannelOneRoundTrip(out: Setup, back: Setup, host: Copying.Memory, card: Copying.Memory)
    requires Prepared(out, PairOf(2), NEW) && Prepared(back, PairOf(0), NEW)
    ensures out.size == back.size
    ensures var there := Copying.Copied(Engine.Moves(out.Plan(), 1), host, card);
            Brought(Copying.Copied(Engine.Moves(back.Plan(), 1), there, host), host,
                    Block(out.size, out.phy), Block(back.size, back.phy))
  {
    hide Copying.Copied, Chain;
    var down, up := out.Plan(), back.Plan();
    Copying.RoundTrip(down, up, host, card);
    var after := Copying.Copied(Engine.Moves(up, 1), Copying.Copied(Engine.Moves(down, 1), host, card), host);
    forall x
      ensures after(x) == if back.phy <= x < back.phy + back.size then host(out.phy + (x - back.phy)) else host(x)
    {
      assert after(x) == Copying.OutAndBack(down, up, host, card, x);
      if back.phy <= x < back.phy + out.size {
        assert Copying.CameBack(down, up, host, card, 0, x - back.phy);
      } else {
        assert !Copying.InBuffer(up, 0, x);
      }
    }
  }

  /** Configuration number: the two C2H channels, then the two H2C channels. */
  function Index(c2h: bool, channel: nat): nat
    requires channel < CHANNEL_NUM
  {
    if c2h then channel else CHANNEL_NUM + channel
  }

  /** The memory side of one configuration. */
  datatype Memory = Memory(count: nat, size: nat, pData: seq<array?<Byte>>, dataPhy: seq<Address>,
                           firstDesc: array?<Desc>, firstDescPhy: Address)

  /** The non-NULL pointers of configuration c are those `held` lists, with the sizes and addresses
      that the free functions would pass. */
  ghost predicate Tied(held: map<Slot, Held>, c: nat, m: Memory) {
    && |m.pData| == |m.dataPhy| == MAX_DESC_NUM && m.count <= MAX_DESC_NUM
    && (forall i | 0 <= i < MAX_DESC_NUM :: (c, i) in held <==> m.pData[i] != null)
    && (forall i | 0 <= i < MAX_DESC_NUM && m.pData[i] != null ::
          i < m.count && held[(c, i)] == Hold(m.pData[i], Block(m.size, m.dataPhy[i])))
    && ((c, MAX_DESC_NUM) in held <==> m.firstDesc != null)
    && (m.firstDesc != null ==>
          held[(c, MAX_DESC_NUM)] == Hold(m.firstDesc, Block(m.count * DESC_SIZE, m.firstDescPhy)))
  }

  lemma TiedElsewhere(held: map<Slot, Held>, after: map<Slot, Held>, c: nat, d: nat, m: Memory)
    requires Tied(held, d, m) && SameBut(after, held, c) && c != d
    ensures Tied(after, d, m)
  {
  }

  lemma TiedDropBuffer(held: map<Slot, Held>, c: nat, m: Memory, i: nat)
    requires Tied(held, c, m) && i < MAX_DESC_NUM && m.pData[i] != null
    ensures (c, i) in held && held[(c, i)] == Hold(m.pData[i], Block(m.size, m.dataPhy[i]))
    ensures Tied(held - {(c, i)}, c, m.(pData := m.pData[i := null]))
  {
  }

  lemma TiedDropDescs(held: map<Slot, Held>, c: nat, m: Memory)
    requires Tied(held, c, m) && m.firstDesc != null
    ensures (c, MAX_DESC_NUM) in held
    ensures held[(c, MAX_DESC_NUM)] == Hold(m.firstDesc, Block(m.count * DESC_SIZE, m.firstDescPhy))
    ensures Tied(held - {(c, MAX_DESC_NUM)}, c, m.(firstDesc := null))
  {
  }

  lemma TiedPutBuffer(held: map<Slot, Held>, c: nat, m: Memory, i: nat, p: array<Byte>, bus: Address)
    requires Tied(held, c, m) && i < m.count && m.pData[i] == null
    ensures (c, i) !in held
    ensures Tied(held[(c, i) := Hold(p, Block(m.size, bus))], c,
                 m.(pData := m.pData[i := p], dataPhy := m.dataPhy[i := bus]))
  {
  }

  lemma TiedPutDescs(held: map<Slot, Held>, c: nat, m: Memory, p: array<Desc>, bus: Address)
    requires Tied(held, c, m) && m.firstDesc == null
    ensures (c, MAX_DESC_NUM) !in held
    ensures Tied(held[(c, MAX_DESC_NUM) := Hold(p, Block(m.count * DESC_SIZE, bus))], c,
                 m.(firstDesc := p, firstDescPhy := bus))
  {
  }

  predicate Blank(m: Memory) {
    m.firstDesc == null && forall i | 0 <= i < |m.pData| :: m.pData[i] == null
  }

  /** A configuration that holds nothing may get any count and size. */
  lemma TiedBlank(held: map<Slot, Held>, c: nat, m: Memory, n: Memory)
    requires Tied(held, c, m) && Blank(m) && Blank(n)
    requires |n.pData| == |n.dataPhy| == MAX_DESC_NUM && n.count <= MAX_DESC_NUM
    ensures Tied(held, c, n)
  {
  }

  lemma TiedBounds(held: map<Slot, Held>, c: nat, m: Memory)
    requires Tied(held, c, m)
    ensures m.count <= MAX_DESC_NUM && |m.pData| == MAX_DESC_NUM
    ensures forall i | m.count <= i < MAX_DESC_NUM :: m.pData[i] == null
  {
  }

  /** When every configuration is blank, nothing is held. */
  ghost predicate Complete(held: map<Slot, Held>) {
    forall k: Slot | k in held :: k.0 < CONFIGS && k.1 <= MAX_DESC_NUM
  }

  lemma SameReflexive(held: map<Slot, Held>, c: nat)
    ensures SameBut(held, held, c)
  {
  }

  lemma SameTransitive(x: map<Slot, Held>, y: map<Slot, Held>, z: map<Slot, Held>, c: nat)
    requires SameBut(x, y, c) && SameBut(y, z, c)
    ensures SameBut(x, z, c)
  {
  }

  lemma DropElsewhere(held: map<Slot, Held>, c: nat, i: nat)
    ensures SameBut(held - {(c, i)}, held, c)
    ensures Complete(held) ==> Complete(held - {(c, i)})
  {
  }

  lemma PutElsewhere(held: map<Slot, Held>, c: nat, i: nat, h: Held)
    requires c < CONFIGS && i <= MAX_DESC_NUM
    ensures SameBut(held[(c, i) := h], held, c)
    ensures Complete(held) ==> Complete(held[(c, i) := h])
  {
  }

  lemma AllBlank(held: map<Slot, Held>, ms: seq<Memory>)
    requires |ms| == CONFIGS && Complete(held) && forall c | 0 <= c < CONFIGS :: Tied(held, c, ms[c]) && Blank(ms[c])
    ensures held == map[]
  {
    forall c, i | 0 <= c < CONFIGS && 0 <= i <= MAX_DESC_NUM
      ensures (c, i) !in held
    {
      assert Tied(held, c, ms[c]) && Blank(ms[c]);
    }
    assert forall k: Slot | k in held :: k == (k.0, k.1);
  }

  ghost function MemoryOf(cfg: Config): Memory
    requires cfg.Valid()
    reads cfg, cfg.pData, cfg.dataPhy
  {
    Memory(cfg.count as int, cfg.size, cfg.pData[..], cfg.dataPhy[..], cfg.firstDesc, cfg.firstDescPhy)
  }

  /** kzalloc's configuration. */
  ghost predicate Zeroed(cfg: Config)
    requires cfg.Valid()
    reads cfg, cfg.pData, cfg.dataPhy
  {
    && cfg.count == 0 && cfg.firstDesc == null && cfg.firstDescPhy == 0
    && forall i | 0 <= i < MAX_DESC_NUM :: cfg.pData[i] == null && cfg.dataPhy[i] == 0
  }

  ghost predicate DistinctConfigs(cfgs: seq<Config>) {
    && |cfgs| == CONFIGS
    && (forall c | 0 <= c < CONFIGS :: cfgs[c].Valid())
    && (forall c, d | 0 <= c < d < CONFIGS ::
          cfgs[c] != cfgs[d] && cfgs[c].pData != cfgs[d].pData && cfgs[c].dataPhy != cfgs[d].dataPhy
          && cfgs[c].dataLen != cfgs[d].dataLen)
  }

  /** The four zeroed configurations of a device. */
  method NewConfigs() returns (cfgs: seq<Config>)
    ensures DistinctConfigs(cfgs) && forall c | 0 <= c < CONFIGS :: Zeroed(cfgs[c])
    ensures forall c | 0 <= c < CONFIGS ::
                fresh(cfgs[c]) && fresh(cfgs[c].pData) && fresh(cfgs[c].dataPhy) && fresh(cfgs[c].dataLen)
  {
    var a := new Config();
    var b := new Config();
    var c := new Config();
    var d := new Config();
    assert Zeroed(a) && Zeroed(b) && Zeroed(c) && Zeroed(d);
    hide Zeroed;
    cfgs := [a, b, c, d];
  }

  /** The DMA part of `struct xdma_dev`. */
  class Device {
    const cfgs: seq<Config>
    const pool: Pool
    const bar: Bar
    ghost var held: map<Slot, Held>

    ghost predicate Distinct() {
      DistinctConfigs(cfgs)
    }

    ghost function Arrays(): set<object>
      requires Distinct()
    {
      {cfgs[0], cfgs[1], cfgs[2], cfgs[3], cfgs[0].pData, cfgs[1].pData, cfgs[2].pData, cfgs[3].pData,
       cfgs[0].dataPhy, cfgs[1].dataPhy, cfgs[2].dataPhy, cfgs[3].dataPhy}
    }

    ghost function Memories(): (ms: seq<Memory>)
      requires Distinct()
      reads Arrays()
      ensures |ms| == CONFIGS
    {
      [MemoryOf(cfgs[0]), MemoryOf(cfgs[1]), MemoryOf(cfgs[2]), MemoryOf(cfgs[3])]
    }

    ghost function Setups(): (ss: seq<Setup>)
      requires Distinct()
      reads cfgs[0], cfgs[1], cfgs[2], cfgs[3]
      reads cfgs[0].dataLen, cfgs[1].dataLen, cfgs[2].dataLen, cfgs[3].dataLen
      reads cfgs[0].pData, cfgs[1].pData, cfgs[2].pData, cfgs[3].pData
      reads cfgs[0].dataPhy, cfgs[1].dataPhy, cfgs[2].dataPhy, cfgs[3].dataPhy
      reads cfgs[0].firstDesc, cfgs[1].firstDesc, cfgs[2].firstDesc, cfgs[3].firstDesc
      ensures |ss| == CONFIGS
    {
      [SetupOf(cfgs[0]), SetupOf(cfgs[1]), SetupOf(cfgs[2]), SetupOf(cfgs[3])]
    }

    lemma SetupsAre()
      requires Distinct()
      ensures forall d | 0 <= d < CONFIGS :: Setups()[d] == SetupOf(cfgs[d])
    {
    }

    lemma DescPhyOf(cfg: Config)
      requires cfg.Valid()
      ensures MemoryOf(cfg).firstDescPhy == cfg.firstDescPhy
    {
    }

    lemma MemoriesAre()
      requires Distinct()
      ensures forall d | 0 <= d < CONFIGS :: Memories()[d] == MemoryOf(cfgs[d])
    {
    }

    ghost predicate Valid()
      requires Distinct()
      reads this, Arrays()
    {
      Complete(held) && forall c | 0 <= c < CONFIGS :: Tied(held, c, Memories()[c])
    }

    /** The ledger holds what it held before the device was set up, and what the device holds. */
    ghost predicate Conserved(before: map<object, Block>)
      reads this, pool
    {
      Owned(held, pool.live, before)
    }

    /** One turn of the loop in xdma_free_c2h_pdata and xdma_free_h2c_pdata. */
    method FreeBuffer(cfg: Config, ghost c: nat, i: nat, ghost before: map<object, Block>)
      requires cfg.Valid() && Tied(held, c, MemoryOf(cfg)) && Conserved(before) && i < cfg.count as int <= MAX_DESC_NUM
      modifies `held, pool, cfg.pData
      ensures Tied(held, c, MemoryOf(cfg)) && Conserved(before) && (Complete(old(held)) ==> Complete(held))
      ensures cfg.pData[..] == old(cfg.pData[..])[i := null] && SameBut(held, old(held), c)
      ensures pool.frees + |held| == old(pool.frees + |held|) && pool.allocs == old(pool.allocs)
    {
      hide Owned, Tied, SameBut, Complete;
      SameReflexive(held, c);
      if cfg.pData[i] != null {
        ghost var k, m := (c, i), MemoryOf(cfg);
        TiedDropBuffer(held, c, m, i);
        DropElsewhere(held, c, i);
        HeldIsLive(held, pool.live, before, k);
        DropHold(held, pool.live, before, k);
        DropSize(held, k);
        pool.Free(cfg.size, cfg.pData[i], cfg.dataPhy[i]);
        cfg.pData[i] := null;
        held := held - {k};
        assert MemoryOf(cfg) == m.(pData := m.pData[i := null]);
      } else {
        assert cfg.pData[..] == old(cfg.pData[..])[i := null];
      }
    }

    /** After work on configuration c alone, the others are as they were. */
    lemma ValidAgain(c: nat, was: map<Slot, Held>, ms: seq<Memory>)
      requires Distinct() && c < CONFIGS && |ms| == CONFIGS
      requires forall d | 0 <= d < CONFIGS && d != c :: Tied(was, d, ms[d]) && Memories()[d] == ms[d]
      requires Complete(held) && SameBut(held, was, c) && Tied(held, c, Memories()[c])
      ensures Valid()
    {
      hide Tied, SameBut, Complete;
      forall d | 0 <= d < CONFIGS && d != c
        ensures Tied(held, d, Memories()[d])
      {
        TiedElsewhere(was, held, c, d, ms[d]);
      }
    }

    /** xdma_free_c2h_pdata and xdma_free_h2c_pdata: the loop over the buffers of a configuration. */
    method FreeBuffers(cfg: Config, ghost c: nat, ghost before: map<object, Block>)
      requires cfg.Valid() && Tied(held, c, MemoryOf(cfg)) && Conserved(before) && Complete(held)
      modifies `held, pool, cfg.pData
      ensures Tied(held, c, MemoryOf(cfg)) && Conserved(before) && Complete(held) && SameBut(held, old(held), c)
      ensures forall i | 0 <= i < MAX_DESC_NUM :: cfg.pData[i] == null
      ensures pool.frees + |held| == old(pool.frees + |held|) && pool.allocs == old(pool.allocs)
    {
      hide Owned, Tied, SameBut, Complete;
      TiedBounds(held, c, MemoryOf(cfg));
      SameReflexive(held, c);
      for i := 0 to cfg.count as int
        invariant Tied(held, c, MemoryOf(cfg)) && Conserved(before) && Complete(held)
        invariant forall j | 0 <= j < i :: cfg.pData[j] == null
        invariant forall j | cfg.count as int <= j < MAX_DESC_NUM :: cfg.pData[j] == null
        invariant SameBut(held, old(held), c)
        invariant pool.frees + |held| == old(pool.frees + |held|) && pool.allocs == old(pool.allocs)
      {
        ghost var h, data := held, cfg.pData[..];
        FreeBuffer(cfg, c, i, before);
        SameTransitive(held, h, old(held), c);
        assert forall j | 0 <= j < MAX_DESC_NUM && j != i :: cfg.pData[..][j] == data[j];
        assert cfg.pData[..][i] == null;
      }
    }

    /** xdma_free_c2h_desc and xdma_free_h2c_desc */
    method FreeDescs(cfg: Config, ghost c: nat, ghost before: map<object, Block>)
      requires cfg.Valid() && Tied(held, c, MemoryOf(cfg)) && Conserved(before) && Complete(held)
      modifies `held, pool, cfg`firstDesc
      ensures Tied(held, c, MemoryOf(cfg)) && Conserved(before) && Complete(held) && SameBut(held, old(held), c)
      ensures cfg.firstDesc == null
      ensures pool.frees + |held| == old(pool.frees + |held|) && pool.allocs == old(pool.allocs)
    {
      hide Owned, Tied, SameBut, Complete;
      SameReflexive(held, c);
      if cfg.firstDesc != null {
        ghost var k, m := (c, MAX_DESC_NUM), MemoryOf(cfg);
        TiedDropDescs(held, c, m);
        HeldIsLive(held, pool.live, before, k);
        DropHold(held, pool.live, before, k);
        DropSize(held, k);
        DropElsewhere(held, c, MAX_DESC_NUM);
        pool.Free(cfg.count as int * DESC_SIZE, cfg.firstDesc, cfg.firstDescPhy);
        cfg.firstDesc := null;
        held := held - {k};
        assert MemoryOf(cfg) == m.(firstDesc := null);
      }
    }

    /** The buffers of configuration c freed, on the whole device. */
    method FreePdata(c: nat, ghost before: map<object, Block>)
      requires Distinct() && c < CONFIGS && Valid() && Conserved(before)
      modifies `held, pool, cfgs[c].pData
      ensures Valid() && Conserved(before)
      ensures forall i | 0 <= i < MAX_DESC_NUM :: cfgs[c].pData[i] == null
      ensures pool.frees + |held| == old(pool.frees + |held|) && pool.allocs == old(pool.allocs)
    {
      hide Owned, Tied, SameBut, Complete, Memories, MemoryOf;
      ghost var ms := Memories();
      MemoriesAre();
      FreeBuffers(cfgs[c], c, before);
      MemoriesAre();
      ValidAgain(c, old(held), ms);
    }

    /** The descriptor block of configuration c freed, on the whole device. */
    method FreeDesc(cfg: Config, ghost c: nat, ghost before: map<object, Block>)
      requires Distinct() && c < CONFIGS && cfg == cfgs[c] && Valid() && Conserved(before)
      modifies `held, pool, cfg`firstDesc
      ensures Valid() && Conserved(before) && cfg.firstDesc == null
      ensures pool.frees + |held| == old(pool.frees + |held|) && pool.allocs == old(pool.allocs)
    {
      hide Owned, Tied, SameBut, Complete, Memories, MemoryOf;
      ghost var ms := Memories();
      MemoriesAre();
      FreeDescs(cfg, c, before);
      MemoriesAre();
      ValidAgain(c, old(held), ms);
    }

    ghost predicate NoBuffers(c: nat)
      requires Distinct() && c < CONFIGS
      reads cfgs[c].pData
    {
      forall i | 0 <= i < MAX_DESC_NUM :: cfgs[c].pData[i] == null
    }

    /** xdma_free_pci_bus_addr */
    method FreePciBusAddr(ghost before: map<object, Block>)
      requires Distinct() && Valid() && Conserved(before)
      modifies `held, pool, cfgs[0].pData, cfgs[1].pData, cfgs[2].pData, cfgs[3].pData
      ensures Valid() && Conserved(before) && NoBuffers(0) && NoBuffers(1) && NoBuffers(2) && NoBuffers(3)
      ensures pool.frees + |held| == old(pool.frees + |held|) && pool.allocs == old(pool.allocs)
    {
      hide Valid, Conserved;
      for channel := 0 to CHANNEL_NUM
        invariant Valid() && Conserved(before)
        invariant channel >= 1 ==> NoBuffers(0) && NoBuffers(2)
        invariant channel >= 2 ==> NoBuffers(1) && NoBuffers(3)
        invariant pool.frees + |held| == old(pool.frees + |held|) && pool.allocs == old(pool.allocs)
      {
        FreePdata(Index(true, channel), before);
        FreePdata(Index(false, channel), before);
      }
    }

    /** xdma_free_desc */
    method FreeAllDescs(ghost before: map<object, Block>)
      requires Distinct() && Valid() && Conserved(before)
      modifies `held, pool, cfgs[0], cfgs[1], cfgs[2], cfgs[3]
      ensures Valid() && Conserved(before)
      ensures forall c | 0 <= c < CONFIGS :: cfgs[c].firstDesc == null
      ensures pool.frees + |held| == old(pool.frees + |held|) && pool.allocs == old(pool.allocs)
    {
      hide Valid, Conserved;
      for channel := 0 to CHANNEL_NUM
        invariant Valid() && Conserved(before)
        invariant channel >= 1 ==> cfgs[0].firstDesc == null && cfgs[2].firstDesc == null
        invariant channel >= 2 ==> cfgs[1].firstDesc == null && cfgs[3].firstDesc == null
        invariant pool.frees + |held| == old(pool.frees + |held|) && pool.allocs == old(pool.allocs)
      {
        FreeDesc(cfgs[Index(false, channel)], Index(false, channel), before);
        FreeDesc(cfgs[Index(true, channel)], Index(true, channel), before);
      }
    }

    /** xdma_free_resource: whatever the device holds is freed, each block once and as it was
        allocated, and the ledger is back where it was; a second call frees nothing. */
    method FreeResource(ghost before: map<object, Block>)
      requires Distinct() && Valid() && Conserved(before)
      modifies this, pool, Arrays()
      ensures Valid() && held == map[] && forall c | 0 <= c < CONFIGS :: Blank(Memories()[c])
      ensures pool.live == before
      ensures pool.frees == old(pool.frees) + |old(held)| && pool.allocs == old(pool.allocs)
    {
      hide Valid, Conserved, Memories, Blank, NoBuffers;
      FreePciBusAddr(before);
      FreeAllDescs(before);
      NothingLeft(before);
    }

    lemma NothingLeft(before: map<object, Block>)
      requires Distinct() && Valid() && Conserved(before)
      requires NoBuffers(0) && NoBuffers(1) && NoBuffers(2) && NoBuffers(3)
      requires forall c | 0 <= c < CONFIGS :: cfgs[c].firstDesc == null
      ensures held == map[] && pool.live == before
      ensures forall c | 0 <= c < CONFIGS :: Blank(Memories()[c])
    {
      hide Owned, Tied, Complete;
      AllBlank(held, Memories());
      NothingHeld(held, pool.live, before);
    }

    // ----- initialisation

    /** One turn of the loop in xdma_physical_address_init: a zeroed buffer of the configured size. */
    method AllocOne(cfg: Config, ghost c: nat, i: nat, ghost before: map<object, Block>) returns (ok: bool)
      requires cfg.Valid() && c < CONFIGS && Tied(held, c, MemoryOf(cfg)) && Conserved(before) && Complete(held)
      requires i < cfg.count as int <= MAX_DESC_NUM && cfg.pData[i] == null
      modifies `held, pool, cfg.pData, cfg.dataPhy
      ensures Tied(held, c, MemoryOf(cfg)) && Conserved(before) && Complete(held) && SameBut(held, old(held), c)
      ensures (ok <==> cfg.pData[i] != null) && (ok <==> pool.grants(old(pool.asked)).ok)
              && pool.asked == old(pool.asked) + 1
      ensures ok ==> fresh(cfg.pData[i]) && cfg.pData[i].Length == cfg.size
                     && forall j | 0 <= j < cfg.size :: cfg.pData[i][j] == 0
      ensures forall j | 0 <= j < MAX_DESC_NUM && j != i :: cfg.pData[j] == old(cfg.pData[j])
      ensures forall j | 0 <= j < MAX_DESC_NUM && (j != i || !ok) :: cfg.dataPhy[j] == old(cfg.dataPhy[j])
      ensures pool.allocs - |held| == old(pool.allocs - |held|) && pool.frees == old(pool.frees)
    {
      hide Owned, Tied, SameBut, Complete;
      ghost var k, m, live := (c, i), MemoryOf(cfg), pool.live;
      SameReflexive(held, c);
      var p, bus := pool.AllocBuffer(cfg.size);
      ok := p != null;
      if ok {
        TiedPutBuffer(held, c, m, i, p, bus);
        ghost var h: Held := Hold(p, Block(cfg.size, bus));
        PutHold(held, live, before, k, h);
        PutSize(held, k, h);
        PutElsewhere(held, c, i, h);
        cfg.dataPhy[i] := bus;
        forall j | 0 <= j < p.Length {
          p[j] := 0;
        }
        cfg.pData[i] := p;
        held := held[k := h];
        assert MemoryOf(cfg) == m.(pData := m.pData[i := p], dataPhy := m.dataPhy[i := bus]);
      }
    }

    /** xdma_physical_address_init: it gives up at the first failure and keeps what it got. */
    method PhysicalAddressInit(cfg: Config, ghost c: nat, ghost before: map<object, Block>)
      returns (r: int, ghost got: nat)
      requires cfg.Valid() && c < CONFIGS && Tied(held, c, MemoryOf(cfg)) && Conserved(before) && Complete(held)
      requires cfg.count as int <= MAX_DESC_NUM && forall i | 0 <= i < MAX_DESC_NUM :: cfg.pData[i] == null
      modifies `held, pool, cfg.pData, cfg.dataPhy
      ensures Tied(held, c, MemoryOf(cfg)) && Conserved(before) && Complete(held) && SameBut(held, old(held), c)
      ensures got <= cfg.count as int && (r == 0 <==> got == cfg.count as int)
      ensures forall i | 0 <= i < MAX_DESC_NUM :: cfg.pData[i] != null <==> i < got
      ensures forall i | got <= i < MAX_DESC_NUM :: cfg.dataPhy[i] == old(cfg.dataPhy[i])
      ensures forall n | old(pool.asked) <= n < old(pool.asked) + got :: Succeeds(pool.grants, n)
      ensures if got < cfg.count as int then !Succeeds(pool.grants, old(pool.asked) + got)
                                            && pool.asked == old(pool.asked) + got + 1
              else pool.asked == old(pool.asked) + got
      ensures pool.allocs - |held| == old(pool.allocs - |held|) && pool.frees == old(pool.frees)
    {
      hide Owned, Tied, SameBut, Complete;
      SameReflexive(held, c);
      for i := 0 to cfg.count as int
        invariant Tied(held, c, MemoryOf(cfg)) && Conserved(before) && Complete(held) && SameBut(held, old(held), c)
        invariant forall j | 0 <= j < i :: cfg.pData[j] != null
        invariant forall n | old(pool.asked) <= n < old(pool.asked) + i :: Succeeds(pool.grants, n)
        invariant forall j | i <= j < MAX_DESC_NUM :: cfg.pData[j] == null && cfg.dataPhy[j] == old(cfg.dataPhy[j])
        invariant pool.asked == old(pool.asked) + i
        invariant pool.allocs - |held| == old(pool.allocs - |held|) && pool.frees == old(pool.frees)
      {
        ghost var h := held;
        var ok := AllocOne(cfg, c, i, before);
        SameTransitive(held, h, old(held), c);
        if !ok {
          return -1, i;
        }
      }
      return 0, cfg.count as int;
    }

    /** vi53xx_info_init: one descriptor, the channel's card address and size; a failed buffer
        allocation is not reported. */
    method InfoInit(cfg: Config, ghost c: nat, ghost before: map<object, Block>)
      requires cfg.Valid() && c < CONFIGS && Tied(held, c, MemoryOf(cfg)) && Conserved(before) && Complete(held)
      requires Blank(MemoryOf(cfg))
      modifies `held, pool, cfg`count, cfg`epAddr, cfg`size, cfg.dataLen, cfg.pData, cfg.dataPhy
      ensures Tied(held, c, MemoryOf(cfg)) && Conserved(before) && Complete(held) && SameBut(held, old(held), c)
      ensures cfg.count == DESC_NUM
              && cfg.dataLen[0] as int == cfg.size == ChannelAddress(cfg.direction != 0, cfg.channel).1
      ensures cfg.epAddr == ChannelAddress(cfg.direction != 0, cfg.channel).0
      ensures (cfg.pData[0] != null <==> pool.grants(old(pool.asked)).ok) && pool.asked == old(pool.asked) + 1
      ensures cfg.pData[0] == null ==> cfg.dataPhy[0] == old(cfg.dataPhy[0])
      ensures pool.allocs - |held| == old(pool.allocs - |held|) && pool.frees == old(pool.frees)
    {
      hide Owned, Tied, SameBut, Complete;
      ghost var m := MemoryOf(cfg);
      var c2h := cfg.direction != 0;
      cfg.count := DESC_NUM;
      cfg.epAddr := ChannelAddress(c2h, cfg.channel).0;
      cfg.dataLen[0] := ChannelAddress(c2h, cfg.channel).1;
      cfg.size := ChannelAddress(c2h, cfg.channel).1;
      TiedBlank(held, c, m, MemoryOf(cfg));
      assert forall i | 0 <= i < MAX_DESC_NUM :: cfg.pData[i] == m.pData[i];
      var _, got := PhysicalAddressInit(cfg, c, before);
      assert got == 1 ==> Succeeds(pool.grants, old(pool.asked));
    }

    /** xdma_create_transfer with its allocation of the descriptor block. */
    method CreateTransfer(cfg: Config, ghost c: nat, ghost before: map<object, Block>) returns (ghost was: seq<Desc>)
      requires cfg.Valid() && c < CONFIGS && Tied(held, c, MemoryOf(cfg)) && Conserved(before) && Complete(held)
      requires 1 <= cfg.count as int <= MAX_DESC_NUM && 1 <= cfg.channel <= 15 && cfg.firstDesc == null
      modifies `held, pool, bar, cfg`firstDesc, cfg`firstDescPhy
      ensures Tied(held, c, MemoryOf(cfg)) && Conserved(before) && Complete(held) && SameBut(held, old(held), c)
      ensures pool.allocs - |held| == old(pool.allocs - |held|) && pool.frees == old(pool.frees)
      ensures (cfg.firstDesc != null <==> pool.grants(old(pool.asked)).ok) && pool.asked == old(pool.asked) + 1
      ensures cfg.firstDesc != null ==>
                      |was| == cfg.count as int && cfg.firstDesc[..] == Chain(cfg.Plan(), cfg.firstDescPhy, was)
      ensures cfg.firstDesc == null ==> cfg.firstDescPhy == old(cfg.firstDescPhy)
      ensures bar.regs == Apply(old(bar.regs),
                                Configure(Pair(cfg.channel, cfg.direction != 0), cfg.count, cfg.firstDescPhy))
    {
      hide Owned, Tied, SameBut, Complete, Apply, Chain;
      ghost var k, m, live := (c, MAX_DESC_NUM), MemoryOf(cfg), pool.live;
      SameReflexive(held, c);
      var desc, bus := pool.AllocDescs(cfg.count as int);
      was := if desc == null then [] else desc[..];
      var ok := bar.CreateTransfer(cfg.channel, cfg, desc, bus);
      if ok {
        TiedPutDescs(held, c, m, desc, bus);
        ghost var h: Held := Hold(desc, Block(cfg.count as int * DESC_SIZE, bus));
        PutHold(held, live, before, k, h);
        PutSize(held, k, h);
        PutElsewhere(held, c, MAX_DESC_NUM, h);
        held := held[k := h];
        assert MemoryOf(cfg) == m.(firstDesc := desc, firstDescPhy := bus);
      } else {
        assert MemoryOf(cfg) == m;
      }
    }

    lemma SetupAddresses(cfg: Config)
      requires cfg.Valid()
      ensures SetupOf(cfg).phy == cfg.dataPhy[0] && SetupOf(cfg).chainPhy == cfg.firstDescPhy
    {
    }

    lemma PreparedNow(cfg: Config, was: seq<Desc>, before: Setup)
      requires cfg.Valid() && cfg.count == DESC_NUM
      requires (cfg.epAddr, cfg.size) == ChannelAddress(cfg.direction != 0, cfg.channel)
               && cfg.dataLen[0] as int == cfg.size
      requires cfg.pData[0] == null ==> cfg.dataPhy[0] == before.phy
      requires cfg.firstDesc == null ==> cfg.firstDescPhy == before.chainPhy
      requires cfg.firstDesc != null ==> |was| == 1 && cfg.firstDesc[..] == Chain(cfg.Plan(), cfg.firstDescPhy, was)
      ensures Prepared(SetupOf(cfg), Pair(cfg.channel, cfg.direction != 0), before)
    {
      hide Chain, ChannelAddress;
      if cfg.firstDesc != null {
        ChainAgain(cfg.Plan(), cfg.firstDescPhy, was);
        assert cfg.Plan() == SetupOf(cfg).Plan();
      }
    }

    /** `_xdma_channel_init` of configuration c, which holds nothing yet. */
    method SetUp(cfg: Config, ghost c: nat, ghost before: map<object, Block>)
      requires cfg.Valid() && c < CONFIGS && Tied(held, c, MemoryOf(cfg)) && Conserved(before) && Complete(held)
      requires Blank(MemoryOf(cfg)) && 1 <= cfg.channel <= 15
      modifies `held, pool, bar, cfg, cfg.dataLen, cfg.pData, cfg.dataPhy
      ensures Tied(held, c, MemoryOf(cfg)) && Conserved(before) && Complete(held) && SameBut(held, old(held), c)
      ensures pool.allocs - |held| == old(pool.allocs - |held|) && pool.frees == old(pool.frees)
      ensures cfg.channel == old(cfg.channel) && cfg.direction == old(cfg.direction)
      ensures bar.regs == PairSetUp(old(bar.regs), Pair(cfg.channel, cfg.direction != 0), cfg.firstDescPhy)
      ensures Granted(MemoryOf(cfg), pool.grants, old(pool.asked)) && pool.asked == old(pool.asked) + 2
      ensures Prepared(SetupOf(cfg), Pair(cfg.channel, cfg.direction != 0), old(SetupOf(cfg)))
    {
      hide Owned, Tied, SameBut, Complete, Apply, Chain, ChannelAddress, Prepared, SetupOf;
      SetupAddresses(cfg);
      InfoInit(cfg, c, before);
      ghost var h := held;
      bar.PollInit(cfg.channel, cfg.direction);
      bar.Stop(cfg.channel, cfg.direction);
      ghost var was := CreateTransfer(cfg, c, before);
      SameTransitive(held, h, old(held), c);
      PreparedNow(cfg, was, old(SetupOf(cfg)));
    }

    /** init_dma_cfg and, if `run`, `_xdma_channel_init`. */
    method ChannelSetUp(cfg: Config, ghost c: nat, channel: nat, c2h: bool, run: bool, ghost before: map<object, Block>)
      requires cfg.Valid() && c < CONFIGS && Tied(held, c, MemoryOf(cfg)) && Conserved(before) && Complete(held)
      requires Blank(MemoryOf(cfg)) && channel < CHANNEL_NUM
      modifies `held, pool, bar, cfg, cfg.dataLen, cfg.pData, cfg.dataPhy
      ensures Tied(held, c, MemoryOf(cfg)) && Conserved(before) && Complete(held) && SameBut(held, old(held), c)
      ensures cfg.direction == (if c2h then 1 else 0) && cfg.channel == channel + 1
      ensures if run then Granted(MemoryOf(cfg), pool.grants, old(pool.asked)) && pool.asked == old(pool.asked) + 2
                          && bar.regs == PairSetUp(old(bar.regs), Pair(channel + 1, c2h), cfg.firstDescPhy)
                          && Prepared(SetupOf(cfg), Pair(channel + 1, c2h), old(SetupOf(cfg)))
              else Blank(MemoryOf(cfg)) && pool.asked == old(pool.asked) && bar.regs == old(bar.regs)
      ensures pool.allocs - |held| == old(pool.allocs - |held|) && pool.frees == old(pool.frees)
    {
      hide Owned, Tied, SameBut, Complete, Apply, Chain;
      ghost var m := MemoryOf(cfg);
      SameReflexive(held, c);
      cfg.direction := if c2h then 1 else 0;
      cfg.channel := channel + 1;
      assert MemoryOf(cfg) == m;
      if run {
        SetUp(cfg, c, before);
      }
    }

    /** The initialisation of configuration c for pair p made two allocations, programmed the pair, and
        prepared the configuration. */
    ghost predicate Initialised(c: nat, p: Pair, asked: nat, regs: Registers, before: seq<Setup>)
      requires Distinct() && c < CONFIGS && PairOk(p) && |before| == CONFIGS
      reads pool, bar, Arrays(), cfgs[0].dataLen, cfgs[1].dataLen, cfgs[2].dataLen, cfgs[3].dataLen
      reads cfgs[0].firstDesc, cfgs[1].firstDesc, cfgs[2].firstDesc, cfgs[3].firstDesc
    {
      var m := Memories()[c];
      && Granted(m, pool.grants, asked) && pool.asked == asked + 2
      && bar.regs == PairSetUp(regs, p, m.firstDescPhy)
      && Prepared(Setups()[c], p, before[c])
    }

    /** The same on the whole device; the other configurations stay as they are. */
    method SetUpIn(c: nat, channel: nat, c2h: bool, run: bool, ghost before: map<object, Block>)
      requires Distinct() && c < CONFIGS && channel < CHANNEL_NUM && Valid() && Conserved(before)
      requires Blank(Memories()[c])
      modifies `held, pool, bar, cfgs[c], cfgs[c].dataLen, cfgs[c].pData, cfgs[c].dataPhy
      ensures Valid() && Conserved(before)
      ensures forall d | 0 <= d < CONFIGS && d != c ::
                Memories()[d] == old(Memories())[d] && Setups()[d] == old(Setups())[d]
      ensures if run then Initialised(c, Pair(channel + 1, c2h), old(pool.asked), old(bar.regs), old(Setups()))
              else Blank(Memories()[c]) && pool.asked == old(pool.asked) && bar.regs == old(bar.regs)
      ensures pool.allocs - |held| == old(pool.allocs - |held|) && pool.frees == old(pool.frees)
    {
      hide Owned, Tied, SameBut, Complete, Apply, PairSetUp, Granted, Blank, Memories, MemoryOf, Prepared, Setups;
      ghost var ms := Memories();
      MemoriesAre();
      SetupsAre();
      ChannelSetUp(cfgs[c], c, channel, c2h, run, before);
      MemoriesAre();
      SetupsAre();
      DescPhyOf(cfgs[c]);
      ValidAgain(c, old(held), ms);
    }

    /** One turn of the loop in xdma_channel_init: the C2H channel, and the H2C channel if it is the
        first. */
    method ChannelTurn(channel: nat, ghost before: map<object, Block>)
      requires Distinct() && channel < CHANNEL_NUM && Valid() && Conserved(before)
      requires Blank(Memories()[channel]) && Blank(Memories()[CHANNEL_NUM + channel])
      modifies `held, pool, bar, Arrays(), cfgs[0].dataLen, cfgs[1].dataLen, cfgs[2].dataLen, cfgs[3].dataLen
      ensures Valid() && Conserved(before)
      ensures forall d | 0 <= d < CONFIGS && d != channel && d != CHANNEL_NUM + channel ::
                Memories()[d] == old(Memories())[d] && Setups()[d] == old(Setups())[d]
      ensures Granted(Memories()[channel], pool.grants, old(pool.asked))
      ensures channel == 0 ==> Granted(Memories()[2], pool.grants, old(pool.asked) + 2)
      ensures channel == 1 ==> Blank(Memories()[3])
      ensures pool.asked == old(pool.asked) + (if channel == 0 then 4 else 2)
      ensures bar.regs == TurnRegs(old(bar.regs), channel, Memories())
      ensures Prepared(Setups()[channel], Pair(channel + 1, true), old(Setups())[channel])
      ensures channel == 0 ==> Prepared(Setups()[2], Pair(1, false), old(Setups())[2])
      ensures pool.allocs - |held| == old(pool.allocs - |held|) && pool.frees == old(pool.frees)
    {
      hide Owned, Tied, Complete, Valid, Conserved, Memories, Blank, Granted, PairSetUp, Prepared, Setups;
      SetUpIn(Index(true, channel), channel, true, true, before);
      SetUpIn(Index(false, channel), channel, false, channel + 1 == 1, before);
    }

    /** Each of the three configurations holds what its two allocations granted, the fourth nothing. */
    ghost predicate SixGranted(asked: nat)
      requires Distinct()
      reads pool, Arrays()
    {
      var ms := Memories();
      && Granted(ms[0], pool.grants, asked) && Granted(ms[2], pool.grants, asked + 2)
      && Granted(ms[1], pool.grants, asked + 4) && Blank(ms[3])
    }

    /** xdma_channel_init: both C2H channels and the first H2C channel, on a device that holds
        nothing. Six allocations, and what succeeded is held, whatever failed; the three pairs'
        registers are programmed in order. */
    method ChannelInit(ghost before: map<object, Block>)
      requires Distinct() && Valid() && Conserved(before)
      requires forall c | 0 <= c < CONFIGS :: Blank(Memories()[c])
      modifies `held, pool, bar, Arrays(), cfgs[0].dataLen, cfgs[1].dataLen, cfgs[2].dataLen, cfgs[3].dataLen
      ensures Valid() && Conserved(before)
      ensures SixGranted(old(pool.asked))
      ensures pool.asked == old(pool.asked) + 6
      ensures bar.regs == TurnRegs(TurnRegs(old(bar.regs), 0, Memories()), 1, Memories())
      ensures forall c | 0 <= c < 3 :: Prepared(Setups()[c], PairOf(c), old(Setups())[c])
      ensures AllStopped(bar.regs) && Agree(bar.regs, old(bar.regs), Pair(2, false))
      ensures pool.allocs - |held| == old(pool.allocs - |held|) && pool.frees == old(pool.frees)
    {
      hide Owned, Tied, Complete, Valid, Conserved, Memories, Blank, Granted, TurnRegs, Prepared, Setups,
        Agree, AllStopped;
      for channel := 0 to CHANNEL_NUM
        invariant Valid() && Conserved(before)
        invariant Turned(channel, old(pool.asked), old(bar.regs))
        invariant channel == 0 ==> Setups() == old(Setups())
        invariant channel >= 1 ==> Prepared(Setups()[0], PairOf(0), old(Setups())[0])
                                   && Prepared(Setups()[2], PairOf(2), old(Setups())[2])
        invariant channel == 1 ==> Setups()[1] == old(Setups())[1]
        invariant channel == 2 ==> Prepared(Setups()[1], PairOf(1), old(Setups())[1])
        invariant pool.allocs - |held| == old(pool.allocs - |held|) && pool.frees == old(pool.frees)
      {
        ghost var ms := Memories();
        ChannelTurn(channel, before);
        TurnRegsSame(old(bar.regs), ms, Memories());
      }
      TurnsStop(old(bar.regs), Memories());
    }

    /** After so many turns of the loop. */
    ghost predicate Turned(turns: nat, asked: nat, regs: Registers)
      requires Distinct()
      reads pool, bar, Arrays()
    {
      var ms := Memories();
      if turns == 0 then
        pool.asked == asked && bar.regs == regs && Blank(ms[0]) && Blank(ms[1]) && Blank(ms[2]) && Blank(ms[3])
      else
        && Granted(ms[0], pool.grants, asked) && Granted(ms[2], pool.grants, asked + 2)
        && (turns == 1 ==> pool.asked == asked + 4 && bar.regs == TurnRegs(regs, 0, ms) && Blank(ms[1]) && Blank(ms[3]))
        && (turns == 2 ==> pool.asked == asked + 6 && bar.regs == TurnRegs(TurnRegs(regs, 0, ms), 1, ms)
                           && Granted(ms[1], pool.grants, asked + 4) && Blank(ms[3]))
    }

    /** The engine of an initialised pair, started from the pair's registers. */
    ghost function EngineOf(c: nat, left: nat, cuts: seq<bool>): Engine.EngineState
      requires Distinct() && c < 3 && cfgs[c].firstDesc != null
      reads bar, cfgs[c], cfgs[c].firstDesc
    {
      var block := Engine.Block(cfgs[c].firstDescPhy, Engine.Image(cfgs[c].firstDesc[..]));
      Engine.Run(block, StartPair(block, bar.regs, left, PairOf(c)), cuts)
    }

    /** The descriptor block of configuration c was granted, and ends within the address space. */
    ghost predicate HasChain(c: nat)
      requires Distinct() && c < 3
      reads cfgs[c]
    {
      cfgs[c].firstDesc != null && cfgs[c].firstDescPhy + DESC_SIZE <= U64
    }

    /** What ChannelInit leaves of pair c of a new device, on registers m with crediting off for the pair. */
    ghost predicate PairReady(m: Registers, c: nat)
      requires Distinct() && c < 3
      reads this, bar, Arrays(), cfgs[0].dataLen, cfgs[1].dataLen, cfgs[2].dataLen, cfgs[3].dataLen
      reads cfgs[0].firstDesc, cfgs[1].firstDesc, cfgs[2].firstDesc, cfgs[3].firstDesc
    {
      && Valid() && Prepared(Setups()[c], PairOf(c), NEW)
      && bar.regs == TurnRegs(TurnRegs(m, 0, Memories()), 1, Memories())
      && !CreditMode(m, PairOf(c))
    }

    /** The bus address that the descriptor of configuration c names: that of the held buffer, 0 when the
        buffer was refused. */
    ghost function BufferBus(c: nat): Address
      reads this
    {
      if (c, 0) in held then held[(c, 0)].block.bus else 0
    }

    /** One move of the channel's full size at its card address. */
    ghost function BufferMove(c: nat): Engine.Move
      requires c < 3
      reads this
    {
      var p := PairOf(c);
      var (card, size) := ChannelAddress(p.c2h, p.channel);
      if p.c2h then Engine.Move(card, BufferBus(c), size) else Engine.Move(BufferBus(c), card, size)
    }

    /** Initialisation and engine together. With a descriptor block, the engine of an initialised pair
        makes one move of the channel's full size, which is not 0: from or to the held buffer, as it is
        held, exactly when the buffer was granted, and otherwise at bus address 0. Without a
        descriptor block the pair is programmed with address 0. */
    lemma InitialisedPairMoves(m: Registers, c: nat, left: nat, cuts: seq<bool>)
      requires Distinct() && c < 3 && PairReady(m, c) && cuts != []
      ensures cfgs[c].firstDesc == null ==> Programmed(bar.regs, PairOf(c), DESC_NUM, 0)
      ensures cfgs[c].pData[0] != null <==> (c, 0) in held
      ensures (c, 0) in held ==> held[(c, 0)].ptr == cfgs[c].pData[0] && held[(c, 0)].block.size == BufferMove(c).len
      ensures BufferMove(c) == (if c == 0 then Engine.Move(0x8010_0000, BufferBus(0), 0x2000)
                                else if c == 1 then Engine.Move(0, BufferBus(1), 0x40_0000)
                                else Engine.Move(BufferBus(2), 0x8010_0000, 0x2000))
      ensures HasChain(c) ==> EngineOf(c, left, cuts) == Engine.Halted([BufferMove(c)])
    {
      hide TurnRegs, Programmed, CreditMode, Chain, Engine.Image, Engine.Run, StartPair, Complete;
      SetupsAre();
      MemoriesAre();
      assert Tied(held, c, Memories()[c]);
      TurnsProgramPairs(m, Memories(), c);
      if HasChain(c) {
        PreparedMoves(Setups()[c], PairOf(c), NEW, bar.regs, left, cuts);
      }
    }

    lemma ReadyFrom(m: Registers, before: seq<Setup>)
      requires Distinct() && Valid() && |before| == CONFIGS
      requires bar.regs == TurnRegs(TurnRegs(m, 0, Memories()), 1, Memories())
      requires forall c | 0 <= c < 3 :: Unused(before[c]) && Prepared(Setups()[c], PairOf(c), before[c])
      ensures forall c | 0 <= c < 3 && !CreditMode(m, PairOf(c)) :: PairReady(m, c)
    {
      hide TurnRegs, CreditMode, Chain, Complete, Tied;
    }

    lemma EnginesMove(m: Registers)
      requires Distinct() && forall c | 0 <= c < 3 && !CreditMode(m, PairOf(c)) :: PairReady(m, c)
      ensures forall c, left, cuts | 0 <= c < 3 && !CreditMode(m, PairOf(c)) && cuts != [] && HasChain(c) ::
                EngineOf(c, left, cuts) == Engine.Halted([BufferMove(c)])
    {
      hide PairReady, CreditMode, EngineOf, BufferMove;
      forall c, left, cuts | 0 <= c < 3 && !CreditMode(m, PairOf(c)) && cuts != [] && HasChain(c)
        ensures EngineOf(c, left, cuts) == Engine.Halted([BufferMove(c)])
      {
        InitialisedPairMoves(m, c, left, cuts);
      }
    }

    /** With both buffers and both chains of channel 1, running its H2C engine and then its C2H engine
        copies the one held buffer to the other byte for byte, whatever the memories held, and leaves
        all other host memory as it was. */
    lemma InitialisedRoundTrip(m: Registers, left: nat, cuts: seq<bool>, host: Copying.Memory, card: Copying.Memory)
      requires Distinct() && PairReady(m, 0) && PairReady(m, 2) && cuts != []
      requires HasChain(0) && HasChain(2) && (0, 0) in held && (2, 0) in held
      ensures var (out, back) := (EngineOf(2, left, cuts), EngineOf(0, left, cuts));
              && out.Halted? && back.Halted?
              && var after := Copying.Copied(back.moves, Copying.Copied(out.moves, host, card), host);
              Brought(after, host, held[(2, 0)].block, held[(0, 0)].block)
    {
      hide TurnRegs, Programmed, CreditMode, Chain, EngineOf, Complete, Copying.Copied, Brought;
      InitialisedPairMoves(m, 0, left, cuts);
      InitialisedPairMoves(m, 2, left, cuts);
      SetupsAre();
      MemoriesAre();
      assert Tied(held, 0, Memories()[0]) && Tied(held, 2, Memories()[2]);
      var out, back := Setups()[2], Setups()[0];
      assert Engine.Moves(out.Plan(), 1) == [BufferMove(2)] && Engine.Moves(back.Plan(), 1) == [BufferMove(0)];
      ChannelOneRoundTrip(out, back, host, card);
    }

    /** Initialise, release, release again, under any pattern of failed allocations: afterwards the
        ledger is what it was, and exactly as many blocks were freed as were allocated. */
    method InitThenFreeTwice()
      requires Distinct() && Valid() && held == map[] && forall c | 0 <= c < CONFIGS :: Blank(Memories()[c])
      modifies this, pool, bar, Arrays(), cfgs[0].dataLen, cfgs[1].dataLen, cfgs[2].dataLen, cfgs[3].dataLen
      ensures pool.live == old(pool.live)
      ensures pool.frees - old(pool.frees) == pool.allocs - old(pool.allocs)
    {
      ghost var before := pool.live;
      assert Conserved(before);
      hide Conserved, Valid, Granted, TurnRegs, Blank, Memories, Owned, Distinct;
      ChannelInit(before);
      ghost var n := |held|;
      assert pool.allocs == old(pool.allocs) + n && pool.frees == old(pool.frees);
      FreeResource(before);
      assert pool.frees == old(pool.frees) + n && held == map[];
      FreeResource(before);
    }

    lemma ZeroedValid()
      requires Distinct() && held == map[] && forall c | 0 <= c < CONFIGS :: Zeroed(cfgs[c])
      ensures Valid() && forall c | 0 <= c < CONFIGS :: Blank(Memories()[c]) && Unused(Setups()[c])
    {
    }

    /** A device with four zeroed configurations, as kzalloc and xdma_probe leave it. */
    constructor (pool: Pool, bar: Bar)
      ensures this.pool == pool && this.bar == bar && held == map[]
      ensures Distinct() && Valid() && forall c | 0 <= c < CONFIGS :: Blank(Memories()[c]) && Unused(Setups()[c])
      ensures forall c | 0 <= c < CONFIGS ::
                fresh(cfgs[c]) && fresh(cfgs[c].pData) && fresh(cfgs[c].dataPhy) && fresh(cfgs[c].dataLen)
    {
      hide Valid, Memories, Setups, Blank;
      var zeroed := NewConfigs();
      cfgs, this.pool, this.bar, held := zeroed, pool, bar, map[];
      new;
      ZeroedValid();
    }
  }

  /** The DMA part of xdma_probe: a zeroed device and its channel initialisation, whatever allocations fail.
      The engine of every pair that has a descriptor block then makes its one move. */
  method ProbeDevice(pool: Pool, bar: Bar) returns (d: Device)
    modifies pool, bar
    ensures fresh(d) && d.pool == pool && d.bar == bar
    ensures d.Distinct() && d.Valid() && d.Conserved(old(pool.live))
    ensures d.SixGranted(old(pool.asked))
    ensures AllStopped(bar.regs) && Agree(bar.regs, old(bar.regs), Pair(2, false))
    ensures forall c | 0 <= c < 3 && !CreditMode(old(bar.regs), PairOf(c)) :: d.PairReady(old(bar.regs), c)
    ensures forall c, left, cuts | 0 <= c < 3 && !CreditMode(old(bar.regs), PairOf(c)) && cuts != [] && d.HasChain(c) ::
              d.EngineOf(c, left, cuts) == Engine.Halted([d.BufferMove(c)])
  {
    ghost var before, m := pool.live, bar.regs;
    d := new Device(pool, bar);
    NothingYet(d.held, before);
    ghost var setups := d.Setups();
    hide Device.SixGranted, Prepared, TurnRegs, Owned, CreditMode, Blank, Device.Valid, Device.PairReady,
      Device.EngineOf,
      Device.BufferMove, Device.HasChain, Device.Memories, Device.Setups, Agree, AllStopped;
    d.ChannelInit(before);
    d.ReadyFrom(m, setups);
    d.EnginesMove(m);
  }
}
