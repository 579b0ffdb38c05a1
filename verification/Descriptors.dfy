/** The scatter-gather descriptor compiler of driver/libxdma.c: xdma_desc_alloc turns a list of
    buffers into a chain of descriptors. The layout of the control word is that of the
    "Descriptors" section of Xilinx product guide PG195. */
module Descriptors {
  import opened Bits

  const MAX_EXTRA_ADJ: nat := 15
  const MAX_DESC_NUM: nat := 64
  const DESC_MAGIC: nat := 0xAD4B_0000
  const FINAL_CONTROL: nat := 0x13
  const DESC_SIZE: nat := 32
  const WINDOW: nat := 0x2000

  datatype Desc = Desc(control: Word, bytes: Word, srcLo: Word, srcHi: Word, dstLo: Word, dstHi: Word,
                       nextLo: Word, nextHi: Word)

  /** PCI_DMA_L and PCI_DMA_H */
  function Lo(a: Address): Word {
    a % U32
  }

  function Hi(a: Address): Word {
    a / U32
  }

  /** The address that two words spell. */
  function Join(lo: Word, hi: Word): Address {
    hi * U32 + lo
  }

  /** `struct xdma_cfg_info`, the parts that describe a transfer and its memory. */
  class Config {
    var direction: Byte
    var count: Byte
    const pData: array<array?<Byte>>
    const dataLen: array<Word>
    const dataPhy: array<Address>
    var firstDesc: array?<Desc>
    var firstDescPhy: Address
    var size: nat
    var channel: nat
    var epAddr: Word

    ghost predicate Valid() {
      pData.Length == MAX_DESC_NUM && dataLen.Length == MAX_DESC_NUM && dataPhy.Length == MAX_DESC_NUM
    }

    /** The transfer that the configuration describes. */
    ghost function Plan(): (p: Plan)
      requires Valid() && 1 <= count as int <= MAX_DESC_NUM
      reads this, dataLen, dataPhy
      ensures PlanOk(p)
    {
      Transfer(direction == 0, dataLen[..count], dataPhy[..count], epAddr)
    }

    /** kzalloc: all fields zero, all pointers NULL. */
    constructor ()
      ensures Valid() && fresh(pData) && fresh(dataLen) && fresh(dataPhy)
      ensures direction == 0 && count == 0 && firstDesc == null && firstDescPhy == 0 && size == 0 && channel == 0
      ensures forall i | 0 <= i < MAX_DESC_NUM :: pData[i] == null && dataPhy[i] == 0
    {
      direction, count, firstDesc, firstDescPhy, size, channel, epAddr := 0, 0, null, 0, 0, 0, 0;
      pData := new array?<Byte>[MAX_DESC_NUM](_ => null);
      dataLen := new Word[MAX_DESC_NUM](_ => 0);
      dataPhy := new Address[MAX_DESC_NUM](_ => 0);
    }
  }

  /** A transfer: host to card or back, a list of host buffers, and the card address of the first. */
  datatype Plan = Transfer(toCard: bool, len: seq<Word>, phy: seq<Address>, ep: Word)

  predicate PlanOk(p: Plan) {
    1 <= |p.len| <= MAX_DESC_NUM && |p.phy| == |p.len|
  }

  /** Buffer i goes to or comes from its own 0x2000-byte window, in 32-bit arithmetic. */
  function WindowAt(ep: Word, i: nat): Word {
    (ep + i * WINDOW) % U32
  }

  // ----- what the chain is

  /** Nxt_adj: how many descriptors stand behind the next one, at most 15; none behind the last two. */
  function NxtAdj(n: nat, i: nat): nat {
    if n < i + 2 then 0 else if n - 2 - i > MAX_EXTRA_ADJ then MAX_EXTRA_ADJ else n - 2 - i
  }

  /** Descriptor i of the chain at bus address base; the link of the last is whatever was in memory. */
  function DescAt(p: Plan, base: Address, i: nat, was: Desc): Desc
    requires PlanOk(p) && i < |p.len|
  {
    var n := |p.len|;
    var last := i == n - 1;
    var host, card := p.phy[i], WindowAt(p.ep, i);
    var next := (base + (i + 1) * DESC_SIZE) % U64;
    var src, dst := if p.toCard then host else card, if p.toCard then card else host;
    Desc(DESC_MAGIC + 256 * NxtAdj(n, i) + (if last then FINAL_CONTROL else 0), p.len[i],
         Lo(src), Hi(src), Lo(dst), Hi(dst),
         if last then was.nextLo else Lo(next), if last then was.nextHi else Hi(next))
  }

  function Chain(p: Plan, base: Address, was: seq<Desc>): (r: seq<Desc>)
    requires PlanOk(p) && |was| == |p.len|
    ensures |r| == |was|
  {
    seq(|was|, i requires 0 <= i < |was| => DescAt(p, base, i, was[i]))
  }

  /** The eight words of descriptor i by number: the control word with the magic and the announced count,
      or with stop, completed and end of packet at the last; the whole length; the addresses of the
      buffer and of its window; and the bus address of the next descriptor, not written at the last. */
  lemma DescriptorByNumber(p: Plan, base: Address, i: nat, was: Desc)
    requires PlanOk(p) && i < |p.len|
    ensures var n, d := |p.len|, DescAt(p, base, i, was);
            && d.control == (if i == n - 1 then 0xAD4B_0013
                             else 0xAD4B_0000 + 256 * (if n - 2 - i > 15 then 15 else n - 2 - i))
            && d.bytes == p.len[i]
            && var (src, dst) := (d.srcLo + 0x1_0000_0000 * d.srcHi, d.dstLo + 0x1_0000_0000 * d.dstHi);
            var card := (p.ep + i * 0x2000) % 0x1_0000_0000;
            && (src, dst) == (if p.toCard then (p.phy[i], card) else (card, p.phy[i]))
            && if i == n - 1 then (d.nextLo, d.nextHi) == (was.nextLo, was.nextHi)
               else d.nextLo + 0x1_0000_0000 * d.nextHi == (base + (i + 1) * 32) % 0x1_0000_0000_0000_0000
  {
  }

  /** The or-ed control word is the sum of its fields. */
  lemma ControlWord(extra: nat, flags: nat)
    requires extra <= 255 && flags <= 255
    ensures Or(DESC_MAGIC, extra * 256) == DESC_MAGIC + extra * 256
    ensures Or(DESC_MAGIC + extra * 256, flags) == DESC_MAGIC + extra * 256 + flags
  {
    hide Or, Pow2;
    assert Pow2(8) == 256 && Pow2(16) == 0x1_0000 by { PowersOfTwo(); }
    OrDisjoint(0xAD4B, extra * 256, 16);
    OrDisjoint(0xAD4B00 + extra, flags, 8);
  }

  lemma PowersOfTwo()
    ensures Pow2(8) == 256 && Pow2(16) == 0x1_0000
  {
    assert Pow2(4) == 16;
    assert Pow2(8) == 16 * Pow2(4);
    assert Pow2(12) == 16 * Pow2(8);
    assert Pow2(16) == 16 * Pow2(12);
  }

  // ----- the program

  /** xdma_desc_set_addr and xdma_desc_set_ep_addr */
  function SetAddr(d: Desc, host: Address, toCard: bool, card: Word): Desc {
    if toCard then d.(srcLo := Lo(host), srcHi := Hi(host), dstLo := Lo(card), dstHi := Hi(card))
    else d.(dstLo := Lo(host), dstHi := Hi(host), srcLo := Lo(card), srcHi := Hi(card))
  }

  /** The writes of one turn of the loop: descriptor i, linked to the next. */
  method WriteLinked(cfg: Config, desc: array<Desc>, base: Address, i: nat, extra: nat)
    requires cfg.Valid() && 1 <= cfg.count as int <= MAX_DESC_NUM && desc.Length == cfg.count as int
    requires i < cfg.count as int - 1 && extra == NxtAdj(cfg.count as int, i)
    modifies desc
    ensures desc[..] == old(desc[..])[i := DescAt(cfg.Plan(), base, i, old(desc[i]))]
  {
    hide Or;
    ControlWord(extra, 0);
    var next := (base + (i + 1) * DESC_SIZE) % U64;
    var d := SetAddr(desc[i], cfg.dataPhy[i], cfg.direction == 0, WindowAt(cfg.epAddr, i));
    desc[i] := d.(control := Or(DESC_MAGIC, extra * 256), bytes := cfg.dataLen[i],
                 nextLo := Lo(next), nextHi := Hi(next));
  }

  /** The writes behind the loop: the last descriptor, which stops the engine. */
  method WriteFinal(cfg: Config, desc: array<Desc>, base: Address, i: nat, extra: nat)
    requires cfg.Valid() && 1 <= cfg.count as int <= MAX_DESC_NUM && desc.Length == cfg.count as int
    requires i == cfg.count as int - 1 && extra == 0
    modifies desc
    ensures desc[..] == old(desc[..])[i := DescAt(cfg.Plan(), base, i, old(desc[i]))]
  {
    hide Or;
    ControlWord(extra, FINAL_CONTROL);
    var d := SetAddr(desc[i], cfg.dataPhy[i], cfg.direction == 0, WindowAt(cfg.epAddr, i));
    desc[i] := d.(control := Or(Or(DESC_MAGIC, extra * 256), FINAL_CONTROL), bytes := cfg.dataLen[i]);
  }

  /** xdma_desc_alloc: desc is the block dma_alloc_coherent returned, null when it failed, base its
      bus address. */
  method DescAlloc(cfg: Config, desc: array?<Desc>, base: Address) returns (ok: bool)
    requires cfg.Valid() && 1 <= cfg.count as int <= 64
    requires desc != null ==> desc.Length == cfg.count as int
    modifies cfg`firstDesc, cfg`firstDescPhy, desc
    ensures ok <==> desc != null
    ensures ok ==>
              desc[..] == Chain(cfg.Plan(), base, old(desc[..])) && cfg.firstDesc == desc && cfg.firstDescPhy == base
    ensures !ok ==> cfg.firstDesc == old(cfg.firstDesc) && cfg.firstDescPhy == old(cfg.firstDescPhy)
  {
    if desc == null {
      return false;
    }
    hide DescAt;
    var n: nat := cfg.count;
    ghost var p, was := cfg.Plan(), desc[..];
    var adj: int, extra: int := n - 1, 0;
    var i := 0;
    while i < n - 1
      invariant 0 <= i <= n - 1 && adj == n - 1 - i
      invariant extra == if i == 0 then 0 else NxtAdj(n, i - 1)
      invariant forall k | 0 <= k < i :: desc[k] == DescAt(p, base, k, was[k])
      invariant forall k | i <= k < n :: desc[k] == was[k]
      invariant cfg.Plan() == p
    {
      if adj > 0 {
        extra := adj - 1;
        if extra > MAX_EXTRA_ADJ {
          extra := MAX_EXTRA_ADJ;
        }
        adj := adj - 1;
      } else {
        extra := 0;
      }
      ghost var before := desc[..];
      WriteLinked(cfg, desc, base, i, extra);
      assert forall k | 0 <= k < n && k != i :: desc[..][k] == before[k];
      i := i + 1;
    }
    ghost var before := desc[..];
    WriteFinal(cfg, desc, base, i, extra);
    assert forall k | 0 <= k < n && k != i :: desc[..][k] == before[k];
    assert desc[..] == Chain(p, base, was);
    cfg.firstDesc, cfg.firstDescPhy := desc, base;
    return true;
  }
}
