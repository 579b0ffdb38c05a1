/** Mapping and unmapping a PCI device (driver/vi53xx_xdma_drv.c), with goto unwinding, against
    a ledger of what the driver holds. Every kernel call that can fail is an oracle in Env. */
module DeviceMap {
  import opened Wrappers
  import opened Ledgers

  const XDMA_BAR_NUM: nat := 6
  const EINVAL := 22

  /** How each fallible call of one xdma_device_map ends, and the lengths of the BARs. */
  datatype Env = Env(allocOk: bool, enableOk: bool, regionsOk: bool, lens: seq<nat>, iomapOk: seq<bool>,
                     mask64Ok: bool, mask32Ok: bool)

  predicate EnvOk(e: Env) {
    |e.lens| == XDMA_BAR_NUM && |e.iomapOk| == XDMA_BAR_NUM
  }

  /** The conversion of a 64-bit length to int. */
  function AsInt(len: nat): int {
    var w := len % 0x1_0000_0000;
    if w < 0x8000_0000 then w else w - 0x1_0000_0000
  }

  /** A BAR does not make the mapping fail: it is absent, or it maps and its length does not turn
      negative as an int. */
  predicate BarOk(e: Env, i: nat)
    requires EnvOk(e) && i < XDMA_BAR_NUM
  {
    e.lens[i] == 0 || (e.iomapOk[i] && AsInt(e.lens[i]) >= 0)
  }

  predicate Succeeds(e: Env)
    requires EnvOk(e)
  {
    e.allocOk && e.enableOk && e.regionsOk
    && (forall i | 0 <= i < XDMA_BAR_NUM :: BarOk(e, i))
    && (e.mask64Ok || e.mask32Ok)
  }

  /** The mapping succeeds exactly when the block, the enable and the regions were obtained, each of the six
      BARs is absent, or mapped and of a length below 2 GiB modulo 4 GiB, and at least one of
      the two DMA masks was accepted. */
  lemma SucceedsByNumber(e: Env)
    requires EnvOk(e)
    ensures Succeeds(e) <==>
              && e.allocOk && e.enableOk && e.regionsOk
              && (forall i | 0 <= i < 6 :: e.lens[i] == 0 || (e.iomapOk[i] && e.lens[i] % 0x1_0000_0000 < 0x8000_0000))
              && !(!e.mask64Ok && !e.mask32Ok)
  {
    forall i | 0 <= i < 6
      ensures BarOk(e, i) <==> e.lens[i] == 0 || (e.iomapOk[i] && e.lens[i] % 0x1_0000_0000 < 0x8000_0000)
    {
      LengthsThatPass(e.lens[i], 0);
    }
  }

  /** Enabling worked but somebody else holds the regions: the device is left enabled. */
  predicate InUse(e: Env) {
    e.allocOk && e.enableOk && !e.regionsOk
  }

  datatype Mapping = Mapping(bar: nat, len: nat)

  /** What is held: bookkeeping blocks, enables, region requests, and live BAR mappings by address. */
  datatype Ledger = Ledger(blocks: int, enables: int, regions: int, live: map<nat, Mapping>)

  /** The kernel's side of one PCI device. */
  class Pci {
    var blocks: int
    var enables: int
    var regions: int
    var live: map<nat, Mapping>
    var next: nat

    ghost predicate Valid()
      reads this
    {
      forall h | h in live :: h < next
    }

    function Held(): Ledger
      reads this
    {
      Ledger(blocks, enables, regions, live)
    }

    constructor ()
      ensures Valid() && Held() == Ledger(0, 0, 0, map[])
    {
      blocks, enables, regions, live, next := 0, 0, 0, map[], 0;
    }

    /** pci_iomap: a fresh address. */
    method Iomap(bar: nat, len: nat, ok: bool) returns (h: Option<nat>)
      requires Valid()
      modifies this
      ensures Valid() && h.Some? == ok
      ensures if ok then h.value !in old(live)
                        && Held() == old(Held()).(live := old(live)[h.value := Mapping(bar, len)])
              else Held() == old(Held())
    {
      if !ok {
        return None;
      }
      h := Some(next);
      live := live[next := Mapping(bar, len)];
      next := next + 1;
    }

    /** pci_iounmap: only a live mapping may be unmapped. */
    method Iounmap(h: nat)
      requires Valid() && h in live
      modifies this
      ensures Valid() && Held() == old(Held()).(live := old(live) - {h})
    {
      live := live - {h};
    }
  }

  /** `struct xdma_dev`, the part that maps the device. */
  class XdmaDev {
    const bar: array<Option<nat>>
    var regionsInUse: bool
    var gotRegions: bool
    ghost var held: map<nat, Hold<nat, Mapping>>

    constructor ()
      ensures fresh(bar) && Tied() && held == map[] && !regionsInUse && !gotRegions
    {
      bar := new Option<nat>[XDMA_BAR_NUM](_ => None);
      regionsInUse, gotRegions, held := false, false, map[];
    }

    /** The entries of the BAR table are what the device holds. */
    ghost predicate Tied()
      reads this, bar
    {
      && bar.Length == XDMA_BAR_NUM
      && (forall i | i in held :: i < XDMA_BAR_NUM && bar[i] == Some(held[i].ptr))
      && (forall i | 0 <= i < XDMA_BAR_NUM && i !in held :: bar[i] == None)
    }

    /** The live mappings are those that were there before and, on top, those of this device. */
    ghost predicate Owns(pci: Pci, before: map<nat, Mapping>)
      reads this, bar, pci
    {
      pci.Valid() && Tied() && Owned(held, pci.live, before)
    }

    /** map_single_bar */
    method MapSingleBar(pci: Pci, idx: nat, len: nat, ok: bool, ghost before: map<nat, Mapping>) returns (r: int)
      requires idx < XDMA_BAR_NUM && Owns(pci, before) && idx !in held
      modifies `held, bar, pci
      ensures Owns(pci, before)
      ensures if len != 0 && ok then idx in held && held == old(held)[idx := Hold(held[idx].ptr, Mapping(idx, len))]
              else held == old(held)
      ensures r == if len == 0 then 0 else if !ok then -1 else AsInt(len)
      ensures pci.Held() == old(pci.Held()).(live := pci.live)
    {
      hide Owned;
      bar[idx] := None;
      if len == 0 {
        return 0;
      }
      ghost var live := pci.live;
      var h := pci.Iomap(idx, len, ok);
      bar[idx] := h;
      if h.None? {
        return -1;
      }
      PutHold(held, live, before, idx, Hold(h.value, Mapping(idx, len)));
      held := held[idx := Hold(h.value, Mapping(idx, len))];
      return AsInt(len);
    }

    /** unmap_bars */
    method UnmapBars(pci: Pci, ghost before: map<nat, Mapping>)
      requires Owns(pci, before)
      modifies `held, bar, pci
      ensures Owns(pci, before) && held == map[] && pci.Held() == old(pci.Held()).(live := before)
    {
      hide Owned;
      for i: nat := 0 to XDMA_BAR_NUM
        invariant Owns(pci, before)
        invariant forall j | 0 <= j < i :: j !in held
        invariant pci.Held() == old(pci.Held()).(live := pci.live)
      {
        if bar[i].Some? {
          HeldIsLive(held, pci.live, before, i);
          DropHold(held, pci.live, before, i);
          pci.Iounmap(bar[i].value);
          bar[i] := None;
          held := held - {i};
        }
      }
      NothingHeld(held, pci.live, before);
    }

    /** What is held after a successful mapping: every present BAR, at its full length. */
    ghost predicate Mapped(e: Env)
      requires EnvOk(e)
      reads this
    {
      (forall i | 0 <= i < XDMA_BAR_NUM :: i in held <==> e.lens[i] != 0)
      && (forall i | i in held :: i < XDMA_BAR_NUM && held[i].block == Mapping(i, e.lens[i]))
    }

    /** map_bars */
    method MapBars(pci: Pci, e: Env, ghost before: map<nat, Mapping>) returns (r: int)
      requires EnvOk(e) && Owns(pci, before) && held == map[]
      modifies `held, bar, pci
      ensures Owns(pci, before)
      ensures r == if forall i | 0 <= i < XDMA_BAR_NUM :: BarOk(e, i) then 0 else -22
      ensures if r == 0 then Mapped(e) else held == map[] && pci.live == before
      ensures pci.Held() == old(pci.Held()).(live := pci.live)
    {
      hide Owned;
      for i := 0 to XDMA_BAR_NUM
        invariant Owns(pci, before)
        invariant forall j | 0 <= j < i :: BarOk(e, j) && (j in held <==> e.lens[j] != 0)
        invariant forall j | j in held :: j < i && held[j].block == Mapping(j, e.lens[j])
        invariant pci.Held() == old(pci.Held()).(live := pci.live)
      {
        var len := MapSingleBar(pci, i, e.lens[i], e.iomapOk[i], before);
        if len < 0 {
          UnmapBars(pci, before);
          assert !BarOk(e, i);
          return -EINVAL;
        }
      }
      return 0;
    }
  }

  /** request_regions */
  method RequestRegions(x: XdmaDev, pci: Pci, ok: bool) returns (r: int)
    requires pci.Valid()
    modifies x`regionsInUse, x`gotRegions, pci
    ensures pci.Valid() && r == (if ok then 0 else -22)
    ensures x.regionsInUse == (old(x.regionsInUse) || !ok) && x.gotRegions == (old(x.gotRegions) || ok)
    ensures pci.Held() == if ok then old(pci.Held()).(regions := old(pci.regions) + 1) else old(pci.Held())
  {
    if !ok {
      x.regionsInUse := true;
      return -EINVAL;
    }
    pci.regions := pci.regions + 1;
    x.gotRegions := true;
    return 0;
  }

  /** xdma_device_map. It returns a device exactly when nothing failed, and then holds one block,
      one enable, the regions and every present BAR; otherwise it holds nothing it took, except
      that a device whose regions are in use by somebody else stays enabled. */
  method DeviceMap(pci: Pci, e: Env) returns (x: XdmaDev?)
    requires EnvOk(e) && pci.Valid()
    modifies pci
    ensures pci.Valid() && (x != null <==> Succeeds(e)) && (x != null ==> fresh(x) && fresh(x.bar))
    ensures x != null ==> x.Owns(pci, old(pci.live)) && x.Mapped(e) && x.gotRegions && !x.regionsInUse
    ensures x != null ==>
              pci.Held() == Ledger(old(pci.blocks) + 1, old(pci.enables) + 1, old(pci.regions) + 1, pci.live)
    ensures x == null ==>
              pci.Held() == if InUse(e) then old(pci.Held()).(enables := old(pci.enables) + 1) else old(pci.Held())
  {
    hide Owned;
    ghost var before := pci.live;
    if !e.allocOk {
      return null;
    }
    pci.blocks := pci.blocks + 1;
    x := new XdmaDev();
    NothingYet(x.held, before);
    if e.enableOk {
      pci.enables := pci.enables + 1;
      var r := RequestRegions(x, pci, e.regionsOk);
      if r == 0 {
        r := x.MapBars(pci, e, before);
        if r == 0 {
          if e.mask64Ok || e.mask32Ok {
            return x;
          }
          x.UnmapBars(pci, before);
        }
        if x.gotRegions {
          pci.regions := pci.regions - 1;
        }
      }
      if !x.regionsInUse {
        pci.enables := pci.enables - 1;
      }
    }
    pci.blocks := pci.blocks - 1;
    return null;
  }

  /** xdma_device_umap of a mapped device gives everything back; every mapping is unmapped once,
      since Iounmap accepts only live ones. */
  method DeviceUmap(pci: Pci, x: XdmaDev?, ghost before: map<nat, Mapping>)
    requires x != null ==> x.Owns(pci, before)
    modifies pci, if x == null then {} else {x, x.bar}
    ensures x == null ==> pci.Held() == old(pci.Held())
    ensures x != null ==>
              && pci.Valid()
              && x.Tied() && x.held == map[]
              && pci.Held() == Ledger(old(pci.blocks) - 1,
                                      old(pci.enables) - (if old(x.regionsInUse) then 0 else 1),
                                      old(pci.regions) - (if old(x.gotRegions) then 1 else 0), before)
  {
    hide Owned;
    if x == null {
      return;
    }
    x.UnmapBars(pci, before);
    if x.gotRegions {
      pci.regions := pci.regions - 1;
    }
    if !x.regionsInUse {
      pci.enables := pci.enables - 1;
    }
    pci.blocks := pci.blocks - 1;
  }

  /** Map and unmap, however the mapping ends: the ledger is back where it was, but for the enable
      of a device that was in use. */
  method MapThenUmap(pci: Pci, e: Env)
    requires EnvOk(e) && pci.Valid()
    modifies pci
    ensures pci.Held() == if InUse(e) then old(pci.Held()).(enables := old(pci.enables) + 1) else old(pci.Held())
  {
    ghost var before := pci.live;
    var x := DeviceMap(pci, e);
    DeviceUmap(pci, x, before);
  }

  /** Two's complement: the int is the one congruent to the length modulo 2^32 in the int's range, so
      the lengths that do not turn negative are those below 2^31 modulo 2^32. A 2 GiB BAR makes the
      mapping fail, a 4 GiB one does not. */
  lemma LengthsThatPass(len: nat, x: int)
    ensures x == AsInt(len) <==> -0x8000_0000 <= x < 0x8000_0000 && (len - x) % 0x1_0000_0000 == 0
    ensures AsInt(len) >= 0 <==> len % 0x1_0000_0000 < 0x8000_0000
    ensures AsInt(0x8000_0000) < 0 && AsInt(0x1_0000_0000) == 0
  {
    var q, w := len / 0x1_0000_0000, len % 0x1_0000_0000;
    assert len == q * 0x1_0000_0000 + w;
  }
}
