/** The channel operations of driver/libxdma.c on the registers of BAR 1: each channel and
    direction has its own five registers, all share the mode-enable register. */
module Channels {
  import opened Wrappers
  import opened Bits
  import opened Descriptors
  import opened Engine

  const H2C_CONTROL: nat := 0x0004
  const C2H_CONTROL: nat := 0x1004
  const H2C_SGDMA: nat := 0x4080
  const C2H_SGDMA: nat := 0x5080
  const MODE_EN: nat := 0x6020
  const POLL_ENABLE: Word := 0x400_0004
  const ENGINE_START: Word := 0x400_0005
  const DMA_STOP: Word := 0

  type Registers = map<int, Word>

  function Read(m: Registers, a: int): Word {
    if a in m then m[a] else 0
  }

  /** A channel in one direction; the driver numbers channels from 1. */
  datatype Pair = Pair(channel: nat, c2h: bool)

  predicate PairOk(p: Pair) {
    1 <= p.channel <= 15
  }

  datatype Register = Control | Low | High | Adjacent | Add

  /** Where a register of a pair is. */
  function At(p: Pair, r: Register): int
    requires PairOk(p)
  {
    (p.channel - 1) * 0x100 +
    match r
    case Control => if p.c2h then C2H_CONTROL else H2C_CONTROL
    case Low => if p.c2h then C2H_SGDMA else H2C_SGDMA
    case High => (if p.c2h then C2H_SGDMA else H2C_SGDMA) + 4
    case Adjacent => (if p.c2h then C2H_SGDMA else H2C_SGDMA) + 8
    case Add => (if p.c2h then C2H_SGDMA else H2C_SGDMA) + 0xC
  }

  /** The bit of the pair in the mode-enable register. */
  function ModeBit(p: Pair): nat
    requires PairOk(p)
  {
    p.channel - 1 + if p.c2h then 16 else 0
  }

  datatype Op =
    | PollInit(pair: Pair)
    | Stop(pair: Pair)
    | StartEngine(pair: Pair)
    | StartDesc(pair: Pair, count: Byte)
    | Configure(pair: Pair, count: Byte, firstDesc: Address)

  /** Configuring more than one descriptor turns crediting on for the pair. */
  predicate Enables(op: Op) {
    op.Configure? && op.count > 1
  }

  function Apply(m: Registers, op: Op): Registers
    requires PairOk(op.pair)
  {
    var p := op.pair;
    match op
    case PollInit(_) =>
      OrBound32(Read(m, At(p, Control)), POLL_ENABLE);
      m[At(p, Control) := Or(Read(m, At(p, Control)), POLL_ENABLE)]
    case Stop(_) => m[At(p, Control) := DMA_STOP]
    case StartEngine(_) => m[At(p, Control) := ENGINE_START]
    case StartDesc(_, count) => if count > 1 then m[At(p, Add) := count] else m
    case Configure(_, count, firstDesc) =>
      ModeBound(m, p);
      var m1 := if count > 1 then m[MODE_EN := Or(Read(m, MODE_EN), Pow2(ModeBit(p)))] else m;
      var m2 := m1[At(p, Low) := Lo(firstDesc)][At(p, High) := Hi(firstDesc)][At(p, Adjacent) := (count - 1) % U32];
      if count > 1 then m2[At(p, Add) := count] else m2
  }

  function Run(m: Registers, ops: seq<Op>): Registers
    requires forall op | op in ops :: PairOk(op.pair)
    decreases |ops|
  {
    if ops == [] then m else Run(Apply(m, ops[0]), ops[1..])
  }

  lemma OrBound32(a: Word, b: Word)
    ensures Or(a, b) < U32
  {
    Pow32();
    OrBound(a, b, 32);
  }

  lemma Pow32()
    ensures Pow2(32) == U32
  {
    assert Pow2(8) == 256 && Pow2(16) == 0x1_0000 by { PowersOfTwo(); }
    assert Pow2(20) == 16 * Pow2(16);
    assert Pow2(24) == 16 * Pow2(20);
    assert Pow2(28) == 16 * Pow2(24);
    assert Pow2(32) == 16 * Pow2(28);
  }

  lemma ModeBound(m: Registers, p: Pair)
    requires PairOk(p)
    ensures Or(Read(m, MODE_EN), Pow2(ModeBit(p))) < U32
  {
    hide Pow2;
    Pow32();
    Pow2Monotone(ModeBit(p) + 1, 32);
    assert Pow2(ModeBit(p)) < Pow2(32) by { Doubles(ModeBit(p)); }
    OrBound(Read(m, MODE_EN), Pow2(ModeBit(p)), 32);
  }

  lemma Doubles(k: nat)
    ensures Pow2(k) < Pow2(k + 1)
  {
  }

  // ----- separation

  /** The registers of different pairs, and of one pair, all have different addresses. */
  lemma Separate(p: Pair, r: Register, q: Pair, t: Register)
    requires PairOk(p) && PairOk(q)
    ensures At(p, r) == At(q, t) <==> p == q && r == t
    ensures At(p, r) != MODE_EN
  {
  }

  lemma ModeBitsDistinct(p: Pair, q: Pair)
    requires PairOk(p) && PairOk(q)
    ensures ModeBit(p) == ModeBit(q) <==> p == q
    ensures ModeBit(p) < 32
  {
  }

  ghost predicate Agree(m: Registers, n: Registers, p: Pair)
    requires PairOk(p)
  {
    forall r: Register :: Read(m, At(p, r)) == Read(n, At(p, r))
  }

  /** The operations on one pair. */
  function Own(ops: seq<Op>, p: Pair): (r: seq<Op>)
    ensures forall op | op in r :: op in ops && op.pair == p
  {
    if ops == [] then [] else (if ops[0].pair == p then [ops[0]] else []) + Own(ops[1..], p)
  }

  lemma ForeignApply(m: Registers, op: Op, p: Pair)
    requires PairOk(op.pair) && PairOk(p) && op.pair != p
    ensures Agree(Apply(m, op), m, p)
  {
    hide At;
    forall r: Register
      ensures Read(Apply(m, op), At(p, r)) == Read(m, At(p, r))
    {
      Separate(p, r, op.pair, Control);
      Separate(p, r, op.pair, Low);
      Separate(p, r, op.pair, High);
      Separate(p, r, op.pair, Adjacent);
      Separate(p, r, op.pair, Add);
    }
  }

  lemma OwnApply(m: Registers, n: Registers, op: Op)
    requires PairOk(op.pair) && Agree(m, n, op.pair)
    ensures Agree(Apply(m, op), Apply(n, op), op.pair)
  {
    hide At, Or;
    var p := op.pair;
    forall r: Register
      ensures Read(Apply(m, op), At(p, r)) == Read(Apply(n, op), At(p, r))
    {
      Separate(p, r, p, Control);
      Separate(p, r, p, Low);
      Separate(p, r, p, High);
      Separate(p, r, p, Adjacent);
      Separate(p, r, p, Add);
    }
  }

  /** Non-interference: over every sequence of operations, the registers of a pair are what the
      pair's own operations alone make them. */
  lemma {:induction false} OthersDoNotMatter(m: Registers, n: Registers, ops: seq<Op>, p: Pair)
    requires PairOk(p) && (forall op | op in ops :: PairOk(op.pair)) && Agree(m, n, p)
    ensures Agree(Run(m, ops), Run(n, Own(ops, p)), p)
    decreases |ops|
  {
    hide Apply, Agree, At;
    if ops != [] {
      var op := ops[0];
      if op.pair == p {
        OwnApply(m, n, op);
        assert Own(ops, p)[1..] == Own(ops[1..], p);
        OthersDoNotMatter(Apply(m, op), Apply(n, op), ops[1..], p);
      } else {
        ForeignApply(m, op, p);
        AgreeThrough(Apply(m, op), m, n, p);
        assert Own(ops, p) == Own(ops[1..], p);
        OthersDoNotMatter(Apply(m, op), n, ops[1..], p);
      }
    }
  }

  lemma AgreeThrough(a: Registers, b: Registers, c: Registers, p: Pair)
    requires PairOk(p) && Agree(a, b, p) && Agree(b, c, p)
    ensures Agree(a, c, p)
  {
  }

  lemma ApplyMode(m: Registers, op: Op, k: nat)
    requires PairOk(op.pair)
    ensures Bit(Read(Apply(m, op), MODE_EN), k) <==>
            Bit(Read(m, MODE_EN), k) || (Enables(op) && k == ModeBit(op.pair))
  {
    hide At, Or, Bit, Pow2;
    var p := op.pair;
    Separate(p, Control, p, Control);
    Separate(p, Low, p, Control);
    Separate(p, High, p, Control);
    Separate(p, Adjacent, p, Control);
    Separate(p, Add, p, Control);
    BitOfOr(Read(m, MODE_EN), Pow2(ModeBit(p)), k);
    BitOfPow2(ModeBit(p), k);
  }

  ghost predicate EverEnabled(ops: seq<Op>, k: nat)
    requires forall op | op in ops :: PairOk(op.pair)
  {
    exists i :: 0 <= i < |ops| && Enables(ops[i]) && ModeBit(ops[i].pair) == k
  }

  /** The mode-enable register holds exactly the bits it had and those of the pairs ever
      configured with more than one descriptor; nothing clears a bit. */
  lemma {:induction false} ModeExact(m: Registers, ops: seq<Op>, k: nat)
    requires forall op | op in ops :: PairOk(op.pair)
    ensures Bit(Read(Run(m, ops), MODE_EN), k) <==> Bit(Read(m, MODE_EN), k) || EverEnabled(ops, k)
    decreases |ops|
  {
    hide Apply, Bit;
    if ops != [] {
      ApplyMode(m, ops[0], k);
      ModeExact(Apply(m, ops[0]), ops[1..], k);
      if EverEnabled(ops[1..], k) {
        var i :| 0 <= i < |ops[1..]| && Enables(ops[1..][i]) && ModeBit(ops[1..][i].pair) == k;
        assert Enables(ops[i + 1]);
      }
      if EverEnabled(ops, k) {
        var i :| 0 <= i < |ops| && Enables(ops[i]) && ModeBit(ops[i].pair) == k;
        assert i == 0 || Enables(ops[1..][i - 1]);
      }
    }
  }

  // ----- descriptor credits

  /** Crediting is on for the pair: its engine needs a credit for every descriptor. */
  predicate CreditMode(m: Registers, p: Pair)
    requires PairOk(p)
  {
    Bit(Read(m, MODE_EN), ModeBit(p))
  }

  /** Over every run, a pair is in credit mode exactly when it was, or was ever configured with
      more than one descriptor. */
  lemma CreditModeExact(m: Registers, ops: seq<Op>, p: Pair)
    requires PairOk(p) && forall op | op in ops :: PairOk(op.pair)
    ensures CreditMode(Run(m, ops), p) <==> CreditMode(m, p) || exists op :: op in ops && op.pair == p && Enables(op)
  {
    hide Bit, Run, ModeBit;
    ModeExact(m, ops, ModeBit(p));
    if EverEnabled(ops, ModeBit(p)) {
      var i :| 0 <= i < |ops| && Enables(ops[i]) && ModeBit(ops[i].pair) == ModeBit(p);
      ModeBitsDistinct(ops[i].pair, p);
      assert ops[i] in ops;
    }
    if op :| op in ops && op.pair == p && Enables(op) {
      var i :| 0 <= i < |ops| && ops[i] == op;
    }
  }

  /** The Run bit of the pair's control register. */
  predicate Runs(m: Registers, p: Pair)
    requires PairOk(p)
  {
    Bit(Read(m, At(p, Control)), 0)
  }

  /** One register write. */
  datatype Access = Access(address: int, val: Word)

  /** The writes of an operation on registers m, in order. */
  function Writes(m: Registers, op: Op): (ws: seq<Access>)
    requires PairOk(op.pair)
  {
    var p := op.pair;
    match op
    case PollInit(_) =>
      OrBound32(Read(m, At(p, Control)), POLL_ENABLE);
      [Access(At(p, Control), Or(Read(m, At(p, Control)), POLL_ENABLE))]
    case Stop(_) => [Access(At(p, Control), DMA_STOP)]
    case StartEngine(_) => [Access(At(p, Control), ENGINE_START)]
    case StartDesc(_, count) => if count > 1 then [Access(At(p, Add), count)] else []
    case Configure(_, count, firstDesc) =>
      ModeBound(m, p);
      (if count > 1 then [Access(MODE_EN, Or(Read(m, MODE_EN), Pow2(ModeBit(p))))] else [])
      + [Access(At(p, Low), Lo(firstDesc)), Access(At(p, High), Hi(firstDesc)),
         Access(At(p, Adjacent), (count - 1) % U32)]
      + (if count > 1 then [Access(At(p, Add), count)] else [])
  }

  function WriteAll(m: Registers, ws: seq<Access>): Registers
    decreases |ws|
  {
    if ws == [] then m else WriteAll(m[ws[0].address := ws[0].val], ws[1..])
  }

  /** What one write does to the credits of p, as the credit registers of PG195 do: in credit mode a write
      to the pair's credit register adds credits; turning the mode on, and the fall of the Run bit,
      clear them. While the pair runs, its engine uses them; the fall clears what is left. */
  function OnWrite(m: Registers, left: nat, w: Access, p: Pair): nat
    requires PairOk(p)
  {
    var after := m[w.address := w.val];
    if (Runs(m, p) && !Runs(after, p)) || (CreditMode(after, p) && !CreditMode(m, p)) then 0
    else if w.address == At(p, Add) && CreditMode(m, p) then left + w.val
    else left
  }

  function OnWrites(m: Registers, left: nat, ws: seq<Access>, p: Pair): nat
    requires PairOk(p)
    decreases |ws|
  {
    if ws == [] then left else OnWrites(m[ws[0].address := ws[0].val], OnWrite(m, left, ws[0], p), ws[1..], p)
  }

  /** The credits of p after an operation on registers m. */
  function Lend(m: Registers, left: nat, op: Op, p: Pair): nat
    requires PairOk(op.pair) && PairOk(p)
  {
    OnWrites(m, left, Writes(m, op), p)
  }

  function Lent(m: Registers, left: nat, ops: seq<Op>, p: Pair): nat
    requires PairOk(p) && forall op | op in ops :: PairOk(op.pair)
    decreases |ops|
  {
    if ops == [] then left else Lent(Apply(m, ops[0]), Lend(m, left, ops[0], p), ops[1..], p)
  }

  lemma ThreeWrites(m: Registers, left: nat, a: Access, b: Access, c: Access, p: Pair)
    requires PairOk(p)
    ensures WriteAll(m, [a, b, c]) == m[a.address := a.val][b.address := b.val][c.address := c.val]
    ensures var m1 := m[a.address := a.val];
            var m2 := m1[b.address := b.val];
            OnWrites(m, left, [a, b, c], p) == OnWrite(m2, OnWrite(m1, OnWrite(m, left, a, p), b, p), c, p)
  {
    hide OnWrite;
    assert [a, b, c][1..] == [b, c] && [b, c][1..] == [c] && [c][1..] == [];
    var m1 := m[a.address := a.val];
    var m2 := m1[b.address := b.val];
    var l1 := OnWrite(m, left, a, p);
    assert OnWrites(m, left, [a, b, c], p) == OnWrites(m1, l1, [b, c], p);
    assert OnWrites(m1, l1, [b, c], p) == OnWrites(m2, OnWrite(m1, l1, b, p), [c], p);
    assert WriteAll(m, [a, b, c]) == WriteAll(m1, [b, c]) == WriteAll(m2, [c]);
    OneWrite(m2, OnWrite(m1, l1, b, p), c, p);
  }

  lemma {:induction false} WritesAppend(m: Registers, left: nat, a: seq<Access>, b: seq<Access>, p: Pair)
    requires PairOk(p)
    ensures WriteAll(m, a + b) == WriteAll(WriteAll(m, a), b)
    ensures OnWrites(m, left, a + b, p) == OnWrites(WriteAll(m, a), OnWrites(m, left, a, p), b, p)
    decreases |a|
  {
    hide OnWrite;
    if a == [] {
      assert a + b == b;
    } else {
      assert (a + b)[1..] == a[1..] + b;
      WritesAppend(m[a[0].address := a[0].val], OnWrite(m, left, a[0], p), a[1..], b, p);
    }
  }

  lemma OneWrite(m: Registers, left: nat, w: Access, p: Pair)
    requires PairOk(p)
    ensures WriteAll(m, [w]) == m[w.address := w.val] && OnWrites(m, left, [w], p) == OnWrite(m, left, w, p)
  {
    assert [w][1..] == [];
  }

  /** A write anywhere else leaves the credits alone. */
  lemma OtherWrite(m: Registers, left: nat, w: Access, p: Pair)
    requires PairOk(p) && w.address != At(p, Control) && w.address != At(p, Add) && w.address != MODE_EN
    ensures OnWrite(m, left, w, p) == left
  {
    hide Bit, At;
  }

  /** An operation is its writes. */
  lemma ApplyWrites(m: Registers, op: Op)
    requires PairOk(op.pair)
    ensures Apply(m, op) == WriteAll(m, Writes(m, op))
  {
    hide Or, At;
    var p := op.pair;
    if op.Configure? {
      ModeBound(m, p);
      ConfigureWrites(m, 0, op, p);
    } else if Writes(m, op) != [] {
      OneWrite(m, 0, Writes(m, op)[0], p);
    }
  }

  lemma ConfigureWrites(m: Registers, left: nat, op: Op, p: Pair)
    requires PairOk(op.pair) && PairOk(p) && op.Configure?
    ensures Apply(m, op) == WriteAll(m, Writes(m, op))
    ensures Lend(m, left, op, p) ==
              if op.pair == p && op.count > 1 then (if CreditMode(m, p) then left else 0) + op.count else left
  {
    hide Or, Bit, At, Pow2, OnWrites, WriteAll, OnWrite;
    var q, n := op.pair, op.count;
    ModeBound(m, q);
    var mode := [Access(MODE_EN, Or(Read(m, MODE_EN), Pow2(ModeBit(q))))];
    var start := [Access(At(q, Low), Lo(op.firstDesc)), Access(At(q, High), Hi(op.firstDesc)),
                  Access(At(q, Adjacent), (n - 1) % U32)];
    var add := [Access(At(q, Add), n)];
    var m1 := if n > 1 then m[MODE_EN := mode[0].val] else m;
    var l1 := if n > 1 then OnWrites(m, left, mode, p) else left;
    ThreeWrites(m1, l1, start[0], start[1], start[2], p);
    StartWrites(m1, l1, q, start[0].val, start[1].val, start[2].val, p);
    var m2 := WriteAll(m1, start);
    if n > 1 {
      assert Writes(m, op) == mode + (start + add);
      WritesAppend(m, left, mode, start + add, p);
      WritesAppend(m1, l1, start, add, p);
      OneWrite(m, left, mode[0], p);
      OneWrite(m2, l1, add[0], p);
      ModeWrite(m, left, q, p);
      assert Read(m2, MODE_EN) == Read(m1, MODE_EN) by { ModeApart(q); }
      AddWrite(m2, l1, q, n, p);
    } else {
      assert Writes(m, op) == start;
    }
  }

  lemma ModeApart(p: Pair)
    requires PairOk(p)
    ensures forall r: Register :: At(p, r) != MODE_EN
  {
  }

  lemma StartWrites(m: Registers, left: nat, q: Pair, low: Word, high: Word, adjacent: Word, p: Pair)
    requires PairOk(p) && PairOk(q)
    ensures var m1 := m[At(q, Low) := low];
            var m2 := m1[At(q, High) := high];
            OnWrite(m2, OnWrite(m1, OnWrite(m, left, Access(At(q, Low), low), p), Access(At(q, High), high), p),
                    Access(At(q, Adjacent), adjacent), p) == left
  {
    hide OnWrite, At;
    var m1 := m[At(q, Low) := low];
    var m2 := m1[At(q, High) := high];
    forall r: Register | r == Low || r == High || r == Adjacent
      ensures At(q, r) != At(p, Control) && At(q, r) != At(p, Add) && At(q, r) != MODE_EN
    {
      Separate(q, r, p, Control);
      Separate(q, r, p, Add);
    }
    OtherWrite(m, left, Access(At(q, Low), low), p);
    OtherWrite(m1, left, Access(At(q, High), high), p);
    OtherWrite(m2, left, Access(At(q, Adjacent), adjacent), p);
  }

  /** Turning on the mode of pair q. */
  lemma ModeWrite(m: Registers, left: nat, q: Pair, p: Pair)
    requires PairOk(p) && PairOk(q) && Or(Read(m, MODE_EN), Pow2(ModeBit(q))) < U32
    ensures var w := Access(MODE_EN, Or(Read(m, MODE_EN), Pow2(ModeBit(q))));
            && OnWrite(m, left, w, p) == (if p == q && !CreditMode(m, p) then 0 else left)
            && (CreditMode(m[w.address := w.val], p) <==> CreditMode(m, p) || p == q)
  {
    hide Or, Bit, Pow2, At, ModeBit;
    Separate(p, Control, p, Add);
    Separate(p, Add, p, Add);
    BitOfOr(Read(m, MODE_EN), Pow2(ModeBit(q)), ModeBit(p));
    BitOfPow2(ModeBit(q), ModeBit(p));
    ModeBitsDistinct(p, q);
  }

  /** Writing the credit register of pair q. */
  lemma AddWrite(m: Registers, left: nat, q: Pair, n: Word, p: Pair)
    requires PairOk(p) && PairOk(q)
    ensures OnWrite(m, left, Access(At(q, Add), n), p) == if p == q && CreditMode(m, p) then left + n else left
  {
    hide Bit, At;
    Separate(q, Add, p, Control);
    Separate(q, Add, p, Add);
  }

  /** Writing the control register of pair q. */
  lemma ControlWrite(m: Registers, left: nat, q: Pair, val: Word, p: Pair)
    requires PairOk(p) && PairOk(q)
    ensures OnWrite(m, left, Access(At(q, Control), val), p) == if p == q && Runs(m, p) && !Bit(val, 0) then 0 else left
  {
    hide Bit, At;
    Separate(q, Control, p, Control);
    Separate(q, Control, p, Add);
  }

  /** An operation that grants credits. */
  predicate Grants(op: Op) {
    (op.StartDesc? || op.Configure?) && op.count > 1
  }

  /** What the register writes of an operation come to, for the credits of p. */
  lemma LendExact(m: Registers, left: nat, op: Op, p: Pair)
    requires PairOk(op.pair) && PairOk(p)
    ensures Lend(m, left, op, p) ==
              if op.pair != p then left
              else if op.Stop? && Runs(m, p) then 0
              else if op.Configure? && op.count > 1 then (if CreditMode(m, p) then left else 0) + op.count
              else if op.StartDesc? && op.count > 1 && CreditMode(m, p) then left + op.count
              else left
  {
    hide Or, At, CreditMode, OnWrite, OnWrites, Runs;
    var q := op.pair;
    if op.Configure? {
      ConfigureWrites(m, left, op, p);
    } else if op.StartDesc? && op.count <= 1 {
      assert OnWrites(m, left, [], p) == left by { NoWrites(m, left, p); }
    } else {
      var w := Writes(m, op)[0];
      OneWrite(m, left, w, p);
      if op.StartDesc? {
        AddWrite(m, left, q, op.count, p);
      } else {
        ControlWrite(m, left, q, w.val, p);
        ControlValue(m, op);
      }
    }
  }

  lemma NoWrites(m: Registers, left: nat, p: Pair)
    requires PairOk(p)
    ensures OnWrites(m, left, [], p) == left
  {
  }

  lemma ControlValue(m: Registers, op: Op)
    requires PairOk(op.pair) && (op.PollInit? || op.Stop? || op.StartEngine?)
    ensures Bit(Writes(m, op)[0].val, 0) <==> op.StartEngine? || (op.PollInit? && Runs(m, op.pair))
  {
    hide Or, At;
    BitOfOr(Read(m, At(op.pair, Control)), POLL_ENABLE, 0);
  }

  lemma ApplyRunBit(m: Registers, op: Op, p: Pair)
    requires PairOk(op.pair) && PairOk(p)
    ensures Runs(Apply(m, op), p) <==>
              if op.pair == p && op.StartEngine? then true
              else if op.pair == p && op.Stop? then false
              else Runs(m, p)
  {
    hide At, Or, Pow2;
    Separate(p, Control, op.pair, Control);
    Separate(p, Control, op.pair, Low);
    Separate(p, Control, op.pair, High);
    Separate(p, Control, op.pair, Adjacent);
    Separate(p, Control, op.pair, Add);
    BitOfOr(Read(m, At(p, Control)), POLL_ENABLE, 0);
  }

  /** Whether the last start or stop of p was a start. */
  predicate Started(ops: seq<Op>, p: Pair, was: bool) {
    if ops == [] then was
    else
      var last := ops[|ops| - 1];
      if last == StartEngine(p) then true
      else if last == Op.Stop(p) then false
      else Started(ops[..|ops| - 1], p, was)
  }

  /** Over every run the Run bit of a pair is set exactly when its last start or stop was a start. */
  lemma {:induction false} RunBitExact(m: Registers, ops: seq<Op>, p: Pair)
    requires PairOk(p) && forall op | op in ops :: PairOk(op.pair)
    ensures Runs(Run(m, ops), p) <==> Started(ops, p, Runs(m, p))
    decreases |ops|
  {
    hide Apply, Runs;
    if ops != [] {
      var n := |ops| - 1;
      RunBitExact(m, ops[..n], p);
      assert ops[..n] + [ops[n]] == ops;
      LentAppend(m, 0, ops[..n], [ops[n]], p);
      assert [ops[n]][1..] == [] && Run(Run(m, ops[..n]), [ops[n]]) == Apply(Run(m, ops[..n]), ops[n]);
      ApplyRunBit(Run(m, ops[..n]), ops[n], p);
    }
  }

  lemma {:induction false} LentAppend(m: Registers, left: nat, a: seq<Op>, b: seq<Op>, p: Pair)
    requires PairOk(p) && PairsOk(a) && PairsOk(b)
    ensures Run(m, a + b) == Run(Run(m, a), b)
    ensures Lent(m, left, a + b, p) == Lent(Run(m, a), Lent(m, left, a, p), b, p)
    decreases |a|
  {
    hide Apply, Lend;
    if a == [] {
      assert a + b == b;
    } else {
      assert (a + b)[1..] == a[1..] + b;
      LentAppend(Apply(m, a[0]), Lend(m, left, a[0], p), a[1..], b, p);
    }
  }

  predicate PairsOk(ops: seq<Op>) {
    forall op | op in ops :: PairOk(op.pair)
  }

  /** The credits that operations grant the pair. */
  function Total(ops: seq<Op>, p: Pair): nat {
    if ops == [] then 0 else (if ops[0].pair == p && Grants(ops[0]) then ops[0].count else 0) + Total(ops[1..], p)
  }

  /** In credit mode, while the engine is stopped and not started, every credit granted is kept. */
  lemma {:induction false} CreditsAddUp(m: Registers, left: nat, ops: seq<Op>, p: Pair)
    requires PairOk(p) && PairsOk(ops) && CreditMode(m, p) && !Runs(m, p)
    requires forall op | op in ops && op.pair == p :: !op.StartEngine?
    ensures Lent(m, left, ops, p) == left + Total(ops, p) && !Runs(Run(m, ops), p)
    decreases |ops|
  {
    hide Apply, CreditMode, Lend, Runs;
    if ops != [] {
      StaysInCreditMode(m, ops[0], p);
      ApplyRunBit(m, ops[0], p);
      LendExact(m, left, ops[0], p);
      CreditsAddUp(Apply(m, ops[0]), Lend(m, left, ops[0], p), ops[1..], p);
    }
  }

  lemma StaysInCreditMode(m: Registers, op: Op, p: Pair)
    requires PairOk(p) && PairOk(op.pair)
    ensures CreditMode(m, p) || (op.pair == p && Enables(op)) ==> CreditMode(Apply(m, op), p)
  {
    hide Apply, Bit;
    ApplyMode(m, op, ModeBit(p));
  }

  // ----- what a configuration starts

  /** The start registers of a pair say where the chain is. */
  ghost predicate Programmed(m: Registers, p: Pair, count: Byte, firstDesc: Address)
    requires PairOk(p)
  {
    && Read(m, At(p, Low)) == Lo(firstDesc)
    && Read(m, At(p, High)) == Hi(firstDesc)
    && Read(m, At(p, Adjacent)) as int == (count - 1) % U32
  }

  lemma ConfigureProgramsPair(m: Registers, p: Pair, count: Byte, firstDesc: Address)
    requires PairOk(p)
    ensures Programmed(Apply(m, Configure(p, count, firstDesc)), p, count, firstDesc)
    ensures count > 1 ==> Read(Apply(m, Configure(p, count, firstDesc)), At(p, Add)) == count
  {
  }

  lemma {:induction false} StaysProgrammed(m: Registers, ops: seq<Op>, p: Pair, count: Byte, firstDesc: Address)
    requires PairOk(p) && (forall op | op in ops :: PairOk(op.pair)) && Programmed(m, p, count, firstDesc)
    requires forall op | op in ops && op.pair == p :: !op.Configure?
    ensures Programmed(Run(m, ops), p, count, firstDesc)
    decreases |ops|
  {
    hide Apply, At;
    if ops != [] {
      if ops[0].pair == p {
        OtherOpsKeep(m, ops[0]);
      } else {
        ForeignApply(m, ops[0], p);
      }
      StaysProgrammed(Apply(m, ops[0]), ops[1..], p, count, firstDesc);
    }
  }

  lemma OtherOpsKeep(m: Registers, op: Op)
    requires PairOk(op.pair) && !op.Configure?
    ensures forall r: Register | r.Low? || r.High? || r.Adjacent? ::
              Read(Apply(m, op), At(op.pair, r)) == Read(m, At(op.pair, r))
  {
    hide Or;
  }

  /** An engine started from a pair's registers; without crediting it needs no credits. */
  function StartPair(block: Block, m: Registers, left: nat, p: Pair): EngineState
    requires PairOk(p)
  {
    Start(block, Read(m, At(p, Low)), Read(m, At(p, High)), Read(m, At(p, Adjacent)),
          if CreditMode(m, p) then Some(left) else None)
  }

  /** From the registers to the moves: after a configuration of the pair and any later operations but
      another one, an engine that is started runs the compiled chain to its end exactly when
      crediting is off for the pair or the credits reach the number of descriptors; otherwise it
      stalls after as many descriptors as it has credits. (A start is one of an engine that is not running.) */
  lemma ConfiguredChainRuns(m: Registers, left: nat, ops: seq<Op>, p: Pair, plan: Plan, base: Address,
                            was: seq<Desc>, block: Block, cuts: seq<bool>)
    requires PairOk(p) && PairsOk(ops) && (forall op | op in ops && op.pair == p :: !op.Configure?)
    requires Holds(block, plan, base, was) && |cuts| >= |plan.len|
    ensures var n := |plan.len|;
            var all := [Configure(p, n, base)] + ops;
            var after, credits := Run(m, all), Lent(m, left, all, p);
            var end := Engine.Run(block, StartPair(block, after, credits, p), cuts);
            && (end == Halted(Moves(plan, n)) <==> !CreditMode(after, p) || credits >= n)
            && (end != Halted(Moves(plan, n)) ==> end == Stalled(Moves(plan, credits)))
  {
    hide Apply, At, Engine.Run, Start, Image, Chain, CreditMode, Lend;
    var n := |plan.len|;
    var first := Configure(p, n, base);
    var all := [first] + ops;
    assert all[1..] == ops;
    var after, credits := Run(m, all), Lent(m, left, all, p);
    ConfigureProgramsPair(m, p, n, base);
    StaysProgrammed(Apply(m, first), ops, p, n, base);
    ChainMeansPlan(block, plan, base, was, if CreditMode(after, p) then Some(credits) else None, cuts);
  }

  /** A pair never configured with more than one descriptor runs its descriptor, whatever else happens. */
  lemma PlainPairRuns(m: Registers, left: nat, past: seq<Op>, ops: seq<Op>, p: Pair, plan: Plan, base: Address,
                      was: seq<Desc>, block: Block, cuts: seq<bool>)
    requires PairOk(p) && PairsOk(past) && PairsOk(ops) && (forall op | op in ops && op.pair == p :: !op.Configure?)
    requires Holds(block, plan, base, was) && |cuts| >= |plan.len| == 1
    requires !CreditMode(m, p) && forall op | op in past && op.pair == p :: !Enables(op)
    ensures var after := Run(Run(m, past), [Configure(p, 1, base)] + ops);
            Engine.Run(block, StartPair(block, after, left, p), cuts) == Halted(Moves(plan, 1))
  {
    hide Run, Engine.Run, Start, CreditMode, Image, Chain, Lent, At;
    var all := [Configure(p, 1, base)] + ops;
    CreditModeExact(m, past, p);
    CreditModeExact(Run(m, past), all, p);
    ConfiguredChainRuns(Run(m, past), 0, ops, p, plan, base, was, block, cuts);
  }

  /** A chain of several descriptors gets its credits with its configuration. */
  lemma SeveralRun(m: Registers, left: nat, ops: seq<Op>, p: Pair, plan: Plan, base: Address,
                   was: seq<Desc>, block: Block, cuts: seq<bool>)
    requires PairOk(p) && PairsOk(ops) && !Runs(m, p)
    requires forall op | op in ops && op.pair == p :: !op.Configure? && !op.StartEngine?
    requires Holds(block, plan, base, was) && |cuts| >= |plan.len| > 1
    ensures var all := [Configure(p, |plan.len|, base)] + ops;
            var after, credits := Run(m, all), Lent(m, left, all, p);
            !Runs(after, p) &&
            Engine.Run(block, StartPair(block, after, credits, p), cuts) == Halted(Moves(plan, |plan.len|))
  {
    hide Apply, Engine.Run, StartPair, CreditMode, Image, Chain, Lend, Runs;
    var first := Configure(p, |plan.len|, base);
    assert ([first] + ops)[1..] == ops;
    StaysInCreditMode(m, first, p);
    LendExact(m, left, first, p);
    ApplyRunBit(m, first, p);
    CreditsAddUp(Apply(m, first), Lend(m, left, first, p), ops, p);
    ConfiguredChainRuns(m, left, ops, p, plan, base, was, block, cuts);
  }

  /** Starting again: whatever the pair did since its configuration for several descriptors, stopping it
      and xdma_start_desc leave enough credits for the whole chain. */
  lemma RestartRuns(m: Registers, left: nat, ops: seq<Op>, p: Pair, plan: Plan, base: Address,
                    was: seq<Desc>, block: Block, cuts: seq<bool>)
    requires PairOk(p) && PairsOk(ops) && (forall op | op in ops && op.pair == p :: !op.Configure?)
    requires Holds(block, plan, base, was) && |cuts| >= |plan.len| > 1
    ensures var all := [Configure(p, |plan.len|, base)] + (ops + [Op.Stop(p), Op.StartDesc(p, |plan.len|)]);
            var after, credits := Run(m, all), Lent(m, left, all, p);
            !Runs(after, p) &&
            Engine.Run(block, StartPair(block, after, credits, p), cuts) == Halted(Moves(plan, |plan.len|))
  {
    hide Apply, Engine.Run, StartPair, CreditMode, Image, Chain, Lend, Runs;
    var n := |plan.len|;
    var first, again := [Configure(p, n, base)] + ops, [Op.Stop(p), Op.StartDesc(p, n)];
    assert [Configure(p, n, base)] + (ops + again) == first + again;
    LentAppend(m, left, first, again, p);
    CreditModeExact(m, first, p);
    assert first[0] in first && Enables(first[0]);
    RenewedCredits(Run(m, first), Lent(m, left, first, p), p, n);
    ConfiguredChainRuns(m, left, ops + again, p, plan, base, was, block, cuts);
  }

  lemma RenewedCredits(m: Registers, left: nat, p: Pair, n: Byte)
    requires PairOk(p) && CreditMode(m, p) && n > 1
    ensures var again := [Op.Stop(p), Op.StartDesc(p, n)];
            Lent(m, left, again, p) >= n as int && !Runs(Run(m, again), p)
  {
    hide Apply, CreditMode, Lend, Runs;
    var again := [Op.Stop(p), Op.StartDesc(p, n)];
    StaysInCreditMode(m, again[0], p);
    assert again[1..] == [again[1]] && [again[1]][1..] == [];
    var stopped, l1 := Apply(m, again[0]), Lend(m, left, again[0], p);
    ApplyRunBit(m, again[0], p);
    ApplyRunBit(stopped, again[1], p);
    LendExact(stopped, l1, again[1], p);
    assert Lent(stopped, l1, [again[1]], p) == Lend(stopped, l1, again[1], p);
    assert Run(stopped, [again[1]]) == Apply(stopped, again[1]);
  }

  /** A pair in credit mode that goes back to a single descriptor gets no credits for it, neither from
      the configuration nor from starting it: once its engine was stopped, the next start moves nothing. */
  lemma BackToOneStalls(m: Registers, left: nat, ops: seq<Op>, p: Pair, plan: Plan, base: Address,
                        was: seq<Desc>, block: Block, cuts: seq<bool>)
    requires PairOk(p) && PairsOk(ops) && CreditMode(m, p) && Runs(m, p)
    requires forall op | op in ops && op.pair == p :: !op.Configure? && !op.StartEngine? && !Grants(op)
    requires Holds(block, plan, base, was) && |cuts| >= |plan.len| == 1
    ensures var all := [Configure(p, 1, base)] + ops;
            var after, credits := Run(Apply(m, Op.Stop(p)), all), Lent(m, left, [Op.Stop(p)] + all, p);
            credits == 0 && Engine.Run(block, StartPair(block, after, credits, p), cuts) == Stalled([])
  {
    hide Apply, Engine.Run, StartPair, CreditMode, Image, Chain, Lend, Runs;
    var first, stopped := Configure(p, 1, base), Apply(m, Op.Stop(p));
    var all := [first] + ops;
    assert all[1..] == ops && ([Op.Stop(p)] + all)[1..] == all;
    StaysInCreditMode(m, Op.Stop(p), p);
    ApplyRunBit(m, Op.Stop(p), p);
    LendExact(m, left, Op.Stop(p), p);
    assert CreditMode(Run(stopped, all), p) by { CreditModeExact(stopped, all, p); }
    CreditsAddUp(stopped, 0, all, p);
    NothingGranted(ops, p);
    ConfiguredChainRuns(stopped, 0, ops, p, plan, base, was, block, cuts);
    assert Moves(plan, 0) == [];
  }

  lemma {:induction false} NothingGranted(ops: seq<Op>, p: Pair)
    requires forall op | op in ops && op.pair == p :: !Grants(op)
    ensures Total(ops, p) == 0
  {
    if ops != [] {
      NothingGranted(ops[1..], p);
    }
  }

  // ----- the registers by number

  /** Where the registers of pair p begin. */
  function Base(p: Pair): int {
    (p.channel - 1) * 0x100 + if p.c2h then 0x1000 else 0
  }

  /** What each operation leaves in the registers, at the addresses of PG195, and nowhere else. */
  lemma RegistersByNumber(m: Registers, op: Op, address: int)
    requires PairOk(op.pair)
    ensures var after, b := Apply(m, op), Base(op.pair);
            && (op.PollInit? ==> Read(after, b + 0x4) == Or(Read(m, b + 0x4), 0x400_0004))
            && (op.Stop? ==> Read(after, b + 0x4) == 0)
            && (op.StartEngine? ==> Read(after, b + 0x4) == 0x400_0005)
            && (op.PollInit? || op.Stop? || op.StartEngine? ==>
                  (address != b + 0x4 ==> Read(after, address) == Read(m, address)))
            && (op.StartDesc? && op.count > 1 ==> Read(after, b + 0x408C) == op.count)
            && (op.StartDesc? && (op.count <= 1 || address != b + 0x408C) ==> Read(after, address) == Read(m, address))
  {
    hide Or;
  }

  lemma ConfigurationByNumber(m: Registers, p: Pair, count: Byte, firstDesc: Address, address: int, k: nat)
    requires PairOk(p)
    ensures var after, b := Apply(m, Configure(p, count, firstDesc)), Base(p);
            && Read(after, b + 0x4080) + 0x1_0000_0000 * Read(after, b + 0x4084) == firstDesc
            && Read(after, b + 0x4088) as int == (if count == 0 then 0xFFFF_FFFF else count - 1)
            && (count > 1 ==> Read(after, b + 0x408C) == count)
            && (Bit(Read(after, 0x6020), k) <==>
                  Bit(Read(m, 0x6020), k) || (count > 1 && k == p.channel - 1 + if p.c2h then 16 else 0))
            && (address !in {b + 0x4080, b + 0x4084, b + 0x4088, 0x6020} && (address != b + 0x408C || count <= 1) ==>
                  Read(after, address) == Read(m, address))
  {
    hide Or, Pow2, Bit;
    ApplyMode(m, Configure(p, count, firstDesc), k);
    ModeBound(m, p);
  }

  // ----- the program

  class Bar {
    var regs: Registers

    constructor ()
      ensures regs == map[]
    {
      regs := map[];
    }

    method WriteReg(offset: int, val: Word)
      modifies this
      ensures regs == old(regs)[offset := val]
    {
      regs := regs[offset := val];
    }

    method ReadReg(offset: int) returns (val: Word)
      ensures val == Read(regs, offset)
    {
      val := if offset in regs then regs[offset] else 0;
    }

    /** xdma_start */
    method Start(channel: Byte, direction: Byte)
      requires 1 <= channel <= 15
      modifies this
      ensures regs == Apply(old(regs), StartEngine(Pair(channel, direction != 0)))
    {
      var index := channel - 1;
      if direction == 0 {
        WriteReg(H2C_CONTROL + index * 0x100, ENGINE_START);
        var _ := ReadReg(H2C_CONTROL + index * 0x100);
      } else {
        WriteReg(C2H_CONTROL + index * 0x100, ENGINE_START);
        var _ := ReadReg(C2H_CONTROL + index * 0x100);
      }
    }

    /** xdma_start_desc */
    method StartDesc(channel: Byte, direction: Byte, count: Byte)
      requires 1 <= channel <= 15
      modifies this
      ensures regs == Apply(old(regs), Op.StartDesc(Pair(channel, direction != 0), count))
    {
      var index := channel - 1;
      if count > 1 {
        if direction == 0 {
          WriteReg(H2C_SGDMA + 0xC + index * 0x100, count);
        } else {
          WriteReg(C2H_SGDMA + 0xC + index * 0x100, count);
        }
      }
    }

    /** xdma_stop */
    method Stop(channel: Byte, direction: Byte)
      requires 1 <= channel <= 15
      modifies this
      ensures regs == Apply(old(regs), Op.Stop(Pair(channel, direction != 0)))
    {
      var index := channel - 1;
      if direction == 0 {
        WriteReg(H2C_CONTROL + index * 0x100, DMA_STOP);
      } else {
        WriteReg(C2H_CONTROL + index * 0x100, DMA_STOP);
      }
    }

    /** xdma_poll_init */
    method PollInit(channel: Byte, direction: Byte)
      requires 1 <= channel <= 15
      modifies this
      ensures regs == Apply(old(regs), Op.PollInit(Pair(channel, direction != 0)))
    {
      hide Or;
      var index := channel - 1;
      var a := index * 0x100 + if direction == 0 then H2C_CONTROL else C2H_CONTROL;
      var tmp := ReadReg(a);
      OrBound32(tmp, POLL_ENABLE);
      WriteReg(a, Or(tmp, POLL_ENABLE));
    }

    /** xdma_cofg_desc */
    method CofgDesc(channel: Byte, direction: Byte, count: Byte, firstDesc: Address)
      requires 1 <= channel <= 15
      modifies this
      ensures regs == Apply(old(regs), Configure(Pair(channel, direction != 0), count, firstDesc))
    {
      hide Or, Pow2, Lo, Hi, Bit;
      var index := channel - 1;
      ghost var p, was := Pair(channel, direction != 0), regs;
      ModeBound(regs, p);
      if direction == 0 {
        if count > 1 {
          var mode := ReadReg(MODE_EN);
          WriteReg(MODE_EN, Or(mode, Pow2(index)));
        }
        WriteReg(H2C_SGDMA + index * 0x100, Lo(firstDesc));
        WriteReg(H2C_SGDMA + 4 + index * 0x100, Hi(firstDesc));
        WriteReg(H2C_SGDMA + 8 + index * 0x100, (count - 1) % U32);
        if count > 1 {
          WriteReg(H2C_SGDMA + 0xC + index * 0x100, count);
        }
        assert regs == Apply(was, Configure(p, count, firstDesc));
      } else {
        if count > 1 {
          var mode := ReadReg(MODE_EN);
          WriteReg(MODE_EN, Or(mode, Pow2(index + 16)));
        }
        WriteReg(C2H_SGDMA + index * 0x100, Lo(firstDesc));
        WriteReg(C2H_SGDMA + 4 + index * 0x100, Hi(firstDesc));
        WriteReg(C2H_SGDMA + 8 + index * 0x100, (count - 1) % U32);
        if count > 1 {
          WriteReg(C2H_SGDMA + 0xC + index * 0x100, count);
        }
        assert regs == Apply(was, Configure(p, count, firstDesc));
      }
    }

    /** xdma_create_transfer: the chain is compiled, then the start registers are programmed, with
        the address of the previous chain when the allocation failed. */
    method CreateTransfer(channel: Byte, cfg: Config, desc: array?<Desc>, base: Address) returns (ok: bool)
      requires 1 <= channel <= 15
      requires cfg.Valid() && 1 <= cfg.count as int <= MAX_DESC_NUM
      requires desc != null ==> desc.Length == cfg.count as int
      modifies this, cfg`firstDesc, cfg`firstDescPhy, desc
      ensures ok <==> desc != null
      ensures ok ==>
                desc[..] == Chain(cfg.Plan(), base, old(desc[..])) && cfg.firstDesc == desc && cfg.firstDescPhy == base
      ensures !ok ==> cfg.firstDesc == old(cfg.firstDesc) && cfg.firstDescPhy == old(cfg.firstDescPhy)
      ensures regs == Apply(old(regs), Configure(Pair(channel, cfg.direction != 0), cfg.count, cfg.firstDescPhy))
    {
      hide Chain;
      ok := DescAlloc(cfg, desc, base);
      CofgDesc(channel, cfg.direction, cfg.count, cfg.firstDescPhy);
    }
  }
}
