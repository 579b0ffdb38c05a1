/** The digital-input configuration of lib/es5341_di_cfg.c: an encoder of commands into four
    bank registers and a strobe, and the decoder the card must implement.

    Voltages are real numbers. The C program's arithmetic gives the same codes: its `float` product by
    1024 is exact, and the `double` quotient by 2.5 is never rounded up to an integer. */
module DigitalInput {
  import opened Wrappers
  import opened Bits

  const V := 2.5
  const CHANNELS: nat := 16

  /** di_hl: the control values by channel; entry 0 belongs to no channel. */
  const LOW: seq<nat> := [0, 4, 5, 2, 7, 4, 5, 2, 7, 4, 5, 2, 8, 4, 8, 2, 6]
  const HIGH: seq<nat> := [0, 3, 6, 1, 8, 3, 6, 1, 8, 3, 6, 1, 7, 3, 7, 1, 5]

  function ControlOf(channel: nat, high: bool): nat
    requires channel <= CHANNELS
  {
    if high then HIGH[channel] else LOW[channel]
  }

  /** The voltages whose conversion to unsigned int C defines. */
  predicate Convertible(v: real) {
    -1.0 < v * 1024.0 < U32 as real
  }

  function Truncate(x: real): nat
    requires x > -1.0
  {
    if x < 0.0 then 0 else x.Floor
  }

  /** get_input_code: the cast applies to the product, before the division. */
  function InputCode(v: real): nat
    requires Convertible(v)
  {
    (Truncate(v * 1024.0) as real / V).Floor
  }

  lemma CodeByIntegers(v: real)
    requires Convertible(v)
    ensures InputCode(v) == 2 * Truncate(v * 1024.0) / 5 < U32
  {
    var m := Truncate(v * 1024.0);
    var q := 2 * m / 5;
    assert 5 * q <= 2 * m < 5 * q + 5;
    assert q as real <= m as real / V < q as real + 1.0;
  }

  /** The code is that of the whole part of 1024 v, since the cast comes before the division: 0, and not
      1, for 2.5 / 1024 V. It grows with the voltage, is below 1024 exactly below 2.5 V, and lies less than 1.2
      steps under the ideal 1024 v / 2.5. */
  lemma CodeAccuracy(v: real, w: real)
    requires 0.0 <= v <= w && Convertible(w)
    ensures InputCode(v) <= InputCode(w)
    ensures InputCode(v) < 1024 <==> v < 2.5
    ensures InputCode(v) == 2 * (v * 1024.0).Floor / 5
    ensures InputCode(v) as real <= v * 1024.0 / 2.5 < InputCode(v) as real + 1.2
  {
    CodeByIntegers(v);
    CodeByIntegers(w);
    var m := Truncate(v * 1024.0);
    assert m as real <= v * 1024.0 < m as real + 1.0;
    assert m <= Truncate(w * 1024.0);
    var q := 2 * m / 5;
    assert 5 * q <= 2 * m <= 5 * q + 4;
  }

  /** get_reg_value */
  function RegValue(control: nat, code: nat): Word {
    Or(control * Pow2(12) % U32, code * Pow2(2) % U32) % U32
  }

  /** What ends up in the register's control field: the control value or-ed with what of the code
      does not fit below it. */
  function ControlField(control: nat, code: nat): nat {
    Or(control, code / 1024 % 0x10_0000)
  }

  /** The two fields of the register, for every code: below 1024 control and code do not meet. */
  lemma RegValueFields(control: nat, code: nat)
    requires control <= 15
    ensures RegValue(control, code) == ControlField(control, code) * 4096 + code % 1024 * 4
    ensures control <= ControlField(control, code) < 0x10_0000
    ensures code < 1024 ==> ControlField(control, code) == control
  {
    hide Or, Pow2;
    Shifts();
    var high, low := code / 1024 % 0x10_0000, code % 1024 * 4;
    assert code * 4 % U32 == high * 4096 + low;
    OrShifted(control, high, low, 12);
    OrBound(control, high, 20);
    OrAtLeast(control, high);
    OrZero(control);
  }

  lemma Shifts()
    ensures Pow2(2) == 4 && Pow2(12) == 4096 && Pow2(20) == 0x10_0000
  {
    assert Pow2(4) == 16;
    assert Pow2(8) == 16 * Pow2(4);
    assert Pow2(12) == 16 * Pow2(8);
    assert Pow2(16) == 16 * Pow2(12);
    assert Pow2(20) == 16 * Pow2(16);
  }

  // ----- the registers

  /** din[0] to din[3] are DIN1 to DIN4; latched records the banks at each rising strobe. */
  datatype Card = Card(din: seq<Word>, vld: Word, latched: seq<seq<Word>>)

  datatype Write = Din(bank: nat, val: Word) | Vld(val: Word)

  predicate CardOk(c: Card) {
    |c.din| == 4
  }

  predicate WriteOk(w: Write) {
    w.Din? ==> w.bank < 4
  }

  function Apply(c: Card, w: Write): (r: Card)
    requires CardOk(c) && WriteOk(w)
    ensures CardOk(r)
  {
    match w
    case Din(bank, val) => c.(din := c.din[bank := val])
    case Vld(val) => Card(c.din, val, if c.vld == 0 && val != 0 then c.latched + [c.din] else c.latched)
  }

  function Exec(c: Card, ws: seq<Write>): (r: Card)
    requires CardOk(c) && forall w | w in ws :: WriteOk(w)
    ensures CardOk(r)
  {
    if ws == [] then c else Apply(Exec(c, ws[..|ws| - 1]), ws[|ws| - 1])
  }

  /** The bank register of a channel: DIN4 for channels 1 to 4, ..., DIN1 for 13 to 16. */
  function BankOf(channel: nat): nat
    requires 1 <= channel <= CHANNELS
  {
    3 - (channel - 1) / 4
  }

  /** Call_DI_Config. A channel that is none of 1 to 16 still gets its strobe. */
  function Writes(channel: nat, val: Word): (ws: seq<Write>)
    ensures forall w | w in ws :: WriteOk(w)
  {
    (if 1 <= channel <= 4 then [Din(3, val), Din(2, 0), Din(1, 0), Din(0, 0)]
     else if 5 <= channel <= 8 then [Din(2, val), Din(3, 0), Din(1, 0), Din(0, 0)]
     else if 9 <= channel <= 12 then [Din(1, val), Din(2, 0), Din(3, 0), Din(0, 0)]
     else if 13 <= channel <= 16 then [Din(0, val), Din(1, 0), Din(2, 0), Din(3, 0)]
     else []) + [Vld(1), Vld(0)]
  }

  datatype Call = Call(channel: nat, high: bool, v: real)

  /** The calls on which the C program stays inside its table and its conversions. */
  predicate CallOk(c: Call) {
    c.channel <= CHANNELS && Convertible(c.v)
  }

  function WritesOf(c: Call): (ws: seq<Write>)
    requires CallOk(c)
    ensures forall w | w in ws :: WriteOk(w)
  {
    Writes(c.channel, RegValue(ControlOf(c.channel, c.high), InputCode(c.v)))
  }

  function AllWrites(calls: seq<Call>): (ws: seq<Write>)
    requires forall c | c in calls :: CallOk(c)
    ensures forall w | w in ws :: WriteOk(w)
  {
    if calls == [] then [] else AllWrites(calls[..|calls| - 1]) + WritesOf(calls[|calls| - 1])
  }

  // ----- the decoder

  datatype Command = Command(channel: nat, high: bool, code: nat)

  predicate OneHot(din: seq<Word>, bank: nat) {
    |din| == 4 && bank < 4 && din[bank] != 0 && forall i | 0 <= i < 4 && i != bank :: din[i] == 0
  }

  /** What a control number means to the card, bank by bank: a channel and a level (true for high). DIN4
      holds channels 1 to 4, DIN3 5 to 8, DIN2 9 to 12, DIN1 13 to 16; the numbers are those of the
      DIn_HIGHLEVEL_CONTROL and DIn_LOWLEVEL_CONTROL lists of lib/es5341_di_cfg.h. */
  function Told(bank: nat, control: nat): Option<(nat, bool)>
    requires bank < 4
  {
    match control
    case 1 => Some((if bank == 3 then 3 else if bank == 2 then 7 else if bank == 1 then 11 else 15, true))
    case 2 => Some((if bank == 3 then 3 else if bank == 2 then 7 else if bank == 1 then 11 else 15, false))
    case 3 => Some((if bank == 3 then 1 else if bank == 2 then 5 else if bank == 1 then 9 else 13, true))
    case 4 => Some((if bank == 3 then 1 else if bank == 2 then 5 else if bank == 1 then 9 else 13, false))
    case 5 => Some(if bank == 3 then (2, false) else if bank == 2 then (6, false)
                   else if bank == 1 then (10, false) else (16, true))
    case 6 => Some(if bank == 3 then (2, true) else if bank == 2 then (6, true)
                   else if bank == 1 then (10, true) else (16, false))
    case 7 => Some(if bank == 3 then (4, false) else if bank == 2 then (8, false)
                   else if bank == 1 then (12, true) else (14, true))
    case 8 => Some(if bank == 3 then (4, true) else if bank == 2 then (8, true)
                   else if bank == 1 then (12, false) else (14, false))
    case _ => None
  }

  /** The control field of the bank register gives channel and level, the code field the threshold. */
  function DecodeBank(bank: nat, reg: Word): Option<Command>
    requires bank < 4
  {
    match Told(bank, reg / 4096)
    case None => None
    case Some((channel, high)) => Some(Command(channel, high, reg / 4 % 1024))
  }

  function Decode(din: seq<Word>): Option<Command> {
    if OneHot(din, 0) then DecodeBank(0, din[0])
    else if OneHot(din, 1) then DecodeBank(1, din[1])
    else if OneHot(din, 2) then DecodeBank(2, din[2])
    else if OneHot(din, 3) then DecodeBank(3, din[3])
    else None
  }

  function Meant(c: Call): Command
    requires CallOk(c)
  {
    Command(c.channel, c.high, InputCode(c.v))
  }

  /** A call that the card can decode. */
  predicate Decodable(c: Call) {
    1 <= c.channel <= 16 && c.v < 2.5
  }

  /** The banks after a call. */
  function Banks(din: seq<Word>, c: Call): (r: seq<Word>)
    requires |din| == 4 && CallOk(c)
    ensures |r| == 4
  {
    if c.channel == 0 then din
    else [0, 0, 0, 0][BankOf(c.channel) := RegValue(ControlOf(c.channel, c.high), InputCode(c.v))]
  }

  lemma DecodeCode(din: seq<Word>)
    ensures Decode(din).Some? ==> Decode(din).value.code < 1024 && 1 <= Decode(din).value.channel
  {
  }

  lemma ControlRange(channel: nat, high: bool)
    requires 1 <= channel <= CHANNELS
    ensures ControlOf(channel, high) in [1, 2, 3, 4, 5, 6, 7, 8]
  {
  }

  /** Within a bank all control values differ, so a bank register determines the command. */
  lemma BankDecodes(channel: nat, high: bool, code: nat)
    requires 1 <= channel <= 16 && code < 1024
    ensures var reg := RegValue(ControlOf(channel, high), code);
            reg != 0 && DecodeBank(BankOf(channel), reg) == Some(Command(channel, high, code))
  {
    hide RegValue, ControlField, ControlOf;
    var control := ControlOf(channel, high);
    assert control <= 15 by { ControlRange(channel, high); }
    RegValueFields(control, code);
    FieldsBack(control, code);
    assert control > 0 by { ControlRange(channel, high); }
    BankTellsControls(channel, high, RegValue(control, code));
  }

  lemma FieldsBack(control: nat, code: nat)
    requires code < 1024
    ensures (control * 4096 + code * 4) / 4096 == control && (control * 4096 + code * 4) / 4 % 1024 == code
  {
  }

  lemma BankTellsControls(channel: nat, high: bool, reg: Word)
    requires 1 <= channel <= CHANNELS && reg / 4096 == ControlOf(channel, high)
    ensures DecodeBank(BankOf(channel), reg) == Some(Command(channel, high, reg / 4 % 1024))
  {
  }

  /** One call: what the banks hold afterwards decodes to the command exactly when the channel is
      one of 1 to 16 and the voltage below 2.5 V. */
  lemma CallDecodes(din: seq<Word>, c: Call)
    requires |din| == 4 && CallOk(c)
    ensures Decode(Banks(din, c)) == Some(Meant(c)) <==> Decodable(c)
  {
    hide InputCode, RegValue, ControlOf, DecodeBank;
    DecodeCode(Banks(din, c));
    CodeInRange(c.v);
    if Decodable(c) {
      BankDecodes(c.channel, c.high, InputCode(c.v));
      assert OneHot(Banks(din, c), BankOf(c.channel));
    }
  }

  lemma CodeInRange(v: real)
    requires Convertible(v)
    ensures InputCode(v) < 1024 <==> v < 2.5
  {
    if v >= 0.0 {
      CodeAccuracy(v, v);
    } else {
      CodeByIntegers(v);
    }
  }

  // ----- what the encoder loses, whoever decodes

  /** Some voltage below every other whose conversion gives the code. */
  lemma VoltageFor(code: nat) returns (v: real)
    requires code < 0x4000_0000
    ensures 0.0 <= v && Convertible(v) && InputCode(v) == code
  {
    var m := (5 * code + 1) / 2;
    v := m as real / 1024.0;
    assert v * 1024.0 == m as real;
    CodeByIntegers(v);
  }

  /** No decoder can tell all commands apart: for every call on a channel, at any voltage, there is
      one with the same channel and level and another code that leaves the same banks. */
  lemma Collides(c: Call) returns (d: Call)
    requires CallOk(c) && 1 <= c.channel
    ensures CallOk(d) && Meant(d) != Meant(c)
    ensures forall din: seq<Word> | |din| == 4 :: Banks(din, d) == Banks(din, c)
  {
    hide InputCode, RegValue, Or, AndNot;
    var control, code := ControlOf(c.channel, c.high), InputCode(c.v);
    var high := code / 1024 % 0x10_0000;
    var other := OtherHigh(control, high);
    var v := VoltageFor(other * 1024 + code % 1024);
    d := Call(c.channel, c.high, v);
    assert InputCode(v) / 1024 % 0x10_0000 == other && InputCode(v) % 1024 == code % 1024;
    RegValueFields(control, code);
    RegValueFields(control, InputCode(v));
  }

  lemma OtherHigh(control: nat, high: nat) returns (other: nat)
    requires 0 < control <= 15 && high < 0x10_0000
    ensures other < 0x10_0000 && other != high && Or(control, other) == Or(control, high)
  {
    hide Or, AndNot, Pow2;
    Shifts();
    OrBound(control, high, 20);
    AndNotBound(high, control);
    OrAbsorbs(control, high);
    if Or(control, high) != high {
      other := Or(control, high);
    } else {
      other := AndNot(high, control);
      if other == high {
        OrOrAndNot(control, high);
      }
    }
  }

  /** Among the calls on channels 1 to 16 below 2.5 V the banks tell every two commands apart. */
  lemma DecodableInjective(din: seq<Word>, c: Call, d: Call)
    requires |din| == 4 && CallOk(c) && CallOk(d) && Decodable(c) && Decodable(d)
    ensures Banks(din, c) == Banks(din, d) <==> Meant(c) == Meant(d)
  {
    hide Decode, InputCode, RegValue;
    CallDecodes(din, c);
    CallDecodes(din, d);
  }

  /** Which calls the card takes for a command below 2.5 V: those whose control field is one of the
      eight control values. From 2.5 V on that is another command than the one called. */
  lemma TakenForCommand(din: seq<Word>, c: Call)
    requires |din| == 4 && CallOk(c) && 1 <= c.channel
    ensures (exists d :: CallOk(d) && Decodable(d) && Banks(din, d) == Banks(din, c)) <==>
              ControlField(ControlOf(c.channel, c.high), InputCode(c.v)) <= 8
    ensures c.v >= 2.5 ==>
              forall d | CallOk(d) && Decodable(d) && Banks(din, d) == Banks(din, c) :: Meant(d) != Meant(c)
  {
    hide InputCode, RegValue, ControlField, Banks;
    var field := ControlField(ControlOf(c.channel, c.high), InputCode(c.v));
    if field <= 8 {
      var d := CommandOf(din, c);
    }
    forall d | CallOk(d) && Decodable(d) && Banks(din, d) == Banks(din, c)
      ensures field <= 8
      ensures c.v >= 2.5 ==> Meant(d) != Meant(c)
    {
      SameField(din, c, d);
      CodeInRange(c.v);
      CodeInRange(d.v);
    }
  }

  lemma CommandOf(din: seq<Word>, c: Call) returns (d: Call)
    requires |din| == 4 && CallOk(c) && 1 <= c.channel
    requires ControlField(ControlOf(c.channel, c.high), InputCode(c.v)) <= 8
    ensures CallOk(d) && Decodable(d) && Banks(din, d) == Banks(din, c)
  {
    hide InputCode, RegValue, ControlField;
    var control, code := ControlOf(c.channel, c.high), InputCode(c.v);
    RegValueFields(control, code);
    var field := ControlField(control, code);
    var channel, high := ChannelWith(BankOf(c.channel), field);
    var v := VoltageFor(code % 1024);
    CodeInRange(v);
    d := Call(channel, high, v);
    RegValueFields(field, code % 1024);
  }

  lemma ChannelWith(bank: nat, control: nat) returns (channel: nat, high: bool)
    requires bank < 4 && 1 <= control <= 8
    ensures 1 <= channel <= CHANNELS && BankOf(channel) == bank && ControlOf(channel, high) == control
  {
    var (c, h) := Told(bank, control).value;
    channel, high := c, h;
    if bank == 0 {
      assert ControlOf(channel, high) == control;
    } else if bank == 1 {
      assert ControlOf(channel, high) == control;
    } else {
      assert ControlOf(channel, high) == control;
    }
  }

  lemma SameField(din: seq<Word>, c: Call, d: Call)
    requires |din| == 4 && CallOk(c) && 1 <= c.channel && CallOk(d) && Decodable(d) && Banks(din, d) == Banks(din, c)
    ensures ControlField(ControlOf(c.channel, c.high), InputCode(c.v)) == ControlOf(d.channel, d.high) <= 8
  {
    hide InputCode, RegValue, ControlField;
    var r := Banks(din, c);
    RegValueFields(ControlOf(c.channel, c.high), InputCode(c.v));
    RegValueFields(ControlOf(d.channel, d.high), InputCode(d.v));
    CodeInRange(d.v);
    assert r[BankOf(c.channel)] != 0;
    assert BankOf(d.channel) == BankOf(c.channel);
  }

  /** For instance, a low threshold of 2.5 V on channel 1 is one of 0 V on channel 2. */
  lemma WrongChannel(din: seq<Word>)
    requires |din| == 4
    ensures Banks(din, Call(1, false, 2.5)) == Banks(din, Call(2, false, 0.0))
  {
    hide RegValue;
    CodeByIntegers(2.5);
    CodeByIntegers(0.0);
    RegValueFields(4, 1024);
    RegValueFields(5, 0);
    assert Or(4, 1) == 1 + 2 * Or(2, 0) && Or(2, 0) == 2 * Or(1, 0) && Or(1, 0) == 1 + 2 * Or(0, 0);
  }

  // ----- runs

  lemma {:induction false} ExecAppend(c: Card, a: seq<Write>, b: seq<Write>)
    requires CardOk(c) && (forall w | w in a + b :: WriteOk(w))
    ensures Exec(c, a + b) == Exec(Exec(c, a), b)
  {
    if b == [] {
      assert a + b == a;
    } else {
      var n := |b| - 1;
      assert (a + b)[..|a + b| - 1] == a + b[..n];
      ExecAppend(c, a, b[..n]);
    }
  }

  lemma {:induction false} BankWrites(c: Card, a: Write, b: Write, d: Write, e: Write)
    requires CardOk(c) && a.Din? && b.Din? && d.Din? && e.Din?
    requires WriteOk(a) && WriteOk(b) && WriteOk(d) && WriteOk(e)
    ensures Exec(c, [a, b, d, e]) ==
                c.(din := c.din[a.bank := a.val][b.bank := b.val][d.bank := d.val][e.bank := e.val])
    ensures forall k | 0 <= k <= 4 :: Exec(c, [a, b, d, e][..k]).vld == c.vld
  {
    var ws := [a, b, d, e];
    assert ws[..1][..0] == [] && ws[..2][..1] == ws[..1]
             && ws[..3][..2] == ws[..2] && ws[..4] == ws && ws[..3] == [a, b, d];
    assert Exec(c, ws[..0]) == c;
    assert Exec(c, ws[..1]) == Apply(c, a);
    assert Exec(c, ws[..2]) == Apply(Apply(c, a), b);
    assert Exec(c, ws[..3]) == Apply(Apply(Apply(c, a), b), d);
  }

  /** The bank writes of a call, without its strobe. */
  function Puts(c: Call): (ws: seq<Write>)
    requires CallOk(c)
    ensures WritesOf(c) == ws + [Vld(1), Vld(0)]
  {
    WritesOf(c)[..|WritesOf(c)| - 2]
  }

  lemma BanksReady(card: Card, c: Call)
    requires CardOk(card) && card.vld == 0 && CallOk(c)
    ensures forall w | w in Puts(c) :: WriteOk(w)
    ensures Exec(card, Puts(c)) == card.(din := Banks(card.din, c))
    ensures forall k | 0 <= k <= |Puts(c)| :: Exec(card, Puts(c)[..k]).vld == 0
  {
    hide InputCode, RegValue, ControlOf, Exec, Convertible;
    PutsReady(card, c.channel, RegValue(ControlOf(c.channel, c.high), InputCode(c.v)));
  }

  lemma PutsReady(card: Card, channel: nat, val: Word)
    requires CardOk(card) && card.vld == 0 && channel <= CHANNELS
    ensures var puts := Writes(channel, val)[..|Writes(channel, val)| - 2];
            && (forall w | w in puts :: WriteOk(w))
            && Exec(card, puts) == card.(din := if channel == 0 then card.din else [0, 0, 0, 0][BankOf(channel) := val])
            && forall k | 0 <= k <= |puts| :: Exec(card, puts[..k]).vld == 0
  {
    var puts := Writes(channel, val)[..|Writes(channel, val)| - 2];
    if channel > 0 {
      BankWrites(card, puts[0], puts[1], puts[2], puts[3]);
      assert puts == [puts[0], puts[1], puts[2], puts[3]];
    } else {
      assert puts == [];
    }
  }

  /** One call on a card whose strobe is low: it latches the banks once, after they are set, and
      leaves the strobe low; while the strobe is high the banks are those that were latched. */
  lemma OneCall(card: Card, c: Call)
    requires CardOk(card) && card.vld == 0 && CallOk(c)
    ensures Exec(card, WritesOf(c)) == Card(Banks(card.din, c), 0, card.latched + [Banks(card.din, c)])
    ensures forall k | 0 <= k <= |WritesOf(c)| && Exec(card, WritesOf(c)[..k]).vld != 0 ::
              Exec(card, WritesOf(c)[..k]).din == Banks(card.din, c)
  {
    hide Exec, WritesOf, Puts, Banks;
    var ws, puts := WritesOf(c), Puts(c);
    var n := |puts|;
    BanksReady(card, c);
    ExecAppend(card, puts, [Vld(1), Vld(0)]);
    var ready := Exec(card, puts);
    ExecTwo(ready, Vld(1), Vld(0));
    forall k | 0 <= k <= |ws|
      ensures k <= n ==> Exec(card, ws[..k]).vld == 0
      ensures k > n ==> Exec(card, ws[..k]).din == Banks(card.din, c)
    {
      if k <= n {
        assert ws[..k] == puts[..k];
      } else {
        assert ws[..k] == puts + [Vld(1), Vld(0)][..k - n];
        ExecAppend(card, puts, [Vld(1), Vld(0)][..k - n]);
      }
    }
  }

  lemma ExecTwo(c: Card, a: Write, b: Write)
    requires CardOk(c) && WriteOk(a) && WriteOk(b)
    ensures Exec(c, [a, b]) == Apply(Apply(c, a), b)
    ensures Exec(c, [a, b][..1]) == Apply(c, a)
    ensures Exec(c, [a, b][..2]) == Apply(Apply(c, a), b)
  {
    assert [a, b][..1] == [a] && [a][..0] == [] && [a, b][..2] == [a, b];
    assert Exec(c, [a]) == Apply(c, a);
  }

  /** The banks latched by a run: one entry a call. */
  function Latches(din: seq<Word>, calls: seq<Call>): (r: (seq<Word>, seq<seq<Word>>))
    requires |din| == 4 && forall c | c in calls :: CallOk(c)
    ensures |r.0| == 4 && |r.1| == |calls|
  {
    if calls == [] then (din, [])
    else
      var (d, l) := Latches(din, calls[..|calls| - 1]);
      var b := Banks(d, calls[|calls| - 1]);
      (b, l + [b])
  }

  lemma {:induction false} RunLatches(card: Card, calls: seq<Call>)
    requires CardOk(card) && card.vld == 0 && card.latched == [] && forall c | c in calls :: CallOk(c)
    ensures var (d, l) := Latches(card.din, calls); Exec(card, AllWrites(calls)) == Card(d, 0, l)
  {
    hide WritesOf, Banks;
    if calls != [] {
      var n := |calls| - 1;
      RunLatches(card, calls[..n]);
      ExecAppend(card, AllWrites(calls[..n]), WritesOf(calls[n]));
      OneCall(Exec(card, AllWrites(calls[..n])), calls[n]);
    }
  }

  /** The commands a card decodes from what it latched. */
  function Decoded(latched: seq<seq<Word>>): seq<Option<Command>> {
    seq(|latched|, i requires 0 <= i < |latched| => Decode(latched[i]))
  }

  function Intended(calls: seq<Call>): seq<Option<Command>>
    requires forall c | c in calls :: CallOk(c)
  {
    seq(|calls|, i requires 0 <= i < |calls| => Some(Meant(calls[i])))
  }

  lemma {:induction false} LatchDecodes(din: seq<Word>, calls: seq<Call>, i: nat)
    requires |din| == 4 && (forall c | c in calls :: CallOk(c)) && i < |calls|
    ensures Decode(Latches(din, calls).1[i]) == Some(Meant(calls[i])) <==> Decodable(calls[i])
  {
    hide Banks, Decode, Meant;
    var n := |calls| - 1;
    if i < n {
      LatchDecodes(din, calls[..n], i);
    } else {
      CallDecodes(Latches(din, calls[..n]).0, calls[n]);
    }
  }

  /** Over every run, the commands the card latches are the commands called, one for one, exactly
      when every call names a channel from 1 to 16 and a voltage below 2.5 V. */
  lemma RunDecodesExactly(card: Card, calls: seq<Call>)
    requires CardOk(card) && card.vld == 0 && card.latched == [] && forall c | c in calls :: CallOk(c)
    ensures Decoded(Exec(card, AllWrites(calls)).latched) == Intended(calls) <==> forall c | c in calls :: Decodable(c)
  {
    hide Exec, AllWrites, Latches, Decode, Meant, Decodable;
    RunLatches(card, calls);
    forall i | 0 <= i < |calls|
      ensures Decode(Latches(card.din, calls).1[i]) == Some(Meant(calls[i])) <==> Decodable(calls[i])
    {
      LatchDecodes(card.din, calls, i);
    }
    var d, t := Decoded(Exec(card, AllWrites(calls)).latched), Intended(calls);
    assert |d| == |t| == |calls|;
    if d == t {
      forall c | c in calls
        ensures Decodable(c)
      {
        var i :| 0 <= i < |calls| && calls[i] == c;
        assert d[i] == t[i];
      }
    }
  }

  /** The switch's default: a channel that is none of 1 to 16 is strobed with the banks as they are. */
  lemma StrobedOnly(card: Card, channel: nat, val: Word)
    requires CardOk(card) && card.vld == 0 && (channel == 0 || channel > 16)
    ensures Exec(card, Writes(channel, val)) == Card(card.din, 0, card.latched + [card.din])
  {
    assert Writes(channel, val) == [Vld(1), Vld(0)];
    ExecTwo(card, Vld(1), Vld(0));
  }

  /** A call for channel 0 is strobed without a write to the banks: the card latches the banks of the
      call before it once more. */
  lemma ChannelZeroRepeats(card: Card, calls: seq<Call>, c: Call)
    requires CardOk(card) && card.vld == 0 && card.latched == []
    requires (forall d | d in calls :: CallOk(d)) && CallOk(c) && c.channel == 0 && calls != []
    ensures var was := Exec(card, AllWrites(calls)).latched;
            |was| == |calls| && Exec(card, AllWrites(calls + [c])).latched == was + [was[|calls| - 1]]
  {
    hide Exec, WritesOf;
    var n := |calls|;
    assert (calls + [c])[..n] == calls;
    RunLatches(card, calls);
    RunLatches(card, calls + [c]);
  }

  ghost predicate Hot(din: seq<Word>) {
    exists bank :: OneHot(din, bank)
  }

  /** At every moment of every run, at any voltages, whenever the strobe is high exactly one bank
      register is nonzero, exactly when the run does not begin with channel 0 on a card where
      that is not so. */
  lemma OneBankWhileValid(card: Card, calls: seq<Call>)
    requires CardOk(card) && card.vld == 0 && card.latched == [] && forall c | c in calls :: CallOk(c)
    ensures (forall k | 0 <= k <= |AllWrites(calls)| && Exec(card, AllWrites(calls)[..k]).vld != 0 ::
               Hot(Exec(card, AllWrites(calls)[..k]).din))
            <==> calls == [] || calls[0].channel > 0 || Hot(card.din)
  {
    hide Exec, AllWrites, Hot, WritesOf;
    if calls == [] || calls[0].channel > 0 || Hot(card.din) {
      forall k | 0 <= k <= |AllWrites(calls)| && Exec(card, AllWrites(calls)[..k]).vld != 0
        ensures Hot(Exec(card, AllWrites(calls)[..k]).din)
      {
        HotWhileValid(card, calls, k);
      }
    } else {
      FirstWrite(calls);
      assert AllWrites(calls)[..1] == [Vld(1)];
      ExecOne(card, Vld(1));
      assert !Hot(Exec(card, AllWrites(calls)[..1]).din);
    }
  }

  lemma ExecOne(c: Card, w: Write)
    requires CardOk(c) && WriteOk(w)
    ensures Exec(c, [w]) == Apply(c, w)
  {
    assert [w][..0] == [] && Exec(c, []) == c;
  }

  lemma {:induction false} FirstWrite(calls: seq<Call>)
    requires calls != [] && calls[0].channel == 0 && forall c | c in calls :: CallOk(c)
    ensures |AllWrites(calls)| > 0 && AllWrites(calls)[0] == Vld(1)
  {
    if |calls| > 1 {
      FirstWrite(calls[..|calls| - 1]);
    } else {
      assert calls[..0] == [];
    }
  }

  lemma {:induction false} HotWhileValid(card: Card, calls: seq<Call>, k: nat)
    requires CardOk(card) && card.vld == 0 && card.latched == [] && forall c | c in calls :: CallOk(c)
    requires calls == [] || calls[0].channel > 0 || Hot(card.din)
    requires k <= |AllWrites(calls)|
    ensures var now := Exec(card, AllWrites(calls)[..k]); now.vld != 0 ==> Hot(now.din)
  {
    hide WritesOf, Banks, OneHot, Hot;
    if calls == [] {
      assert AllWrites(calls)[..k] == [];
    } else {
      var n := |calls| - 1;
      var before := AllWrites(calls[..n]);
      if k <= |before| {
        assert AllWrites(calls)[..k] == before[..k];
        HotWhileValid(card, calls[..n], k);
      } else {
        var part := WritesOf(calls[n])[..k - |before|];
        assert AllWrites(calls)[..k] == before + part;
        ExecAppend(card, before, part);
        RunLatches(card, calls[..n]);
        OneCall(Exec(card, before), calls[n]);
        HotAfter(card.din, calls);
      }
    }
  }

  lemma {:induction false} HotAfter(din: seq<Word>, calls: seq<Call>)
    requires |din| == 4 && (forall c | c in calls :: CallOk(c)) && (calls == [] ==> Hot(din))
    requires calls == [] || calls[0].channel > 0 || Hot(din)
    ensures Hot(Latches(din, calls).0)
  {
    hide Hot;
    if calls != [] {
      var n := |calls| - 1;
      if calls[n].channel > 0 {
        HotBank(Latches(din, calls[..n]).0, calls[n]);
      } else {
        HotAfter(din, calls[..n]);
      }
    }
  }

  lemma HotBank(din: seq<Word>, c: Call)
    requires |din| == 4 && CallOk(c) && c.channel > 0
    ensures Hot(Banks(din, c))
  {
    hide InputCode, RegValue, ControlOf, ControlField;
    assert ControlOf(c.channel, c.high) in [1, 2, 3, 4, 5, 6, 7, 8] by { ControlRange(c.channel, c.high); }
    RegValueFields(ControlOf(c.channel, c.high), InputCode(c.v));
    assert OneHot(Banks(din, c), BankOf(c.channel));
  }

  // ----- the program

  class Board {
    var din: array<Word>
    var vld: Word
    ghost var latched: seq<seq<Word>>

    ghost predicate Valid()
      reads this
    {
      din.Length == 4
    }

    ghost function State(): (c: Card)
      requires Valid()
      reads this, din
      ensures CardOk(c)
    {
      Card(din[..], vld, latched)
    }

    method WriteBank(bank: nat, val: Word)
      requires Valid() && bank < 4
      modifies din
      ensures Valid() && State() == Apply(old(State()), Din(bank, val))
    {
      din[bank] := val;
    }

    /** din_vld; the card latches the banks when the strobe rises. */
    method DinVld(val: Word)
      requires Valid()
      modifies `vld, `latched
      ensures Valid() && State() == Apply(old(State()), Vld(val))
    {
      if vld == 0 && val != 0 {
        latched := latched + [din[..]];
      }
      vld := val;
    }

    method WriteBanks(a: nat, val: Word, b: nat, c: nat, d: nat)
      requires Valid() && a < 4 && b < 4 && c < 4 && d < 4
      modifies din
      ensures Valid() && State() == Exec(old(State()), [Din(a, val), Din(b, 0), Din(c, 0), Din(d, 0)])
    {
      BankWrites(State(), Din(a, val), Din(b, 0), Din(c, 0), Din(d, 0));
      WriteBank(a, val);
      WriteBank(b, 0);
      WriteBank(c, 0);
      WriteBank(d, 0);
    }

    /** Call_DI_Config */
    method CallDiConfig(channel: nat, val: Word)
      requires Valid()
      modifies this, din
      ensures Valid() && State() == Exec(old(State()), Writes(channel, val))
    {
      ghost var was := State();
      ghost var puts := Writes(channel, val)[..|Writes(channel, val)| - 2];
      if 1 <= channel <= 4 {
        WriteBanks(3, val, 2, 1, 0);
      } else if 5 <= channel <= 8 {
        WriteBanks(2, val, 3, 1, 0);
      } else if 9 <= channel <= 12 {
        WriteBanks(1, val, 2, 3, 0);
      } else if 13 <= channel <= 16 {
        WriteBanks(0, val, 1, 2, 3);
      }
      assert Writes(channel, val) == puts + [Vld(1), Vld(0)];
      assert State() == Exec(was, puts);
      ExecAppend(was, puts, [Vld(1), Vld(0)]);
      ExecTwo(Exec(was, puts), Vld(1), Vld(0));
      DinVld(1);
      DinVld(0);
    }

    /** handler_di_config */
    method HandlerDiConfig(c: Call)
      requires Valid() && CallOk(c)
      modifies this, din
      ensures Valid() && State() == Exec(old(State()), WritesOf(c))
    {
      hide Exec, Writes, RegValue;
      var val := RegValue(ControlOf(c.channel, c.high), InputCode(c.v));
      CallDiConfig(c.channel, val);
    }
  }
}
