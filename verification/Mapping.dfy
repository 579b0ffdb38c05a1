/** The text interface between driver and library: mapping_show of driver/vi53xx_proc.c prints
    one line a device, extractValue of lib/vi53xx_xdma.c reads the lines back.

    The reader is modelled on every text, with its 256-character line buffer, whose old
    contents show through behind a short line. */
module Mapping {
  import opened Bits
  import opened Text
  import opened Duplicates

  const LINE_SIZE: nat := 256
  const FIELDS: nat := 11
  const NAME_SIZE: nat := 32

  /** What the driver prints of a device. */
  datatype Device = Device(name: string, minor: Minor, id: Word, boardType: Word)

  // ----- the printer

  /** `%-10s` */
  function PadRight(s: string): (r: string)
    ensures |s| <= |r| && |r| >= 10 && r[..|s|] == s
    ensures |s| <= 10 ==> |r| == 10
    ensures forall i | |s| <= i < |r| :: r[i] == ' '
  {
    if |s| >= 10 then s else s + seq(10 - |s|, i => ' ')
  }

  function Fields(d: Device): string {
    Digits(d.minor, 10) + ":" + SignedDec(d.id) + ":" + "0x" + Digits(d.boardType, 16) + "\n"
  }

  function Line(d: Device): string {
    PadRight(d.name) + " " + Fields(d)
  }

  function Listing(devices: seq<Device>): string {
    if devices == [] then "" else Line(devices[0]) + Listing(devices[1..])
  }

  /** mapping_show */
  method MappingShow(devices: seq<Device>) returns (text: string)
    ensures text == Listing(devices)
  {
    hide Line;
    text := "";
    for i := 0 to |devices|
      invariant text + Listing(devices[i..]) == Listing(devices)
    {
      assert devices[i..][1..] == devices[i + 1..];
      text := text + Line(devices[i]);
    }
  }

  /** The text of a line: the name in ten columns, a space, the instance, the id as a signed number, the
      type in hexadecimal. */
  lemma LineTexts()
    ensures Line(Device("es5341", 3, 7, 0xB100)) == "es5341     3:7:0xb100\n"
    ensures Line(Device("es5311", 12, 0xFFFF_FFFF, 0xB000)) == "es5311     12:-1:0xb000\n"
  {
    hide Digits, Line;
    DecimalTexts();
    HexTexts();
    LineByTexts(Device("es5341", 3, 7, 0xB100), "3", "7", "b100");
    assert SignedDec(0xFFFF_FFFF) == "-" + "1" == "-1";
    LineByTexts(Device("es5311", 12, 0xFFFF_FFFF, 0xB000), "12", "-1", "b000");
    assert "es5341" + "    " + " " + "3" + ":" + "7" + ":0x" + "b100" + "\n" == "es5341     3:7:0xb100\n";
    assert "es5311" + "    " + " " + "12" + ":" + "-1" + ":0x" + "b000" + "\n" == "es5311     12:-1:0xb000\n";
  }

  /** A name of six characters is padded with four blanks. */
  lemma LineByTexts(d: Device, m: string, i: string, t: string)
    requires |d.name| == 6 && Digits(d.minor, 10) == m && SignedDec(d.id) == i && Digits(d.boardType, 16) == t
    ensures Line(d) == d.name + "    " + " " + m + ":" + i + ":0x" + t + "\n"
  {
    hide Digits, SignedDec;
    assert PadRight(d.name) == d.name + "    ";
    assert ":" + "0x" == ":0x";
  }

  lemma DecimalTexts()
    ensures Digits(1, 10) == "1" && Digits(3, 10) == "3" && Digits(7, 10) == "7" && Digits(12, 10) == "12"
  {
    assert Digits(12, 10) == Digits(1, 10) + [DigitChar(2)];
  }

  lemma HexTexts()
    ensures Digits(0xB100, 16) == "b100" && Digits(0xB000, 16) == "b000"
  {
    assert Digits(0xB, 16) == "b";
    assert Digits(0xB0, 16) == "b0" && Digits(0xB1, 16) == "b1";
    assert Digits(0xB00, 16) == Digits(0xB0, 16) + [DigitChar(0)];
    assert Digits(0xB10, 16) == Digits(0xB1, 16) + [DigitChar(0)];
    assert Digits(0xB000, 16) == Digits(0xB00, 16) + [DigitChar(0)];
    assert Digits(0xB100, 16) == Digits(0xB10, 16) + [DigitChar(0)];
  }

  // ----- the reader

  predicate Separator(c: char) {
    c == ' ' || c == '\t' || c == '\n'
  }

  /** The first newline at or after `from`; |text| when there is none. */
  function NewlineFrom(text: string, from: nat): (n: nat)
    requires from <= |text|
    ensures from <= n <= |text|
    ensures n < |text| ==> text[n] == '\n'
    ensures forall i | from <= i < n :: text[i] != '\n'
    decreases |text| - from
  {
    if from == |text| || text[from] == '\n' then from else NewlineFrom(text, from + 1)
  }

  /** How many characters one fgets takes. */
  function Taken(text: string): (k: nat)
    requires text != ""
    ensures 0 < k <= |text| && k < LINE_SIZE
  {
    var n := NewlineFrom(text, 0);
    var line := if n < |text| then n + 1 else |text|;
    if line < LINE_SIZE then line else LINE_SIZE - 1
  }

  /** One fgets takes the line with its newline, but never more than 255 characters. */
  lemma TakenByNumber(text: string, k: nat)
    requires text != "" && k <= |text| && (forall i | 0 <= i < k :: text[i] != '\n') && (k < |text| ==> text[k] == '\n')
    ensures Taken(text) == if k >= 255 then 255 else if k < |text| then k + 1 else k
  {
    assert NewlineFrom(text, 0) == k;
  }

  /** The buffer after fgets: the characters, a NUL, and what was there before. */
  function AfterFgets(buf: string, text: string): (r: string)
    requires |buf| == LINE_SIZE && text != ""
    ensures |r| == LINE_SIZE
  {
    text[..Taken(text)] + ['\0'] + buf[Taken(text) + 1..]
  }

  function TokenStart(buf: string, from: nat): (n: nat)
    requires from <= |buf|
    ensures from <= n <= |buf|
    ensures n < |buf| ==> !Separator(buf[n])
    ensures forall i | from <= i < n :: Separator(buf[i])
    decreases |buf| - from
  {
    if from == |buf| || !Separator(buf[from]) then from else TokenStart(buf, from + 1)
  }

  function TokenEnd(buf: string, from: nat): (n: nat)
    requires from <= |buf|
    ensures from <= n <= |buf|
    ensures n < |buf| ==> Separator(buf[n]) || buf[n] == '\0'
    ensures forall i | from <= i < n :: !Separator(buf[i]) && buf[i] != '\0'
    decreases |buf| - from
  {
    if from == |buf| || Separator(buf[from]) || buf[from] == '\0' then from else TokenEnd(buf, from + 1)
  }

  function NulFrom(buf: string, from: nat): (n: nat)
    requires from <= |buf|
    ensures from <= n <= |buf|
    ensures n < |buf| ==> buf[n] == '\0'
    ensures forall i | from <= i < n :: buf[i] != '\0'
    decreases |buf| - from
  {
    if from == |buf| || buf[from] == '\0' then from else NulFrom(buf, from + 1)
  }

  /** The first token, "" standing for strtok's NULL. */
  function Token(buf: string): string {
    var a := TokenStart(buf, 0);
    buf[a..TokenEnd(buf, a)]
  }

  /** The buffer after strtok, which ends the token with a NUL. */
  function AfterStrtok(buf: string): (r: string)
    ensures |r| == |buf|
  {
    var e := TokenEnd(buf, TokenStart(buf, 0));
    if Token(buf) != "" && e < |buf| then buf[e := '\0'] else buf
  }

  /** What `sscanf(s, "%x:%d:%x", ...)` gives: three fields, fewer than three, or no defined result. */
  datatype Match = Three(inst: Word, id: Word, boardType: Word) | Fewer | Wild

  function ScanFields(s: string): (m: Match)
  {
    var a := ScanNumber(s, 16, 0);
    if !a.Scanned? then (if a.NoMatch? then Fewer else Wild)
    else if a.pos == |s| || s[a.pos] != ':' then Fewer
    else
      var b := ScanNumber(s, 10, a.pos + 1);
      if !b.Scanned? then (if b.NoMatch? then Fewer else Wild)
      else if b.pos == |s| || s[b.pos] != ':' then Fewer
      else
        var c := ScanNumber(s, 16, b.pos + 1);
        if !c.Scanned? then (if c.NoMatch? then Fewer else Wild)
        else Three(a.word, b.word, c.word)
  }

  /** The fields of a line, scanned from position 11 up to the next NUL. */
  function LineFields(buf: string): (m: Match)
    requires |buf| == LINE_SIZE
  {
    var z := NulFrom(buf, FIELDS);
    if z == LINE_SIZE then Wild else ScanFields(buf[FIELDS..z])
  }

  /** The records read, or a text on which the C code has no defined behaviour: a field out of
      range, a missing or overlong name, a 129th record, no NUL behind position 11. */
  datatype Outcome = Records(list: seq<Info>) | NoMeaning

  /** What one turn of the loop leaves: the buffer and the records found so far. */
  datatype Turn = Next(buf: string, found: seq<Info>) | Stuck

  function ReadLine(text: string, buf: string, found: seq<Info>): (r: Turn)
    requires |buf| == LINE_SIZE && text != ""
    ensures r.Next? ==> |r.buf| == LINE_SIZE
  {
    var line := AfterFgets(buf, text);
    var name := Token(line);
    var line' := AfterStrtok(line);
    match LineFields(line')
    case Fewer => Next(line', found)
    case Wild => Stuck
    case Three(inst, id, boardType) =>
      if name == "" || |name| >= NAME_SIZE || |found| >= BOARD_NUM then Stuck
      else Next(line', found + [Info(inst, id, boardType, name)])
  }

  /** When a line that gives three fields is recorded: there is a name of at most 31 characters, and fewer
      than 128 records were read. */
  lemma RecordedByNumber(text: string, buf: string, found: seq<Info>)
    requires |buf| == LINE_SIZE && text != ""
    requires LineFields(AfterStrtok(AfterFgets(buf, text))).Three?
    ensures var line := AfterFgets(buf, text);
            var f := LineFields(AfterStrtok(line));
            ReadLine(text, buf, found) ==
              if Token(line) != "" && |Token(line)| <= 31 && |found| < 128
              then Next(AfterStrtok(line), found + [Info(f.inst, f.id, f.boardType, Token(line))])
              else Stuck
  {
  }

  function Extract(text: string, buf: string, found: seq<Info>): (r: Outcome)
    requires |buf| == LINE_SIZE
    decreases |text|
  {
    if text == "" then Records(found)
    else
      match ReadLine(text, buf, found)
      case Stuck => NoMeaning
      case Next(buf', found') => Extract(text[Taken(text)..], buf', found')
  }

  method Fgets(line: array<char>, text: string) returns (k: nat)
    requires line.Length == LINE_SIZE && text != ""
    modifies line
    ensures k == Taken(text) && line[..] == AfterFgets(old(line[..]), text)
  {
    k := 0;
    while k < |text| && k < LINE_SIZE - 1
      invariant k <= |text| && k < LINE_SIZE
      invariant forall i | 0 <= i < k :: line[i] == text[i] && text[i] != '\n'
      invariant forall i | k <= i < LINE_SIZE :: line[i] == old(line[i])
    {
      line[k] := text[k];
      k := k + 1;
      if text[k - 1] == '\n' {
        break;
      }
    }
    line[k] := '\0';
    assert line[..] == AfterFgets(old(line[..]), text);
  }

  method Strtok(line: array<char>) returns (name: string)
    modifies line
    ensures name == Token(old(line[..])) && line[..] == AfterStrtok(old(line[..]))
  {
    ghost var buf := line[..];
    var a := 0;
    while a < line.Length && Separator(line[a])
      invariant a <= line.Length
      invariant TokenStart(buf, 0) == TokenStart(buf, a)
    {
      a := a + 1;
    }
    var e := a;
    while e < line.Length && !Separator(line[e]) && line[e] != '\0'
      invariant a <= e <= line.Length
      invariant TokenEnd(buf, a) == TokenEnd(buf, e)
    {
      e := e + 1;
    }
    name := line[a..e];
    if a < e < line.Length {
      line[e] := '\0';
    }
  }

  /** extractValue on a file with this text; `stack` is what the line buffer held before.
      info is the zeroed block of 128 records. */
  method ExtractValue(text: string, stack: string, info: array<Info>) returns (n: nat)
    requires |stack| == LINE_SIZE && info.Length == BOARD_NUM
    requires Extract(text, stack, []).Records?
    modifies info
    ensures n <= BOARD_NUM && Records(info[..n]) == Extract(text, stack, [])
    ensures forall i | n <= i < BOARD_NUM :: info[i] == old(info[i])
  {
    hide ReadLine, Taken;
    var line := new char[LINE_SIZE](i requires 0 <= i < LINE_SIZE => stack[i]);
    assert line[..] == stack;
    var pos := 0;
    n := 0;
    assert text[0..] == text && info[..0] == [];
    while pos < |text|
      invariant pos <= |text| && n <= BOARD_NUM
      invariant fresh(line) && line.Length == LINE_SIZE
      invariant Extract(text[pos..], line[..], info[..n]) == Extract(text, stack, [])
      invariant forall i | n <= i < BOARD_NUM :: info[i] == old(info[i])
      decreases |text| - pos
    {
      n := ExtractLine(text[pos..], line, info, n);
      assert text[pos..][Taken(text[pos..])..] == text[pos + Taken(text[pos..])..];
      pos := pos + Taken(text[pos..]);
    }
    assert text[pos..] == "";
  }

  /** The body of the loop. */
  method ExtractLine(text: string, line: array<char>, info: array<Info>, n: nat) returns (m: nat)
    requires line.Length == LINE_SIZE && info.Length == BOARD_NUM && n <= BOARD_NUM && text != ""
    requires ReadLine(text, line[..], info[..n]).Next?
    modifies line, info
    ensures n <= m <= BOARD_NUM
    ensures Next(line[..], info[..m]) == ReadLine(text, old(line[..]), old(info[..n]))
    ensures forall i | m <= i < BOARD_NUM :: info[i] == old(info[i])
  {
    hide ScanFields, NewlineFrom, TokenStart, TokenEnd, NulFrom, AfterFgets, AfterStrtok;
    var _ := Fgets(line, text);
    var name := Strtok(line);
    var fields := LineFields(line[..]);
    m := n;
    assert info[..n] == old(info[..n]);
    if fields.Three? {
      info[n] := Info(fields.inst, fields.id, fields.boardType, name);
      m := n + 1;
      assert info[..m] == old(info[..n]) + [Info(fields.inst, fields.id, fields.boardType, name)];
    }
  }

  // ----- the round trip

  /** A device the reader can read back: its name is one token of at most 10 characters. */
  predicate Printable(d: Device) {
    && 0 < |d.name| <= 10
    && (forall c | c in d.name :: !Separator(c) && c != '\0')
  }

  /** The record the reader makes of a printed device. */
  function ReadBack(d: Device): Info {
    Info(HexWord(d.minor), d.id, d.boardType, d.name)
  }

  function ReadAll(devices: seq<Device>): seq<Info> {
    seq(|devices|, i requires 0 <= i < |devices| => ReadBack(devices[i]))
  }

  /** The record the device stands for. */
  function Meant(d: Device): Info {
    Info(d.minor, d.id, d.boardType, d.name)
  }

  function MeantAll(devices: seq<Device>): seq<Info> {
    seq(|devices|, i requires 0 <= i < |devices| => Meant(devices[i]))
  }

  /** No newline or NUL inside the fields, and not too many characters. */
  lemma FieldsText(d: Device)
    requires Printable(d)
    ensures var f := Fields(d);
            0 < |f| <= 40 && f[|f| - 1] == '\n' && forall i | 0 <= i < |f| - 1 :: f[i] != '\n' && f[i] != '\0'
  {
    hide Digits, Power;
    assert Power(10, 10) == 10000000000 && Power(16, 8) == U32 by { Powers(); }
    DigitsAreNumeral(d.minor, 10);
    DigitsAreNumeral(d.boardType, 16);
    var v := if d.id < 0x8000_0000 then d.id else U32 - d.id;
    DigitsAreNumeral(v, 10);
    DigitsShort(d.minor, 10, 10);
    DigitsShort(d.boardType, 16, 8);
    DigitsShort(v, 10, 10);
  }

  lemma {:induction false} DigitsShort(n: nat, base: nat, width: nat)
    requires base == 10 || base == 16
    requires n < Power(base, width) && width > 0
    ensures |Digits(n, base)| <= width
    decreases width
  {
    if n >= base {
      if base == 10 {
        DigitsShort(n / 10, 10, width - 1);
      } else {
        DigitsShort(n / 16, 16, width - 1);
      }
    }
  }

  lemma Powers()
    ensures Power(10, 10) == 10000000000 && Power(16, 8) == U32
  {
    assert Power(10, 5) == 100000;
    assert Power(16, 4) == 0x1_0000;
  }

  function Power(base: nat, n: nat): nat {
    if n == 0 then 1 else if base == 10 then 10 * Power(base, n - 1) else 16 * Power(base, n - 1)
  }

  /** Where the three numbers stand in the fields. */
  lemma FieldsAt(s: string, m: string, i: string, t: string)
    requires s == m + ":" + i + ":" + t + "\n"
    ensures var p := |m| + 1; var q := p + |i| + 1;
            && |s| == q + |t| + 1
            && At(s, 0, m) && s[|m|] == ':'
            && At(s, p, i) && s[p + |i|] == ':'
            && At(s, q, t) && s[q + |t|] == '\n'
  {
  }

  lemma ScanFieldsBy(s: string, a: Word, p: nat, b: Word, q: nat, c: Word, e: nat)
    requires ScanNumber(s, 16, 0) == Scanned(a, p) && p < |s| && s[p] == ':'
    requires ScanNumber(s, 10, p + 1) == Scanned(b, q) && q < |s| && s[q] == ':'
    requires ScanNumber(s, 16, q + 1) == Scanned(c, e)
    ensures ScanFields(s) == Three(a, b, c)
  {
    hide ScanNumber;
  }

  /** The fields of one device, scanned. */
  lemma ScanFieldsOf(d: Device)
    requires Printable(d)
    ensures ScanFields(Fields(d)) == Three(HexWord(d.minor), d.id, d.boardType)
  {
    var m, i, t := Digits(d.minor, 10), SignedDec(d.id), "0x" + Digits(d.boardType, 16);
    var s := m + ":" + i + ":" + t + "\n";
    assert Fields(d) == s;
    ScanThree(s, m, i, t, d);
  }

  lemma ScanThree(s: string, m: string, i: string, t: string, d: Device)
    requires Printable(d)
    requires s == m + ":" + i + ":" + t + "\n"
    requires m == Digits(d.minor, 10) && i == SignedDec(d.id) && t == "0x" + Digits(d.boardType, 16)
    ensures ScanFields(s) == Three(HexWord(d.minor), d.id, d.boardType)
  {
    hide ScanNumber, Digits;
    FirstNumber(s, m, i, t, d.minor);
    SecondNumber(s, m, i, t, d.id);
    ThirdNumber(s, m, i, t, d.boardType);
    FieldsAt(s, m, i, t);
    ScanFieldsBy(s, HexWord(d.minor), |m|, d.id, |m| + 1 + |i|, d.boardType, |s| - 1);
  }

  lemma FirstNumber(s: string, m: string, i: string, t: string, x: Minor)
    requires s == m + ":" + i + ":" + t + "\n" && m == Digits(x, 10)
    ensures ScanNumber(s, 16, 0) == Scanned(HexWord(x), |m|)
  {
    hide ScanNumber, Digits;
    FieldsAt(s, m, i, t);
    ScanDecimalAsHex(s, 0, x);
  }

  lemma SecondNumber(s: string, m: string, i: string, t: string, x: Word)
    requires s == m + ":" + i + ":" + t + "\n" && i == SignedDec(x)
    ensures ScanNumber(s, 10, |m| + 1) == Scanned(x, |m| + 1 + |i|)
  {
    hide ScanNumber, Digits;
    FieldsAt(s, m, i, t);
    ScanSignedDec(s, |m| + 1, x);
  }

  lemma ThirdNumber(s: string, m: string, i: string, t: string, x: Word)
    requires s == m + ":" + i + ":" + t + "\n" && t == "0x" + Digits(x, 16)
    ensures ScanNumber(s, 16, |m| + 1 + |i| + 1) == Scanned(x, |s| - 1)
  {
    hide ScanNumber, Digits;
    FieldsAt(s, m, i, t);
    ScanHex(s, |m| + 1 + |i| + 1, x);
  }

  /** The shape of a printed line: the name, blanks up to position 11, the fields. */
  lemma LineShape(d: Device)
    requires Printable(d)
    ensures var l := Line(d); var f := Fields(d);
            && |l| == FIELDS + |f| < LINE_SIZE
            && (forall i | 0 <= i < |d.name| :: l[i] == d.name[i] && !Separator(l[i]) && l[i] != '\0')
            && (forall i | |d.name| <= i < FIELDS :: l[i] == ' ')
            && (forall i | 0 <= i < |f| :: l[FIELDS + i] == f[i] && f[i] != '\0' && (f[i] == '\n' <==> i == |f| - 1))
  {
    FieldsText(d);
    var pad := PadRight(d.name);
    assert forall i | 0 <= i < |d.name| :: pad[i] == pad[..|d.name|][i] && d.name[i] in d.name;
  }

  /** fgets takes exactly the printed line. */
  lemma TakenLine(d: Device, rest: string)
    requires Printable(d)
    ensures Taken(Line(d) + rest) == |Line(d)| > 0
    ensures (Line(d) + rest)[..|Line(d)|] == Line(d) && (Line(d) + rest)[|Line(d)|..] == rest
  {
    hide Line, Fields;
    LineShape(d);
    var l, f := Line(d), Fields(d);
    FieldsText(d);
    assert l[FIELDS + (|f| - 1)] == '\n';
    forall i | 0 <= i < |l| - 1
      ensures (l + rest)[i] != '\n'
    {
      assert (l + rest)[i] == l[i];
      if i >= FIELDS {
        assert l[FIELDS + (i - FIELDS)] == f[i - FIELDS];
      }
    }
    assert (l + rest)[|l| - 1] == '\n';
    assert NewlineFrom(l + rest, 0) == |l| - 1;
  }

  /** strtok finds the name and leaves the fields alone. */
  lemma LineTokens(d: Device, line: string, rest: string)
    requires Printable(d) && |line| == LINE_SIZE
    requires |Line(d)| < LINE_SIZE && line == Line(d) + ['\0'] + rest
    ensures Token(line) == d.name
    ensures LineFields(AfterStrtok(line)) == ScanFields(Fields(d))
  {
    hide Line, Fields, ScanFields;
    LineShape(d);
    var l, f := Line(d), Fields(d);
    assert forall i | 0 <= i < |l| :: line[i] == l[i];
    assert TokenStart(line, 0) == 0;
    assert line[|d.name|] == ' ';
    assert TokenEnd(line, 0) == |d.name|;
    assert line[..|d.name|] == d.name;
    var line' := line[|d.name| := '\0'];
    forall i | FIELDS <= i < |l|
      ensures line'[i] == f[i - FIELDS] && line'[i] != '\0'
    {
      assert l[FIELDS + (i - FIELDS)] == f[i - FIELDS];
    }
    assert line'[|l|] == '\0';
    assert NulFrom(line', FIELDS) == |l|;
    assert line'[FIELDS..|l|] == f;
  }

  /** One printed line gives its record, whatever the line buffer held before. */
  lemma ReadLineOf(d: Device, rest: string, buf: string, found: seq<Info>)
    requires Printable(d) && |buf| == LINE_SIZE && |found| < BOARD_NUM
    ensures var text := Line(d) + rest;
            && text != "" && text[Taken(text)..] == rest
            && ReadLine(text, buf, found).Next?
            && ReadLine(text, buf, found).found == found + [ReadBack(d)]
  {
    hide Line, ScanFields, LineFields, Token, AfterStrtok;
    var text := Line(d) + rest;
    TakenLine(d, rest);
    LineShape(d);
    var line := AfterFgets(buf, text);
    assert line == Line(d) + ['\0'] + buf[|Line(d)| + 1..];
    LineTokens(d, line, buf[|Line(d)| + 1..]);
    ScanFieldsOf(d);
  }

  /** Reading back what was printed, for every device list of at most 128 and whatever the line
      buffer held: the same records in the same order, except that the instance comes back as
      the hexadecimal reading of its decimal text. */
  lemma {:induction false} ReadsBack(devices: seq<Device>, buf: string, found: seq<Info>)
    requires |buf| == LINE_SIZE && |found| + |devices| <= BOARD_NUM
    requires forall d | d in devices :: Printable(d)
    ensures Extract(Listing(devices), buf, found) == Records(found + ReadAll(devices))
    decreases |devices|
  {
    hide Line, ReadLine, ReadBack;
    if devices == [] {
      assert found + ReadAll(devices) == found;
    } else {
      var text := Listing(devices);
      ReadLineOf(devices[0], Listing(devices[1..]), buf, found);
      var next := ReadLine(text, buf, found);
      ReadsBack(devices[1..], next.buf, next.found);
      assert next.found + ReadAll(devices[1..]) == found + ReadAll(devices);
    }
  }

  /** The round trip is exact precisely when every instance is a single decimal digit. */
  lemma RoundTripExactly(devices: seq<Device>, buf: string)
    requires |buf| == LINE_SIZE && |devices| <= BOARD_NUM
    requires forall d | d in devices :: Printable(d)
    ensures Extract(Listing(devices), buf, []) == Records(MeantAll(devices)) <==>
            forall d | d in devices :: d.minor < 10
  {
    hide Extract, Listing, HexReading;
    ReadsBack(devices, buf, []);
    assert [] + ReadAll(devices) == ReadAll(devices);
    forall i | 0 <= i < |devices|
      ensures ReadAll(devices)[i] == MeantAll(devices)[i] <==> devices[i].minor < 10
    {
      HexReadingBounds(devices[i].minor);
    }
    if forall d | d in devices :: d.minor < 10 {
      assert ReadAll(devices) == MeantAll(devices);
    } else {
      var i :| 0 <= i < |devices| && devices[i].minor >= 10;
      assert ReadAll(devices)[i] != MeantAll(devices)[i];
    }
  }

  /** Read back, the lines give the records; an instance of 12 is read as 18. */
  lemma ReadTexts(stack: string)
    requires |stack| == LINE_SIZE
    ensures Extract("es5341     3:7:0xb100\n" + "es5311     12:-1:0xb000\n", stack, []) ==
            Records([Info(3, 7, 0xB100, "es5341"), Info(18, 0xFFFF_FFFF, 0xB000, "es5311")])
  {
    hide Extract, Line, Printable, HexReading, Digits, SignedDec;
    var a, b := Device("es5341", 3, 7, 0xB100), Device("es5311", 12, 0xFFFF_FFFF, 0xB000);
    LineTexts();
    PrintableNames(a, b);
    TwoLines(a, b);
    ReadsBack([a, b], stack, []);
    assert HexReading(3) == 3 && HexReading(12) == 18 by { HexTwelve(); }
    assert [] + ReadAll([a, b]) == [ReadBack(a), ReadBack(b)];
  }

  lemma PrintableNames(a: Device, b: Device)
    requires a.name == "es5341" && b.name == "es5311"
    ensures Printable(a) && Printable(b)
  {
  }

  lemma TwoLines(a: Device, b: Device)
    ensures Listing([a, b]) == Line(a) + Line(b)
  {
    hide Line;
    assert [a, b][1..] == [b] && [b][1..] == [];
    assert Listing([b]) == Line(b) + Listing([]);
  }

  lemma HexTwelve()
    ensures HexReading(3) == 3 && HexReading(12) == 18
  {
    assert HexReading(12) == 16 * HexReading(1) + 2;
  }

  // ----- what the reader makes of other lines

  /** A line of at most 10 characters leaves the fields of the line before it in the buffer. */
  lemma ShortLineKeepsFields(buf: string, text: string)
    requires |buf| == LINE_SIZE && text != "" && Taken(text) <= 10
    ensures LineFields(AfterStrtok(AfterFgets(buf, text))) == LineFields(buf)
  {
    hide ScanFields;
    var line := AfterFgets(buf, text);
    var k := Taken(text);
    assert line[k] == '\0';
    assert TokenEnd(line, TokenStart(line, 0)) <= k;
    var after := AfterStrtok(line);
    assert forall i | 11 <= i < LINE_SIZE :: after[i] == buf[i];
    assert NulFrom(after, 11) == NulFrom(buf, 11);
    var z := NulFrom(buf, 11);
    assert after[11..z] == buf[11..z];
  }

  /** So a line "x" behind a device's line gives a second record of the same instance, id and type. */
  lemma ShortLineRepeats(d: Device, buf: string)
    requires Printable(d) && |buf| == LINE_SIZE
    ensures Extract(Line(d) + "x\n", buf, []) == Records([ReadBack(d), ReadBack(d).(name := "x")])
  {
    hide Line, ScanFields, LineFields, AfterFgets, AfterStrtok, Token, Printable, ReadBack, ReadLine;
    ReadLineOf(d, "x\n", buf, []);
    var first := ReadLine(Line(d) + "x\n", buf, []);
    assert LineFields(first.buf) == Three(ReadBack(d).inst, ReadBack(d).id, ReadBack(d).boardType) by {
      BufferHasFields(Line(d) + "x\n", buf, [], ReadBack(d));
    }
    ReadShort(first.buf, first.found, ReadBack(d));
    LastLine("x\n", first.buf, first.found);
  }

  /** The buffer that a turn of the loop leaves still holds the fields of the record it found. */
  lemma BufferHasFields(text: string, buf: string, found: seq<Info>, i: Info)
    requires |buf| == LINE_SIZE && text != ""
    requires ReadLine(text, buf, found).Next? && ReadLine(text, buf, found).found == found + [i]
    ensures LineFields(ReadLine(text, buf, found).buf) == Three(i.inst, i.id, i.boardType)
  {
    hide LineFields, AfterFgets, AfterStrtok, Token;
    assert (found + [i])[|found|] == i;
    assert |found + [i]| == |found| + 1;
    assert ReadLine(text, buf, found).found[|found|] == i;
  }

  lemma ReadShort(buf: string, found: seq<Info>, i: Info)
    requires |buf| == LINE_SIZE && |found| < BOARD_NUM && LineFields(buf) == Three(i.inst, i.id, i.boardType)
    ensures var turn := ReadLine("x\n", buf, found); turn.Next? && turn.found == found + [i.(name := "x")]
  {
    hide LineFields, AfterFgets, AfterStrtok, Token;
    TakenByNumber("x\n", 1);
    ShortLineKeepsFields(buf, "x\n");
    TokenOfShort(buf);
  }

  /** Reading one line is reading the text that is that line. */
  lemma LastLine(text: string, buf: string, found: seq<Info>)
    requires |buf| == LINE_SIZE && text == "x\n" && ReadLine(text, buf, found).Next?
    ensures Extract(text, buf, found) == Records(ReadLine(text, buf, found).found)
  {
    hide ReadLine;
    TakenByNumber(text, 1);
    assert text[Taken(text)..] == "";
  }

  lemma TokenOfShort(buf: string)
    requires |buf| == LINE_SIZE
    ensures Token(AfterFgets(buf, "x\n")) == "x"
  {
    TakenByNumber("x\n", 1);
    var line := AfterFgets(buf, "x\n");
    assert line[0] == 'x' && line[1] == '\n';
    assert TokenStart(line, 0) == 0 && TokenEnd(line, 0) == 1;
  }

  /** The printer does not cut a name of 11 characters; strtok then ends it where the fields begin, and the
      device is not read at all. */
  lemma LongNameLost(d: Device, rest: string, buf: string, found: seq<Info>)
    requires |d.name| == 11 && (forall c | c in d.name :: !Separator(c) && c != '\0')
    requires |buf| == LINE_SIZE
    ensures var turn := ReadLine(Line(d) + rest, buf, found); turn.Next? && turn.found == found
  {
    hide Digits, SignedDec, ScanFields, HexReading;
    var text := Line(d) + rest;
    assert text[..11] == d.name && text[11] == ' ';
    assert forall i | 0 <= i < 12 :: text[i] != '\n' by {
      assert forall i | 0 <= i < 11 :: text[i] == d.name[i] && d.name[i] in d.name;
    }
    assert Taken(text) >= 12;
    var line := AfterFgets(buf, text);
    assert forall i | 0 <= i < 12 :: line[i] == text[i];
    assert forall i | 0 <= i < 11 :: line[i] == d.name[i] && d.name[i] in d.name;
    assert TokenStart(line, 0) == 0 && TokenEnd(line, 0) == 11;
    var after := AfterStrtok(line);
    assert after[11] == '\0' && NulFrom(after, 11) == 11 && after[11..11] == "";
    assert ScanFields("") == Fewer by { NothingScanned(); }
  }

  lemma NothingScanned()
    ensures ScanFields("") == Fewer
  {
  }

  /** Names end at a blank, a tab or the end of the line. */
  lemma TokenTexts()
    ensures Token("\t a\tb\n") == "a" && Token(" a b\n") == "a" && Token("\na\nb") == "a"
  {
    var s, t, u := "\t a\tb\n", " a b\n", "\na\nb";
    assert TokenStart(s, 0) == 2 && TokenEnd(s, 2) == 3;
    assert TokenStart(t, 0) == 1 && TokenEnd(t, 1) == 2;
    assert TokenStart(u, 0) == 1 && TokenEnd(u, 1) == 2;
  }
}
