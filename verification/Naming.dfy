/** How the driver numbers and names boards (driver/board_info.c, driver/vi53xx_cndev_core.c),
    how the library finds a board's device node (lib/vi53xx_xdma.c), and that the two agree. */
module Naming {
  import opened Wrappers
  import opened Bits
  import opened Counting
  import opened Text
  import opened Duplicates
  import opened Mapping

  const ES5341_ID: Word := 0xB100
  const ES5311_ID: Word := 0xB000
  const ES5342_ID: Word := 0xB200
  const INCA_DT_COUNT: nat := 10
  const BOARD_TYPES: nat := 3
  const MINORS: nat := 0x10_0000
  const NO_INSTANCE: Word := 0xFFFF_FFFF

  // ----- the driver

  /** `_get_board_name` */
  function TypeName(boardType: Word): Option<string> {
    if boardType == ES5341_ID then Some("es5341")
    else if boardType == ES5311_ID then Some("es5311")
    else if boardType == ES5342_ID then Some("es5342")
    else None
  }

  /** A row of the type table; the first row without a name ends it. */
  datatype TypeEntry = TypeEntry(incaDt: Word, name: Option<string>, count: Word)

  predicate TableOk(t: seq<TypeEntry>) {
    && |t| == INCA_DT_COUNT
    && t[0].incaDt == ES5341_ID && t[0].name == TypeName(ES5341_ID)
    && t[1].incaDt == ES5311_ID && t[1].name == TypeName(ES5311_ID)
    && t[2].incaDt == ES5342_ID && t[2].name == TypeName(ES5342_ID)
    && t[3].name == None
  }

  /** The row of a board type. */
  function Row(boardType: Word): (n: nat)
    ensures n <= BOARD_TYPES && (n < BOARD_TYPES <==> TypeName(boardType).Some?)
  {
    if boardType == ES5341_ID then 0 else if boardType == ES5311_ID then 1
    else if boardType == ES5342_ID then 2 else BOARD_TYPES
  }

  /** `MKDEV(major, instance)` in 32 bits, and the minor number read back from it. */
  function Mkdev(major: nat, instance: Word): Word {
    Or(major * Pow2(20), instance) % U32
  }

  function MinorOf(dev: Word): Minor {
    dev % MINORS
  }

  function NodeName(d: Device): string {
    d.name + "_" + Digits(d.minor, 10)
  }

  /** How device_create ends, when there is a device class to call it with. It reports a failure by
      an error pointer; the driver looks for NULL. */
  datatype Creation = NoClass | NodeMade | ErrorPointer | NullPointer

  /** One probe: what the hardware registers say and how the fallible kernel calls end. */
  datatype Probe = Probe(boardType: Word, boardId: Word, mapOk: bool, setNameOk: bool, addOk: bool, create: Creation)

  /** The probe reaches create_cdev with a type the driver knows, so it consumes an instance. */
  predicate Numbered(p: Probe) {
    p.mapOk && TypeName(p.boardType).Some?
  }

  /** Without a class, or with an error pointer, create_cdev succeeds and there is no node. */
  predicate Succeeds(p: Probe) {
    Numbered(p) && p.setNameOk && p.addOk && !p.create.NullPointer?
  }

  /** The device list, newest first, and the names under /dev, oldest first. */
  datatype Kernel = Kernel(table: seq<TypeEntry>, devices: seq<Device>, nodes: seq<string>)

  function Step(k: Kernel, p: Probe): (after: Kernel)
    requires TableOk(k.table)
    ensures TableOk(after.table)
  {
    if !Numbered(p) then k
    else
      var e := k.table[Row(p.boardType)];
      var table := k.table[Row(p.boardType) := e.(count := (e.count + 1) % U32)];
      if !Succeeds(p) then k.(table := table)
      else
        var d := Device(TypeName(p.boardType).value, e.count % MINORS, p.boardId, p.boardType);
        Kernel(table, [d] + k.devices, if p.create.NodeMade? then k.nodes + [NodeName(d)] else k.nodes)
  }

  predicate Boot(k: Kernel) {
    TableOk(k.table) && (forall n | 0 <= n < BOARD_TYPES :: k.table[n].count == 0) && k.devices == [] && k.nodes == []
  }

  function Run(k: Kernel, ps: seq<Probe>): (after: Kernel)
    requires TableOk(k.table)
    ensures TableOk(after.table)
  {
    if ps == [] then k else Step(Run(k, ps[..|ps| - 1]), ps[|ps| - 1])
  }

  /** Whatever major number the kernel handed out, the minor is the instance modulo 2^20. */
  lemma MinorOfMkdev(major: nat, instance: Word)
    ensures MinorOf(Mkdev(major, instance)) == instance % 0x10_0000
  {
    hide Or;
    PowTwenty();
    OrLow(major, instance, 20);
    ModMod(Or(major * Pow2(20), instance));
  }

  lemma ModMod(x: nat)
    ensures x % U32 % MINORS == x % MINORS
  {
  }

  lemma PowTwenty()
    ensures Pow2(20) == MINORS
  {
    assert Pow2(5) == 32;
    assert Pow2(10) == 32 * Pow2(5);
    assert Pow2(15) == 32 * Pow2(10);
    assert Pow2(20) == 32 * Pow2(15);
  }

  // ----- one probe by number

  predicate KnownType(boardType: Word) {
    boardType == 0xB100 || boardType == 0xB000 || boardType == 0xB200
  }

  predicate RightName(d: Device) {
    || (d.boardType == 0xB100 && d.name == "es5341")
    || (d.boardType == 0xB000 && d.name == "es5311")
    || (d.boardType == 0xB200 && d.name == "es5342")
  }

  /** A probe changes something exactly when mapping worked and its type is one of the three. It lists a
      device, with the board's own id, type and name, exactly when moreover the name could be set,
      the character device could be added, and device_create did not return NULL; and
      it adds a node exactly when device_create made one. */
  lemma ProbeByNumber(k: Kernel, p: Probe)
    requires TableOk(k.table)
    ensures var after := Step(k, p);
            var numbered := p.mapOk && KnownType(p.boardType);
            var listed := numbered && p.setNameOk && p.addOk && p.create != NullPointer;
            && (!numbered ==> after == k)
            && (numbered ==> after.table != k.table)
            && (if listed then |after.devices| == |k.devices| + 1 && after.devices[1..] == k.devices
                               && RightName(after.devices[0])
                               && after.devices[0].id == p.boardId && after.devices[0].boardType == p.boardType
                else after.devices == k.devices)
            && after.nodes == k.nodes + (if listed && p.create == NodeMade then [NodeName(after.devices[0])] else [])
  {
    hide NodeName;
    if Numbered(p) {
      assert k.table[Row(p.boardType)].count != (k.table[Row(p.boardType)].count + 1) % U32;
    }
  }

  /** In every run every listed device has the name of its type. */
  lemma {:induction false} ListedByNumber(k: Kernel, ps: seq<Probe>)
    requires Boot(k)
    ensures forall d | d in Run(k, ps).devices :: RightName(d)
  {
    if ps != [] {
      ListedByNumber(k, ps[..|ps| - 1]);
    }
  }

  /** The texts: the node of the first board of the first type, and the path that opens it. */
  lemma FirstNode(k: Kernel, p: Probe)
    requires Boot(k) && p.mapOk && p.setNameOk && p.addOk && p.create == NodeMade && p.boardType == 0xB100
    ensures Run(k, [p]).devices == [Device("es5341", 0, p.boardId, 0xB100)]
    ensures Run(k, [p]).nodes == ["es5341_0"]
    ensures DevicePath([Info(0, p.boardId, 0xB100, "es5341")], p.boardId) == Some("/dev/es5341_0")
  {
    assert [p][..0] == [] && Run(k, []) == k;
    assert Digits(0, 10) == "0" && SignedDec(0) == "0";
    assert "es5341" + "_" + "0" == "es5341_0" && "/dev/" + "es5341_0" == "/dev/es5341_0";
    assert TypeOfBoard([Info(0, p.boardId, 0xB100, "es5341")], p.boardId) == 0xB100;
  }

  // ----- instance numbers over every sequence of probes

  /** How many of the probes consumed an instance of the type. */
  function Attempts(ps: seq<Probe>, boardType: Word): nat {
    if ps == [] then 0
    else
      var last := ps[|ps| - 1];
      Attempts(ps[..|ps| - 1], boardType) + (if Numbered(last) && last.boardType == boardType then 1 else 0)
  }

  /** The device of probe i: its instance is the number of earlier probes of its type, failed or not. */
  function DeviceOf(ps: seq<Probe>, i: nat): Device
    requires i < |ps| && Succeeds(ps[i])
  {
    Device(TypeName(ps[i].boardType).value, Attempts(ps[..i], ps[i].boardType) % MINORS, ps[i].boardId, ps[i].boardType)
  }

  lemma SuccMod(n: nat)
    ensures (n % U32 + 1) % U32 == (n + 1) % U32
  {
  }

  lemma StepCounts(k: Kernel, p: Probe, boardType: Word)
    requires TableOk(k.table) && TypeName(boardType).Some?
    ensures Step(k, p).table[Row(boardType)].count ==
            (k.table[Row(boardType)].count + if Numbered(p) && p.boardType == boardType then 1 else 0) % U32
  {
  }

  /** The k-th instance handed out for a type is k - 1 (modulo the counter's 32 bits), other
      types' counters and later failures of a probe notwithstanding. */
  lemma {:induction false} CountersCount(k: Kernel, ps: seq<Probe>, boardType: Word)
    requires Boot(k) && TypeName(boardType).Some?
    ensures Run(k, ps).table[Row(boardType)].count == Attempts(ps, boardType) % U32
  {
    if ps != [] {
      var p := ps[|ps| - 1];
      CountersCount(k, ps[..|ps| - 1], boardType);
      StepCounts(Run(k, ps[..|ps| - 1]), p, boardType);
      SuccMod(Attempts(ps[..|ps| - 1], boardType));
    }
  }

  /** The devices of the successful probes, newest first. */
  function Listed(ps: seq<Probe>): seq<Device> {
    if ps == [] then []
    else
      var rest := Listed(ps[..|ps| - 1]);
      if Succeeds(ps[|ps| - 1]) then [DeviceOf(ps, |ps| - 1)] + rest else rest
  }

  /** The names of the nodes that were really made, oldest first. */
  function MadeNames(ps: seq<Probe>): seq<string> {
    if ps == [] then []
    else
      var rest, p := MadeNames(ps[..|ps| - 1]), ps[|ps| - 1];
      if Succeeds(p) && p.create.NodeMade? then rest + [NodeName(DeviceOf(ps, |ps| - 1))] else rest
  }

  lemma {:induction false} DevicesListed(k: Kernel, ps: seq<Probe>)
    requires Boot(k)
    ensures Run(k, ps).devices == Listed(ps)
    ensures Run(k, ps).nodes == MadeNames(ps)
  {
    hide NodeName;
    if ps != [] {
      var n := |ps| - 1;
      DevicesListed(k, ps[..n]);
      if Succeeds(ps[n]) {
        CountersCount(k, ps[..n], ps[n].boardType);
        ModMod(Attempts(ps[..n], ps[n].boardType));
      }
    }
  }

  /** A node exists exactly when a successful probe made it. */
  lemma {:induction false} MadeExactly(ps: seq<Probe>, name: string)
    ensures name in MadeNames(ps) <==>
              exists i :: 0 <= i < |ps| && Succeeds(ps[i]) && ps[i].create.NodeMade?
                          && NodeName(DeviceOf(ps, i)) == name
  {
    hide NodeName, Attempts;
    if ps != [] {
      var n := |ps| - 1;
      var before := ps[..n];
      MadeExactly(before, name);
      assert before + [ps[n]] == ps;
      forall i | 0 <= i < n && Succeeds(ps[i])
        ensures before[i] == ps[i] && DeviceOf(before, i) == DeviceOf(ps, i)
      {
        assert before[..i] == ps[..i];
      }
    }
  }

  /** Up to 2^20 numbered probes a type, the node of a successful probe's device exists exactly when
      device_create made it: an error pointer leaves a listed device without a node. */
  lemma NodeExactly(k: Kernel, ps: seq<Probe>, i: nat)
    requires Boot(k) && FewProbes(ps) && i < |ps| && Succeeds(ps[i])
    ensures NodeName(DeviceOf(ps, i)) in Run(k, ps).nodes <==> ps[i].create.NodeMade?
  {
    hide NodeName, Attempts;
    DevicesListed(k, ps);
    MadeExactly(ps, NodeName(DeviceOf(ps, i)));
    forall j | 0 <= j < |ps| && Succeeds(ps[j]) && NodeName(DeviceOf(ps, j)) == NodeName(DeviceOf(ps, i))
      ensures j == i
    {
      if i < j {
        NamesDistinct(ps, i, j);
      } else if j < i {
        NamesDistinct(ps, j, i);
      }
    }
  }

  /** A listed device is that of a successful probe. */
  lemma {:induction false} ListedProbe(ps: seq<Probe>, d: Device) returns (i: nat)
    requires d in Listed(ps)
    ensures i < |ps| && Succeeds(ps[i]) && d == DeviceOf(ps, i)
  {
    var n := |ps| - 1;
    if Succeeds(ps[n]) && d == DeviceOf(ps, n) {
      i := n;
    } else {
      i := ListedProbe(ps[..n], d);
      assert ps[..n][..i] == ps[..i];
    }
  }

  /** The device of every successful probe is listed. */
  lemma {:induction false} ProbeListed(ps: seq<Probe>, i: nat)
    requires i < |ps| && Succeeds(ps[i])
    ensures DeviceOf(ps, i) in Listed(ps)
  {
    var n := |ps| - 1;
    if i < n {
      assert ps[..n][..i] == ps[..i];
      ProbeListed(ps[..n], i);
    }
  }

  lemma {:induction false} AttemptsGrow(ps: seq<Probe>, i: nat, j: nat, boardType: Word)
    requires i <= j <= |ps|
    ensures Attempts(ps[..i], boardType) <= Attempts(ps[..j], boardType)
    ensures i < j && Numbered(ps[i]) && ps[i].boardType == boardType ==>
              Attempts(ps[..i], boardType) < Attempts(ps[..j], boardType)
    decreases j
  {
    if i < j {
      assert ps[..j][..j - 1] == ps[..j - 1];
      AttemptsGrow(ps, i, j - 1, boardType);
    }
  }

  /** Type names are different words of one length, so a node name determines type and minor. */
  lemma NodeNameInjective(a: Word, m: nat, b: Word, n: nat)
    requires TypeName(a).Some? && TypeName(b).Some?
    requires TypeName(a).value + "_" + Digits(m, 10) == TypeName(b).value + "_" + Digits(n, 10)
    ensures a == b && m == n
  {
    SplitName(TypeName(a).value, Digits(m, 10), TypeName(b).value, Digits(n, 10));
    DigitsInjective(m, n);
    assert "es5341"[4] != "es5311"[4] && "es5342"[5] != "es5341"[5] && "es5342"[4] != "es5311"[4];
  }

  lemma SplitName(a: string, x: string, b: string, y: string)
    requires |a| == |b| && a + "_" + x == b + "_" + y
    ensures a == b && x == y
  {
    assert a == (a + "_" + x)[..|a|] && b == (b + "_" + y)[..|a|];
    assert x == (a + "_" + x)[|a| + 1..] && y == (b + "_" + y)[|a| + 1..];
  }

  /** Two successful probes share a node name exactly when they are of one type and their
      attempt numbers agree modulo 2^20, the number of minors. */
  lemma NamesRepeatExactly(ps: seq<Probe>, i: nat, j: nat)
    requires i < j < |ps| && Succeeds(ps[i]) && Succeeds(ps[j])
    ensures NodeName(DeviceOf(ps, i)) == NodeName(DeviceOf(ps, j)) <==>
            ps[i].boardType == ps[j].boardType
            && Attempts(ps[..i], ps[i].boardType) % MINORS == Attempts(ps[..j], ps[j].boardType) % MINORS
  {
    var d, e := DeviceOf(ps, i), DeviceOf(ps, j);
    if NodeName(d) == NodeName(e) {
      NodeNameInjective(d.boardType, d.minor, e.boardType, e.minor);
    }
  }

  /** No type was numbered more often than there are minors. */
  ghost predicate FewProbes(ps: seq<Probe>) {
    forall boardType: Word :: Attempts(ps, boardType) <= MINORS
  }

  /** Up to 2^20 numbered probes a type, all names are distinct. */
  lemma NamesDistinct(ps: seq<Probe>, i: nat, j: nat)
    requires FewProbes(ps)
    requires i < j < |ps| && Succeeds(ps[i]) && Succeeds(ps[j])
    ensures (DeviceOf(ps, i).boardType, DeviceOf(ps, i).minor) != (DeviceOf(ps, j).boardType, DeviceOf(ps, j).minor)
    ensures NodeName(DeviceOf(ps, i)) != NodeName(DeviceOf(ps, j))
  {
    var boardType := ps[j].boardType;
    AttemptsGrow(ps, i, j, boardType);
    AttemptsGrow(ps, j, |ps|, boardType);
    assert ps[..|ps|] == ps;
    NamesRepeatExactly(ps, i, j);
  }

  /** The probe of this device made its node. */
  ghost predicate Made(ps: seq<Probe>, d: Device) {
    exists i :: 0 <= i < |ps| && Succeeds(ps[i]) && ps[i].create.NodeMade? && DeviceOf(ps, i) == d
  }

  lemma ListedNode(k: Kernel, ps: seq<Probe>, d: Device)
    requires Boot(k) && FewProbes(ps) && d in Listed(ps)
    ensures NodeName(d) in Run(k, ps).nodes <==> Made(ps, d)
  {
    hide NodeName, DeviceOf, Run, Listed;
    var i := ListedProbe(ps, d);
    NodeExactly(k, ps, i);
    if Made(ps, d) {
      var j :| 0 <= j < |ps| && Succeeds(ps[j]) && ps[j].create.NodeMade? && DeviceOf(ps, j) == d;
      NodeExactly(k, ps, j);
    }
  }

  // ----- the library

  function IdFrom(list: seq<Info>, id: Word, from: nat): (n: nat)
    requires from <= |list|
    ensures from <= n <= |list|
    ensures n < |list| ==> list[n].id == id
    ensures forall i | from <= i < n :: list[i].id != id
  {
    FirstFrom(list, (x: Info) => x.id == id, from)
  }

  function TypeFrom(list: seq<Info>, boardType: Word, from: nat): (n: nat)
    requires from <= |list|
    ensures from <= n <= |list|
    ensures n < |list| ==> list[n].boardType == boardType
    ensures forall i | from <= i < n :: list[i].boardType != boardType
  {
    FirstFrom(list, (x: Info) => x.boardType == boardType, from)
  }

  /** The lookups of a board: those of its first record, 0 without one. */
  lemma LookupFirst(list: seq<Info>, id: Word, n: nat)
    requires n <= |list| && (forall i | 0 <= i < n :: list[i].id != id) && (n < |list| ==> list[n].id == id)
    ensures TypeOfBoard(list, id) == if n < |list| then list[n].boardType else 0
    ensures InstanceOfBoard(list, id) == if n < |list| then list[n].inst else 0
  {
    assert IdFrom(list, id, 0) == n;
  }

  /** vi53xx_get_board_type: 0 for an unknown board. */
  function TypeOfBoard(list: seq<Info>, id: Word): Word {
    var n := IdFrom(list, id, 0);
    if n < |list| then list[n].boardType else 0
  }

  /** get_board_instance: 0 for an unknown board. */
  function InstanceOfBoard(list: seq<Info>, id: Word): Word {
    var n := IdFrom(list, id, 0);
    if n < |list| then list[n].inst else 0
  }

  /** get_board_name: NULL when no board has the type. */
  function NameOfType(list: seq<Info>, boardType: Word): Option<string> {
    var n := TypeFrom(list, boardType, 0);
    if n < |list| then Some(list[n].name) else None
  }

  /** `sprintf(path, "/dev/%s_%d", ...)`; None when the name is NULL, which C leaves undefined. */
  function DevicePath(list: seq<Info>, id: Word): Option<string> {
    match NameOfType(list, TypeOfBoard(list, id))
    case None => None
    case Some(name) => Some("/dev/" + (name + "_" + SignedDec(InstanceOfBoard(list, id))))
  }

  // ----- both ends together

  /** What the driver guarantees of its device list. */
  ghost predicate DriverList(devices: seq<Device>) {
    && (forall d | d in devices :: TypeName(d.boardType) == Some(d.name))
    && (forall i, j | 0 <= i < j < |devices| ::
          devices[i].id != devices[j].id
          && (devices[i].boardType, devices[i].minor) != (devices[j].boardType, devices[j].minor))
  }

  /** The successful probes found boards with pairwise distinct ids. */
  ghost predicate FreshIds(ps: seq<Probe>) {
    forall i, j | 0 <= i < j < |ps| && Succeeds(ps[i]) && Succeeds(ps[j]) :: ps[i].boardId != ps[j].boardId
  }

  lemma {:induction false} ProbesGiveDriverList(ps: seq<Probe>, m: nat)
    requires FewProbes(ps) && FreshIds(ps) && m <= |ps|
    ensures DriverList(Listed(ps[..m]))
    decreases m
  {
    if m > 0 {
      var q := ps[..m];
      assert q[..m - 1] == ps[..m - 1];
      ProbesGiveDriverList(ps, m - 1);
      if Succeeds(ps[m - 1]) {
        var d, rest := DeviceOf(q, m - 1), Listed(ps[..m - 1]);
        assert d == DeviceOf(ps, m - 1);
        forall e | e in rest
          ensures e.id != d.id && (e.boardType, e.minor) != (d.boardType, d.minor)
        {
          var i := ListedProbe(ps[..m - 1], e);
          assert ps[..m - 1][..i] == ps[..i];
          NamesDistinct(ps, i, m - 1);
        }
        assert Listed(q) == [d] + rest;
      }
    }
  }

  lemma DriverListPrintable(devices: seq<Device>)
    requires DriverList(devices)
    ensures forall d | d in devices :: Printable(d)
  {
    forall d | d in devices
      ensures Printable(d)
    {
      assert |d.name| == 6;
      assert d.name[0] == 'e' && d.name[1] == 's' && d.name[2] == '5' && d.name[3] == '3';
    }
  }

  /** What the library makes of a board id: name by type, instance by id. */
  lemma PathOf(devices: seq<Device>, n: nat)
    requires DriverList(devices) && n < |devices|
    ensures DevicePath(ReadAll(devices), devices[n].id) ==
            Some("/dev/" + (devices[n].name + "_" + Digits(HexWord(devices[n].minor), 10)))
  {
    var list, d := ReadAll(devices), devices[n];
    assert list[n] == ReadBack(d);
    var i := IdFrom(list, d.id, 0);
    assert list[i] == ReadBack(devices[i]);
    assert i == n;
    var t := TypeFrom(list, d.boardType, 0);
    assert list[t] == ReadBack(devices[t]) && devices[t] in devices;
    assert list[t].name == d.name;
    HexReadingFits(d.minor);
  }

  /** The paths of the driver's boards fit the 32 characters of board_name in get_board_handle and of
      dev_name of an open handle. */
  lemma PathFits(devices: seq<Device>, n: nat)
    requires DriverList(devices) && n < |devices|
    ensures var path := DevicePath(ReadAll(devices), devices[n].id); path.Some? && |path.value| < 32
  {
    hide DevicePath;
    PathOf(devices, n);
    assert devices[n] in devices && |devices[n].name| == 6;
    HexReadingFits(devices[n].minor);
    assert Pow10(3) == 1000 && Pow10(6) == 1000 * Pow10(3) && Pow10(9) == 1000 * Pow10(6);
    DigitsLength(HexWord(devices[n].minor), 9);
  }

  /** The path built for one device is the node name of another exactly when they are of one type and
      the minor of the first, read as hexadecimal, is that of the second. */
  lemma PathHits(devices: seq<Device>, n: nat, m: nat)
    requires DriverList(devices) && n < |devices| && m < |devices|
    ensures DevicePath(ReadAll(devices), devices[n].id) == Some("/dev/" + NodeName(devices[m])) <==>
              devices[n].boardType == devices[m].boardType && HexReading(devices[n].minor) == devices[m].minor
  {
    hide DevicePath, Digits;
    var d, e := devices[n], devices[m];
    PathOf(devices, n);
    var p, node := d.name + "_" + Digits(HexWord(d.minor), 10), NodeName(e);
    assert ("/dev/" + p)[5..] == p && ("/dev/" + node)[5..] == node;
    if p == node {
      NodeNameInjective(d.boardType, HexWord(d.minor), e.boardType, e.minor);
    }
  }

  /** So the path is the device's own node exactly for one-digit instances, and two devices never
      share a path, whatever their instances. */
  lemma PathsExact(devices: seq<Device>, n: nat, m: nat)
    requires DriverList(devices) && n < |devices| && m < |devices|
    ensures var list := ReadAll(devices);
            && (DevicePath(list, devices[n].id) == Some("/dev/" + NodeName(devices[n])) <==> devices[n].minor < 10)
            && (n != m ==> DevicePath(list, devices[n].id) != DevicePath(list, devices[m].id))
  {
    hide DevicePath, Digits;
    var d, e := devices[n], devices[m];
    PathHits(devices, n, n);
    HexReadingBounds(d.minor);
    PathOf(devices, n);
    PathOf(devices, m);
    var p, q := d.name + "_" + Digits(HexWord(d.minor), 10), e.name + "_" + Digits(HexWord(e.minor), 10);
    assert ("/dev/" + p)[5..] == p && ("/dev/" + q)[5..] == q;
    if p == q {
      NodeNameInjective(d.boardType, HexWord(d.minor), e.boardType, HexWord(e.minor));
      if d.minor < e.minor {
        HexReadingGrows(d.minor, e.minor);
      } else if e.minor < d.minor {
        HexReadingGrows(e.minor, d.minor);
      }
    }
  }

  /** From the probes to the paths: for every sequence of probes that found distinct boards, the
      library reads the driver's listing, and the path of a listed board n is the node name of
      board m exactly when they are of one type and n's minor, read as hexadecimal, is m's: its own
      below 10, from 10 on possibly another board's. Different boards always get different paths. */
  lemma EndToEnd(k: Kernel, ps: seq<Probe>, stack: string)
    requires Boot(k) && FewProbes(ps) && FreshIds(ps)
    requires |Run(k, ps).devices| <= BOARD_NUM && |stack| == LINE_SIZE
    ensures var devices := Run(k, ps).devices;
            var list := ReadAll(devices);
            && Extract(Listing(devices), stack, []) == Records(list)
            && (forall d | d in devices :: NodeName(d) in Run(k, ps).nodes <==> Made(ps, d))
            && (forall n, m | 0 <= n < |devices| && 0 <= m < |devices| ::
                  var path, other := DevicePath(list, devices[n].id), DevicePath(list, devices[m].id);
                  && (path == Some("/dev/" + NodeName(devices[m])) <==>
                        devices[n].boardType == devices[m].boardType
                        && HexReading(devices[n].minor) == devices[m].minor)
                  && (path == Some("/dev/" + NodeName(devices[n])) <==> devices[n].minor < 10)
                  && (n != m ==> path != other))
  {
    hide DevicePath, NodeName, Extract, Listing, Made;
    var devices := Run(k, ps).devices;
    DevicesListed(k, ps);
    assert ps[..|ps|] == ps;
    ProbesGiveDriverList(ps, |ps|);
    DriverListPrintable(devices);
    ReadsBack(devices, stack, []);
    assert [] + ReadAll(devices) == ReadAll(devices);
    forall d | d in devices
      ensures NodeName(d) in Run(k, ps).nodes <==> Made(ps, d)
    {
      ListedNode(k, ps, d);
    }
    forall n, m | 0 <= n < |devices| && 0 <= m < |devices|
      ensures var list := ReadAll(devices);
              var path, other := DevicePath(list, devices[n].id), DevicePath(list, devices[m].id);
              && (path == Some("/dev/" + NodeName(devices[m])) <==>
                    devices[n].boardType == devices[m].boardType && HexReading(devices[n].minor) == devices[m].minor)
              && (path == Some("/dev/" + NodeName(devices[n])) <==> devices[n].minor < 10)
              && (n != m ==> path != other)
    {
      PathHits(devices, n, m);
      PathsExact(devices, n, m);
    }
  }

  // ----- the driver program

  /** The state of driver/board_info.c and driver/vi53xx_cndev_core.c that numbers and names boards. */
  class Driver {
    const table: array<TypeEntry>
    const majors: array<nat>
    var deviceName: string
    var boardInst: Word
    var devices: seq<Device>
    var nodes: seq<string>

    ghost predicate Valid()
      reads this, table
    {
      table.Length == INCA_DT_COUNT && TableOk(table[..]) && majors.Length == BOARD_TYPES
    }

    ghost function State(): (k: Kernel)
      requires Valid()
      reads this, table
      ensures TableOk(k.table)
    {
      Kernel(table[..], devices, nodes)
    }

    /** init_board_info and the major numbers that vi53xx_cdev_init obtained. */
    constructor (first: nat, second: nat, third: nat)
      ensures Valid() && fresh(table) && fresh(majors) && Boot(State())
      ensures table.Length == 10 && majors[..] == [first, second, third]
    {
      table := new TypeEntry[INCA_DT_COUNT](_ => TypeEntry(0, None, 0));
      majors := new nat[BOARD_TYPES](_ => 0);
      deviceName, boardInst, devices, nodes := "", 0, [], [];
      new;
      table[0] := TypeEntry(ES5341_ID, TypeName(ES5341_ID), 0);
      table[1] := TypeEntry(ES5311_ID, TypeName(ES5311_ID), 0);
      table[2] := TypeEntry(ES5342_ID, TypeName(ES5342_ID), 0);
      majors[0], majors[1], majors[2] := first, second, third;
    }

    /** `_get_board_instance`: the row's counter, then one more; all ones for an unknown type. */
    method TakeInstance(incaDt: Word) returns (inst: Word)
      requires Valid()
      modifies table
      ensures Valid()
      ensures if TypeName(incaDt).Some? then
                var e := old(table[Row(incaDt)]);
                inst == e.count && table[..] == old(table[..])[Row(incaDt) := e.(count := (e.count + 1) % U32)]
              else inst == 0xFFFF_FFFF && table[..] == old(table[..])
    {
      var n := 0;
      while table[n].name.Some?
        invariant n <= BOARD_TYPES && table[..] == old(table[..])
        invariant forall i | 0 <= i < n :: table[i].incaDt != incaDt
        decreases BOARD_TYPES - n
      {
        if incaDt == table[n].incaDt {
          assert n == Row(incaDt);
          inst := table[n].count;
          table[n] := table[n].(count := (inst + 1) % U32);
          return;
        }
        n := n + 1;
      }
      return NO_INSTANCE;
    }

    /** `_get_major_idx` */
    method MajorIdx(incaDt: Word) returns (n: Word)
      requires Valid()
      ensures n == if TypeName(incaDt).Some? then Row(incaDt) else 0xFFFF_FFFF
    {
      n := 0;
      while table[n].name.Some?
        invariant n <= BOARD_TYPES
        invariant forall i | 0 <= i < n :: table[i].incaDt != incaDt
        decreases BOARD_TYPES - n
      {
        if incaDt == table[n].incaDt {
          return;
        }
        n := n + 1;
      }
      return NO_INSTANCE;
    }

    /** create_sys_device: only NULL counts as a failure. */
    method CreateSysDevice(result: Creation) returns (ok: bool)
      modifies `nodes
      ensures ok <==> !result.NullPointer?
      ensures nodes == if result.NodeMade? then old(nodes) + [deviceName] else old(nodes)
    {
      if result.NullPointer? {
        return false;
      }
      if result.NodeMade? {
        nodes := nodes + [deviceName];
      }
      return true;
    }

    /** create_cdev: the instance is consumed first, so it stays consumed when a later call fails.
        (The test of the unsigned instance against 0 never fails; an unknown type is caught by its
        missing name.) */
    method CreateCdev(p: Probe) returns (d: Option<Device>)
      requires Valid() && p.mapOk
      modifies this, table
      ensures Valid() && devices == old(devices)
      ensures d.Some? <==> Succeeds(p)
      ensures State() == Step(old(State()), p).(devices := devices)
      ensures d.Some? ==> [d.value] + devices == Step(old(State()), p).devices
      ensures d.Some? ==> deviceName == NodeName(d.value) && boardInst == d.value.minor
    {
      hide Digits, Mkdev;
      var instance := TakeInstance(p.boardType);
      var name := TypeName(p.boardType);
      if name.None? {
        return None;
      }
      var n := MajorIdx(p.boardType);
      var cdevno := Mkdev(majors[n], instance);
      MinorOfMkdev(majors[n], instance);
      boardInst := MinorOf(cdevno);
      var device := Device(name.value, MinorOf(cdevno), p.boardId, p.boardType);
      deviceName := name.value + "_" + Digits(boardInst, 10);
      if !p.setNameOk {
        return None;
      }
      if !p.addOk {
        return None;
      }
      if !p.create.NoClass? {
        var ok := CreateSysDevice(p.create);
        if !ok {
          return None;
        }
      }
      return Some(device);
    }

    /** xdma_probe, as far as numbering goes: a board whose device was created heads the list. */
    method ProbeBoard(p: Probe)
      requires Valid()
      modifies this, table
      ensures Valid() && State() == Step(old(State()), p)
    {
      if p.mapOk {
        var d := CreateCdev(p);
        if d.Some? {
          devices := [d.value] + devices;
        }
      }
    }
  }
}
