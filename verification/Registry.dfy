/** The board -> idx table of lib/vi53xx_xdma.c together with the id bitmap behind it.

    The table and the bitmap are two encodings of one thing: an injective map from
    registered boards to ids below 128. RefinesMap proves that over every run. */
module Registry {
  import opened Wrappers
  import opened Bits
  import opened Counting
  import opened Tables
  import opened IdBitmap

  const ENOMEM := 12

  /** `vi53xx_boardid_to_idx`: a board and its idx. */
  type Entry = Record<int>
  type Table = seq<Option<Entry>>
  datatype Reg = Reg(bytes: seq<Byte>, table: Table)

  // ----- the table

  /** `_get_idx`: 0 stands for idx 0 and for a board that is not registered. */
  function IdxOf(t: Table, board: Word): int {
    var n := FindBoard(t, board);
    if n < |t| then t[n].value.data else 0
  }

  function ViewFrom(t: Table, from: nat): map<Word, int>
    requires from <= |t|
    decreases |t| - from
  {
    if from == |t| then map[]
    else if t[from].None? then ViewFrom(t, from + 1)
    else ViewFrom(t, from + 1)[t[from].value.board := t[from].value.data]
  }

  /** The map the table encodes, the first slot of a board counting. */
  function View(t: Table): map<Word, int> {
    ViewFrom(t, 0)
  }

  lemma {:induction false} ViewFromAt(t: Table, board: Word, from: nat)
    requires from <= |t|
    ensures board in ViewFrom(t, from) <==> FindFrom(t, board, from) < |t|
    ensures board in ViewFrom(t, from) ==> ViewFrom(t, from)[board] == t[FindFrom(t, board, from)].value.data
    decreases |t| - from
  {
    if from < |t| {
      ViewFromAt(t, board, from + 1);
    }
  }

  lemma ViewAt(t: Table, board: Word)
    ensures board in View(t) <==> FindBoard(t, board) < |t|
    ensures board in View(t) ==> View(t)[board] == IdxOf(t, board)
  {
    ViewFromAt(t, board, 0);
  }

  // ----- the operations

  function Register(r: Reg, board: Word, mallocOk: bool): (res: (Reg, int))
    requires |r.bytes| == BITMAP_SIZE
    ensures |res.0.bytes| == BITMAP_SIZE && |res.0.table| == |r.table|
  {
    var n := FindBoard(r.table, board);
    if n < |r.table| then (r, r.table[n].value.data)
    else if !mallocOk then (r, -ENOMEM)
    else
      var (bytes, id) := TakeId(r.bytes);
      var slot := FirstFree(r.table);
      if slot < |r.table| then (Reg(bytes, r.table[slot := Some(Record(board, id))]), id)
      else (Reg(bytes, r.table), 0)
  }

  function Unregister(r: Reg, board: Word): (res: Reg)
    requires |r.bytes| == BITMAP_SIZE
    ensures |res.bytes| == BITMAP_SIZE && |res.table| == |r.table|
  {
    Reg(FreeId(r.bytes, IdxOf(r.table, board)), DropBoard(r.table, board))
  }

  /** The registry as init_config leaves it. */
  function Empty(): (r: Reg)
    ensures |r.bytes| == BITMAP_SIZE && |r.table| == MAX_DEV_HANDLE
  {
    Reg(NoIds(), seq(MAX_DEV_HANDLE, i => None))
  }

  /** The calls get_idx and release_idx, and init_config when the boards are checked anew. */
  datatype Op = Get(board: Word, mallocOk: bool) | Release(board: Word) | Reset

  function Step(r: Reg, op: Op): (res: (Reg, int))
    requires |r.bytes| == BITMAP_SIZE && |r.table| == MAX_DEV_HANDLE
    ensures |res.0.bytes| == BITMAP_SIZE && |res.0.table| == MAX_DEV_HANDLE
  {
    match op
    case Get(board, mallocOk) => Register(r, board, mallocOk)
    case Release(board) => (Unregister(r, board), 0)
    case Reset => (Empty(), 0)
  }

  /** The state after a run, and what each call returned. */
  function Run(r: Reg, ops: seq<Op>): (res: (Reg, seq<int>))
    requires |r.bytes| == BITMAP_SIZE && |r.table| == MAX_DEV_HANDLE
    ensures |res.0.bytes| == BITMAP_SIZE && |res.1| == |ops|
    decreases |ops|
  {
    if ops == [] then (r, [])
    else
      var (r1, x) := Step(r, ops[0]);
      var (r2, xs) := Run(r1, ops[1..]);
      (r2, [x] + xs)
  }

  // ----- the abstract registry: an injective map

  function MapStep(m: map<Word, int>, op: Op): (map<Word, int>, int) {
    match op
    case Get(board, mallocOk) =>
      if board in m then (m, m[board])
      else if !mallocOk then (m, -12)
      else if |m| >= 128 then (m, 0)
      else var id := LeastAbsent(m.Values, 0); (m[board := id], id)
    case Release(board) => (m - {board}, 0)
    case Reset => (map[], 0)
  }

  function MapRun(m: map<Word, int>, ops: seq<Op>): (res: (map<Word, int>, seq<int>))
    ensures |res.1| == |ops|
    decreases |ops|
  {
    if ops == [] then (m, [])
    else
      var (m1, x) := MapStep(m, ops[0]);
      var (m2, xs) := MapRun(m1, ops[1..]);
      (m2, [x] + xs)
  }

  /** A release frees an id it does not own when the board is unknown: `_get_idx` answers 0. */
  predicate Sound(m: map<Word, int>, op: Op) {
    op.Release? ==> op.board in m || 0 !in m.Values
  }

  predicate SoundRun(m: map<Word, int>, ops: seq<Op>)
    decreases |ops|
  {
    ops == [] || (Sound(m, ops[0]) && SoundRun(MapStep(m, ops[0]).0, ops[1..]))
  }

  // ----- the invariant

  ghost predicate DistinctBoards(t: Table) {
    forall i, j | 0 <= i < |t| && 0 <= j < |t| && t[i].Some? && t[j].Some?
                    && t[i].value.board == t[j].value.board :: i == j
  }

  /** Distinct boards, distinct idx values, and exactly the set bits of the bitmap in use. */
  ghost predicate Inv(r: Reg) {
    && |r.bytes| == BITMAP_SIZE && |r.table| == MAX_DEV_HANDLE
    && DistinctBoards(r.table)
    && Injective(View(r.table))
    && View(r.table).Values == Ids(r.bytes)
  }

  lemma FindBoardIs(t: Table, board: Word, n: nat)
    requires n <= |t|
    requires n < |t| ==> t[n].Some? && t[n].value.board == board
    requires forall i | 0 <= i < n && t[i].Some? :: t[i].value.board != board
    ensures FindBoard(t, board) == n
  {
  }

  lemma ViewSize(t: Table)
    requires DistinctBoards(t)
    ensures |View(t)| == |Occupied(t)|
  {
    var owner := map i | i in Occupied(t) :: t[i].value.board;
    InjectiveSize(owner);
    forall board | board in View(t)
      ensures board in owner.Values
    {
      ViewAt(t, board);
      assert owner[FindBoard(t, board)] == board;
    }
    forall i | i in owner
      ensures owner[i] in View(t)
    {
      ViewAt(t, owner[i]);
    }
    assert owner.Values == View(t).Keys;
    assert owner.Keys == Occupied(t);
    assert |owner| == |owner.Keys| && |View(t)| == |View(t).Keys|;
  }

  /** The table is full exactly when the bitmap is, which is when 128 boards are registered;
      so a registry that is not full has both a free slot and a free id. */
  lemma FullTogether(r: Reg)
    requires Inv(r)
    ensures Ids(r.bytes) == Below(128) <==> FirstFree(r.table) == 128
    ensures FirstFree(r.table) == 128 <==> |View(r.table)| == 128
    ensures |View(r.table)| <= 128
  {
    ViewSize(r.table);
    OccupiedBound(r.table);
    InjectiveSize(View(r.table));
    BelowSize(MAX_DEV_HANDLE);
    SubsetSize(Ids(r.bytes), Below(MAX_DEV_HANDLE));
  }

  lemma EmptyInv()
    ensures Inv(Empty()) && View(Empty().table) == map[]
  {
    NoIdsTaken();
    forall board: Word
      ensures board !in View(Empty().table)
    {
      ViewAt(Empty().table, board);
    }
  }

  /** Filling a free slot adds one pair to the map. */
  lemma FilledSlot(t: Table, slot: nat, e: Entry)
    requires slot < |t| && t[slot].None? && e.board !in View(t)
    ensures View(t[slot := Some(e)]) == View(t)[e.board := e.data]
  {
    var after := t[slot := Some(e)];
    ViewAt(t, e.board);
    forall board: Word
      ensures board in View(after) <==> board == e.board || board in View(t)
      ensures board in View(after) ==> View(after)[board] == if board == e.board then e.data else View(t)[board]
    {
      FindBoardIs(after, board, if board == e.board then slot else FindBoard(t, board));
      ViewAt(after, board);
      ViewAt(t, board);
    }
  }

  /** A board that is not in the map is in no slot. */
  lemma Unheld(t: Table, board: Word)
    requires board !in View(t)
    ensures forall i | 0 <= i < |t| && t[i].Some? :: t[i].value.board != board
  {
    ViewAt(t, board);
  }

  lemma RegisterRefines(r: Reg, board: Word, mallocOk: bool)
    requires Inv(r)
    ensures var (after, x) := Register(r, board, mallocOk);
            Inv(after) && (View(after.table), x) == MapStep(View(r.table), Get(board, mallocOk))
  {
    ViewAt(r.table, board);
    if board !in View(r.table) && mallocOk {
      hide View, TakeId;
      FullTogether(r);
      TakeIdRefines(r.bytes);
      if FirstFree(r.table) < |r.table| {
        EntryKeepsInv(r, board);
      }
    }
  }

  lemma EntryKeepsInv(r: Reg, board: Word)
    requires Inv(r) && board !in View(r.table)
    requires FirstFree(r.table) < |r.table| && Ids(r.bytes) != Below(MAX_DEV_HANDLE)
    ensures var (bytes, id) := TakeId(r.bytes);
            var table := r.table[FirstFree(r.table) := Some(Record(board, id))];
            Inv(Reg(bytes, table)) && View(table) == View(r.table)[board := id]
            && id == LeastAbsent(View(r.table).Values, 0) < MAX_DEV_HANDLE
  {
    hide View;
    TakeIdRefines(r.bytes);
    var id := TakeId(r.bytes).1;
    FilledSlot(r.table, FirstFree(r.table), Record(board, id));
    InjectiveInsert(View(r.table), board, id);
    Unheld(r.table, board);
    assert DistinctBoards(r.table[FirstFree(r.table) := Some(Record(board, id))]);
  }

  lemma DropBoardView(t: Table, board: Word)
    ensures View(DropBoard(t, board)) == View(t) - {board}
    ensures DistinctBoards(t) ==> DistinctBoards(DropBoard(t, board))
  {
    var after := DropBoard(t, board);
    forall b: Word
      ensures b in View(after) <==> b != board && b in View(t)
      ensures b in View(after) ==> View(after)[b] == View(t)[b]
    {
      FindBoardIs(after, b, if b == board then |t| else FindBoard(t, b));
      ViewAt(after, b);
      ViewAt(t, b);
    }
  }

  /** release_idx keeps the invariant exactly when the board is registered or id 0 is free:
      otherwise it clears the bit of whichever board holds id 0. */
  lemma UnregisterExact(r: Reg, board: Word)
    requires Inv(r)
    ensures Inv(Unregister(r, board)) <==> Sound(View(r.table), Release(board))
    ensures View(Unregister(r, board).table) == View(r.table) - {board}
  {
    ViewAt(r.table, board);
    DropBoardView(r.table, board);
    InjectiveRemove(View(r.table), board);
    FreeIdRemoves(r.bytes, IdxOf(r.table, board));
  }

  /** A concrete run that breaks it: board 8 was never registered, so releasing it frees id 0
      under board 7, and board 9 is then given the id that board 7 still holds. */
  lemma UnsoundRelease(r: Reg)
    requires Inv(r) && View(r.table) == map[]
    ensures var (r1, x) := Register(r, 7, true);
            var (r2, y) := Register(Unregister(r1, 8), 9, true);
            x == 0 && y == 0 && View(r2.table) == map[7 := 0, 9 := 0]
  {
    hide Register, Unregister, View;
    RegisterRefines(r, 7, true);
    assert LeastAbsent({}, 0) == 0;
    var r1 := Register(r, 7, true).0;
    FullTogether(r1);
    ReleaseOfUnknown(r1, 8);
    assert Ids(r1.bytes) == {0};
    TakesIdZero(Unregister(r1, 8), 9);
  }

  /** With id 0 free and a slot free, a new board is given id 0, whoever else holds it. */
  lemma TakesIdZero(r: Reg, board: Word)
    requires |r.bytes| == BITMAP_SIZE && 0 !in Ids(r.bytes)
    requires board !in View(r.table) && FirstFree(r.table) < |r.table|
    ensures Register(r, board, true).1 == 0
    ensures View(Register(r, board, true).0.table) == View(r.table)[board := 0]
  {
    TakeIdRefines(r.bytes);
    assert 0 in Below(MAX_DEV_HANDLE);
    ViewAt(r.table, board);
    FilledSlot(r.table, FirstFree(r.table), Record(board, 0));
  }

  lemma ReleaseOfUnknown(r: Reg, board: Word)
    requires |r.bytes| == BITMAP_SIZE && board !in View(r.table)
    ensures Unregister(r, board).table == r.table
    ensures Ids(Unregister(r, board).bytes) == Ids(r.bytes) - {0}
  {
    ViewAt(r.table, board);
    FreeIdRemoves(r.bytes, 0);
    assert DropBoard(r.table, board) == r.table;
  }

  /** Over every run whose releases are sound, re-initialisations included, bitmap and table together
      behave as one injective map: same results, same map, invariant kept. */
  lemma {:induction false} RefinesMap(r: Reg, ops: seq<Op>)
    requires Inv(r) && SoundRun(View(r.table), ops)
    ensures var (after, xs) := Run(r, ops);
            Inv(after) && Injective(View(after.table)) && (View(after.table), xs) == MapRun(View(r.table), ops)
    decreases |ops|
  {
    if ops != [] {
      match ops[0] {
        case Get(board, mallocOk) => RegisterRefines(r, board, mallocOk);
        case Release(board) => UnregisterExact(r, board);
        case Reset => EmptyInv();
      }
      RefinesMap(Step(r, ops[0]).0, ops[1..]);
    }
  }

  /** While a board stays registered, every run leaves its idx alone, and no other board gets it. */
  lemma {:induction false} IdxIsStable(r: Reg, ops: seq<Op>, board: Word, other: Word)
    requires Inv(r) && SoundRun(View(r.table), ops)
    requires board in View(r.table) && Release(board) !in ops && Reset !in ops
    ensures var (after, _) := Run(r, ops);
            && IdxOf(after.table, board) == IdxOf(r.table, board)
            && (other != board && other in View(after.table) ==>
                  IdxOf(after.table, other) != IdxOf(r.table, board))
  {
    RefinesMap(r, ops);
    MapRunKeeps(View(r.table), ops, board);
    var after := Run(r, ops).0;
    ViewAt(r.table, board);
    ViewAt(after.table, board);
    ViewAt(after.table, other);
    if other != board && other in View(after.table) {
      assert View(after.table)[other] != View(after.table)[board];
    }
  }

  lemma {:induction false} MapRunKeeps(m: map<Word, int>, ops: seq<Op>, board: Word)
    requires board in m && Release(board) !in ops && Reset !in ops
    ensures board in MapRun(m, ops).0 && MapRun(m, ops).0[board] == m[board]
    decreases |ops|
  {
    if ops != [] {
      assert ops[0] in ops;
      MapRunKeeps(MapStep(m, ops[0]).0, ops[1..], board);
    }
  }

  // ----- the program

  class IdxRegistry {
    const ids: Bitmap
    const table: array<Option<Entry>>

    ghost predicate Valid() {
      ids.Valid() && table.Length == MAX_DEV_HANDLE
    }

    ghost function State(): (r: Reg)
      requires Valid()
      reads ids.bytes, table
      ensures |r.bytes| == BITMAP_SIZE && |r.table| == MAX_DEV_HANDLE
    {
      Reg(ids.bytes[..], table[..])
    }

    constructor ()
      ensures Valid() && fresh(ids.bytes) && fresh(table) && State() == Empty()
    {
      ids := new Bitmap();
      table := new Option<Entry>[MAX_DEV_HANDLE](_ => None);
    }

    /** The part of init_config that concerns the registry. */
    method Init()
      requires Valid()
      modifies ids.bytes, table
      ensures State() == Empty()
    {
      for n := 0 to MAX_DEV_HANDLE
        invariant forall i | 0 <= i < n :: table[i].None?
      {
        table[n] := None;
      }
      ids.Clear();
    }

    method LookupIdx(board: Word) returns (idx: int)
      requires Valid()
      ensures idx == IdxOf(table[..], board)
    {
      for n := 0 to MAX_DEV_HANDLE
        invariant forall i | 0 <= i < n && table[i].Some? :: table[i].value.board != board
      {
        if table[n].Some? && table[n].value.board == board {
          assert FindBoard(table[..], board) == n;
          return table[n].value.data;
        }
      }
      return 0;
    }

    method GetIdx(board: Word, mallocOk: bool) returns (idx: int)
      requires Valid()
      modifies ids.bytes, table
      ensures (State(), idx) == Register(old(State()), board, mallocOk)
    {
      for n := 0 to MAX_DEV_HANDLE
        invariant State() == old(State())
        invariant forall i | 0 <= i < n && table[i].Some? :: table[i].value.board != board
      {
        if table[n].Some? && table[n].value.board == board {
          assert FindBoard(table[..], board) == n;
          return table[n].value.data;
        }
      }
      assert FindBoard(table[..], board) == MAX_DEV_HANDLE;
      if !mallocOk {
        return -ENOMEM;
      }
      var id := ids.GetUniqueId();
      for n := 0 to MAX_DEV_HANDLE
        invariant table[..] == old(table[..])
        invariant (ids.bytes[..], id) == TakeId(old(ids.bytes[..]))
        invariant forall i | 0 <= i < n :: table[i].Some?
      {
        if table[n].None? {
          assert FirstFree(table[..]) == n;
          table[n] := Some(Record(board, id));
          return id;
        }
      }
      assert FirstFree(table[..]) == MAX_DEV_HANDLE;
      return 0;
    }

    method ReleaseIdx(board: Word)
      requires Valid()
      modifies ids.bytes, table
      ensures State() == Unregister(old(State()), board)
    {
      var idx := LookupIdx(board);
      ids.DestroyId(idx);
      ghost var t := table[..];
      for n := 0 to MAX_DEV_HANDLE
        invariant forall i | 0 <= i < n :: table[i] == DropBoard(t, board)[i]
        invariant forall i | n <= i < MAX_DEV_HANDLE :: table[i] == t[i]
        invariant ids.bytes[..] == FreeId(old(ids.bytes[..]), IdxOf(t, board))
      {
        if table[n].Some? && table[n].value.board == board {
          table[n] := None;
        }
      }
      assert table[..] == DropBoard(t, board);
    }
  }
}
