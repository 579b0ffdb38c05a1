/** Checking, opening and closing boards (lib/vi53xx_xdma.c): the open-handle table, the
    online count that decides when the board list is freed, and their invariants over runs. */
module Library {
  import opened Wrappers
  import opened Bits
  import opened Counting
  import opened Tables
  import opened IdBitmap
  import opened Registry
  import opened Text
  import opened Duplicates
  import opened Mapping
  import opened Naming

  const ENODEV := 19

  /** `struct vi53xx_dev_handle`, without its board: path is None where the name printed into it was NULL. */
  datatype Opened = Opened(fd: int, path: Option<string>)
  type Handle = Record<Opened>
  type Handles = seq<Option<Handle>>

  /** The file-scope variables: reg for the idx table and bitmap; boards is None once freed. */
  datatype Lib = Lib(reg: Reg, handles: Handles, boards: Option<seq<Info>>, available: nat, online: int, checked: bool)

  // ----- lookups

  /** get_available_board_count */
  function Count(s: Lib): (n: nat)
    ensures n <= MAX_DEV_HANDLE
  {
    if s.available > MAX_DEV_HANDLE then 0 else s.available
  }

  /** The boards the last check found. */
  function Known(s: Lib): seq<Info> {
    if s.boards.Some? && s.available <= |s.boards.value| then s.boards.value[..s.available] else []
  }

  /** get_dev_handle: the scan covers the slots below the board count. */
  function GetDevHandle(s: Lib, board: Word): Option<Handle>
    requires |s.handles| == MAX_DEV_HANDLE
  {
    var h := s.handles[..Count(s)];
    var n := FindBoard(h, board);
    if n < |h| then h[n] else None
  }

  predicate IsKnown(s: Lib, board: Word) {
    exists i :: 0 <= i < |Known(s)| && Known(s)[i].id == board
  }

  predicate IsOpen(s: Lib, board: Word) {
    exists i :: 0 <= i < |s.handles| && s.handles[i].Some? && s.handles[i].value.board == board
  }

  // ----- the operations; fd is what open(2) returned for the board's path

  function Open(s: Lib, board: Word, fd: int, mallocOk: bool): (res: (Lib, int))
    requires |s.handles| == MAX_DEV_HANDLE
    ensures |res.0.handles| == MAX_DEV_HANDLE
  {
    var cnt := Count(s);
    var h := s.handles[..cnt];
    var n := FindBoard(h, board);
    if cnt == 0 || fd < 0 then (s, -ENODEV)
    else if n < cnt then (s, h[n].value.data.fd)
    else
      var counted := s.(online := cnt + 1);
      var slot := FirstFree(h);
      if !mallocOk then (counted, -ENOMEM)
      else if slot < cnt then
        (counted.(handles := s.handles[slot := Some(Record(board, Opened(fd, DevicePath(Known(s), board))))]), fd)
      else (counted, 0)
  }

  /** release_board_info */
  function Freed(s: Lib): Lib {
    s.(boards := None, available := 0, online := 0, checked := false)
  }

  function Close(s: Lib, board: Word): (after: Lib)
    requires |s.handles| == MAX_DEV_HANDLE && |s.reg.bytes| == BITMAP_SIZE
    ensures |after.handles| == MAX_DEV_HANDLE && |after.reg.bytes| == BITMAP_SIZE
  {
    var reg := Unregister(s.reg, board);
    if Count(s) == 0 || s.online <= 0 then Freed(s).(reg := reg)
    else
      var left := if s.online == 1 then Freed(s) else s;
      left.(online := s.online - 1, handles := DropBoard(s.handles, board), reg := reg)
  }

  function Zeroed(n: nat): seq<Info> {
    seq(n, i => ZEROED)
  }

  function NoHandles(): (h: Handles)
    ensures |h| == MAX_DEV_HANDLE
  {
    seq(MAX_DEV_HANDLE, i => None)
  }

  /** What a file lists: the block has room for 128 records. */
  type Found = list: seq<Info> | |list| <= BOARD_NUM

  /** check_boards_info: `listing` is what extractValue read, None when the file is missing. */
  function Check(s: Lib, listing: Option<Found>, mallocInfo: bool, mallocErr: bool): (Lib, int) {
    if s.checked then (s, 0)
    else
      var s1 := s.(reg := Empty(), handles := NoHandles(), checked := true);
      if !mallocInfo then (s1.(boards := None), -1)
      else
        var s2 := s1.(boards := Some(Zeroed(BOARD_NUM)));
        if !mallocErr then (s2, -1)
        else if listing.None? || listing.value == [] then (s2, 0)
        else
          var list := listing.value;
          (s2.(boards := Some(list + Zeroed(BOARD_NUM - |list|)), available := |list|), Verdict(list) as int)
  }

  // ----- invariants

  /** The state a successful check leaves, and opens and closes keep. */
  ghost predicate Safe(s: Lib) {
    && |s.handles| == MAX_DEV_HANDLE && |s.reg.bytes| == BITMAP_SIZE && s.checked
    && s.boards.Some? && |s.boards.value| == BOARD_NUM && 0 < s.available <= BOARD_NUM
    && DistinctIds(Known(s))
    && (forall i | s.available <= i < |s.handles| :: s.handles[i].None?)
    && (forall i | 0 <= i < |s.handles| && s.handles[i].Some? :: IsKnown(s, s.handles[i].value.board))
    && (forall i, j | 0 <= i < j < |s.handles| && s.handles[i].Some? && s.handles[j].Some? ::
          s.handles[i].value.board != s.handles[j].value.board)
  }

  /** How many handles are open. */
  function OpenCount(s: Lib): nat {
    |Occupied(s.handles)|
  }

  /** Once a handle is open, the online count exceeds the number of open handles. */
  ghost predicate Counted(s: Lib) {
    OpenCount(s) > 0 ==> s.online > OpenCount(s)
  }

  /** No board is listed and none is open: before the first check, and after one that found nothing. */
  ghost predicate Unlisted(s: Lib) {
    && |s.handles| == MAX_DEV_HANDLE && |s.reg.bytes| == BITMAP_SIZE
    && s.available == 0 && forall i | 0 <= i < |s.handles| :: s.handles[i].None?
  }

  /** What every run keeps. */
  ghost predicate Ready(s: Lib) {
    Unlisted(s) || (Safe(s) && Counted(s))
  }

  /** Free slots below the count are those that the open handles leave. */
  lemma SlotFreeExactly(s: Lib)
    requires Safe(s)
    ensures OpenCount(s) <= s.available
    ensures FirstFree(s.handles[..s.available]) < s.available <==> OpenCount(s) < s.available
  {
    var h := s.handles[..s.available];
    assert forall i | 0 <= i < |h| :: h[i] == s.handles[i];
    assert Occupied(h) == Occupied(s.handles);
    OccupiedBound(h);
  }

  lemma KnownSize(s: Lib)
    requires Safe(s)
    ensures |Known(s)| == s.available
  {
  }

  /** Pigeonhole: while a known board is not open, fewer handles are open than boards are known. */
  lemma RoomForUnopened(s: Lib, board: Word)
    requires Safe(s) && IsKnown(s, board) && !IsOpen(s, board)
    ensures OpenCount(s) < s.available
  {
    hide IdFrom, Known;
    var list := Known(s);
    assert |list| == s.available by { KnownSize(s); }
    var owner := map i | i in Occupied(s.handles) :: IdFrom(list, s.handles[i].value.board, 0);
    forall i | i in owner
      ensures owner[i] < |list| && list[owner[i]].id == s.handles[i].value.board != board
    {
      assert IsKnown(s, s.handles[i].value.board);
    }
    assert Injective(owner);
    SmallerImage(owner, s.available, IdFrom(list, board, 0));
    assert owner.Keys == Occupied(s.handles) && |owner| == |owner.Keys|;
  }

  /** Opening a known board that is not open always finds a slot: the call returns the descriptor,
      never the trailing 0; a lookup then finds exactly this handle, every other lookup is as
      before, and the online count is one above the number of known boards. */
  lemma OpenNeverLosesBoard(s: Lib, board: Word, fd: int)
    requires Safe(s) && IsKnown(s, board) && !IsOpen(s, board) && fd >= 0
    ensures var (after, r) := Open(s, board, fd, true);
            && r == fd && after.online == s.available + 1
            && GetDevHandle(after, board) == Some(Record(board, Opened(fd, DevicePath(Known(s), board))))
            && (forall other: Word | other != board :: GetDevHandle(after, other) == GetDevHandle(s, other))
            && Safe(after) && OpenCount(after) == OpenCount(s) + 1
  {
    hide DevicePath, FindBoard, FindFrom, FirstFree;
    RoomForUnopened(s, board);
    SlotFreeExactly(s);
    var h := s.handles[..s.available];
    var mine := Record(board, Opened(fd, DevicePath(Known(s), board)));
    assert forall i | 0 <= i < |h| :: h[i] == s.handles[i];
    var slot := FirstFree(h);
    var after := Open(s, board, fd, true).0;
    assert after == s.(online := s.available + 1, handles := s.handles[slot := Some(mine)]);
    StoreKeepsSafe(s, slot, mine);
    HandlesAfterStore(h, slot, mine);
    assert after.handles[..s.available] == h[slot := Some(mine)];
  }

  lemma StoreKeepsSafe(s: Lib, slot: nat, mine: Handle)
    requires Safe(s) && slot < s.available && s.handles[slot].None?
    requires IsKnown(s, mine.board) && !IsOpen(s, mine.board)
    ensures var after := s.(online := s.available + 1, handles := s.handles[slot := Some(mine)]);
            Safe(after) && OpenCount(after) == OpenCount(s) + 1
  {
    hide Occupied;
    var after := s.(online := s.available + 1, handles := s.handles[slot := Some(mine)]);
    assert Known(after) == Known(s);
    SlotTaken(s.handles, slot, mine);
  }

  lemma SlotTaken(h: Handles, slot: nat, mine: Handle)
    requires slot < |h| && h[slot].None?
    ensures |Occupied(h[slot := Some(mine)])| == |Occupied(h)| + 1
  {
    assert Occupied(h[slot := Some(mine)]) == Occupied(h) + {slot};
  }

  lemma HandlesAfterStore(h: Handles, slot: nat, mine: Handle)
    requires slot < |h| && h[slot].None?
    requires forall i | 0 <= i < |h| && h[i].Some? :: h[i].value.board != mine.board
    ensures var after := h[slot := Some(mine)];
            && FindBoard(after, mine.board) == slot
            && forall other: Word | other != mine.board :: FindBoard(after, other) == FindBoard(h, other)
  {
    var after := h[slot := Some(mine)];
    assert after[slot] == Some(mine);
    forall other: Word | other != mine.board
      ensures FindBoard(after, other) == FindBoard(h, other)
    {
      var n := FindBoard(h, other);
      assert n < |h| ==> after[n] == h[n];
    }
  }

  // ----- runs

  /** Calls of the library's users; IdxCall is get_idx, CheckCall check_boards_info. */
  datatype Call =
    | OpenCall(board: Word, fd: int, mallocOk: bool)
    | CloseCall(board: Word)
    | IdxCall(board: Word, mallocOk: bool)
    | CheckCall(listing: Option<Found>, mallocInfo: bool, mallocErr: bool)

  function Do(s: Lib, c: Call): (after: Lib)
    requires |s.handles| == MAX_DEV_HANDLE && |s.reg.bytes| == BITMAP_SIZE
    ensures |after.handles| == MAX_DEV_HANDLE && |after.reg.bytes| == BITMAP_SIZE
  {
    match c
    case OpenCall(board, fd, mallocOk) => Open(s, board, fd, mallocOk).0
    case CloseCall(board) => Close(s, board)
    case IdxCall(board, mallocOk) => s.(reg := Register(s.reg, board, mallocOk).0)
    case CheckCall(listing, mallocInfo, mallocErr) => Check(s, listing, mallocInfo, mallocErr).0
  }

  function Calls(s: Lib, cs: seq<Call>): (after: Lib)
    requires |s.handles| == MAX_DEV_HANDLE && |s.reg.bytes| == BITMAP_SIZE
    ensures |after.handles| == MAX_DEV_HANDLE && |after.reg.bytes| == BITMAP_SIZE
    decreases |cs|
  {
    if cs == [] then s else Calls(Do(s, cs[0]), cs[1..])
  }

  /** The kernel opens a node only for a board it lists; once boards are listed only open ones are
      closed; and the program goes on only after a check that reports no duplicates. */
  ghost predicate Fair(s: Lib, c: Call) {
    match c
    case OpenCall(board, fd, _) => s.available > 0 && fd >= 0 ==> IsKnown(s, board)
    case CloseCall(board) => s.available == 0 || IsOpen(s, board)
    case IdxCall(_, _) => true
    case CheckCall(listing, mallocInfo, mallocErr) => Check(s, listing, mallocInfo, mallocErr).1 <= 0
  }

  ghost predicate FairCalls(s: Lib, cs: seq<Call>)
    requires |s.handles| == MAX_DEV_HANDLE && |s.reg.bytes| == BITMAP_SIZE
    decreases |cs|
  {
    cs == [] || (Fair(s, cs[0]) && FairCalls(Do(s, cs[0]), cs[1..]))
  }

  /** Every other outcome of an open, by number: -ENODEV (19) without a descriptor, the open board's own
      descriptor, -ENOMEM (12) without memory, and otherwise the first free slot, or 0 without one.
      An open that gets as far as the memory sets the online count, whether it succeeds or not. */
  lemma OpenByCases(s: Lib, board: Word, fd: int, mallocOk: bool)
    requires Safe(s)
    ensures var (after, r) := Open(s, board, fd, mallocOk);
            var counted := s.(online := s.available + 1);
            if fd < 0 then (after, r) == (s, -19)
            else if IsOpen(s, board) then
              after == s && exists i :: 0 <= i < s.available && s.handles[i].Some?
                                        && s.handles[i].value.board == board && r == s.handles[i].value.data.fd
            else if !mallocOk then (after, r) == (counted, -12)
            else if OpenCount(s) == s.available then (after, r) == (counted, 0)
            else
              var slot := FirstFree(s.handles);
              && slot < s.available && r == fd
              && var mine := Record(board, Opened(fd, DevicePath(Known(s), board)));
              after == counted.(handles := s.handles[slot := Some(mine)])
  {
    hide DevicePath, FindFrom, FreeFrom;
    SlotFreeExactly(s);
    var h := s.handles[..s.available];
    assert forall i | 0 <= i < |h| :: h[i] == s.handles[i];
    var slot := FirstFree(h);
    if slot < |h| {
      assert FirstFree(s.handles) == slot;
    }
    if IsOpen(s, board) {
      var i :| 0 <= i < |s.handles| && s.handles[i].Some? && s.handles[i].value.board == board;
      assert h[i] == s.handles[i];
    }
  }

  lemma OpenKeeps(s: Lib, board: Word, fd: int, mallocOk: bool)
    requires Safe(s) && Counted(s) && (fd >= 0 ==> IsKnown(s, board))
    ensures var after := Open(s, board, fd, mallocOk).0;
            Safe(after) && Counted(after) && after.boards == s.boards && after.available == s.available
  {
    hide DevicePath;
    SlotFreeExactly(s);
    if fd >= 0 && !IsOpen(s, board) {
      if mallocOk {
        OpenNeverLosesBoard(s, board, fd);
        SlotFreeExactly(Open(s, board, fd, true).0);
      } else {
        var after := Open(s, board, fd, mallocOk).0;
        assert Known(after) == Known(s);
      }
    } else if fd >= 0 {
      var i :| 0 <= i < |s.handles| && s.handles[i].Some? && s.handles[i].value.board == board;
      assert s.handles[..s.available][i] == s.handles[i];
    }
  }

  lemma DropCount(s: Lib, board: Word)
    requires Safe(s)
    ensures |Occupied(DropBoard(s.handles, board))| == OpenCount(s) - (if IsOpen(s, board) then 1 else 0)
  {
    if IsOpen(s, board) {
      var i :| 0 <= i < |s.handles| && s.handles[i].Some? && s.handles[i].value.board == board;
      DropOne(s.handles, board, i);
    } else {
      assert DropBoard(s.handles, board) == s.handles;
    }
  }

  lemma DropOne(h: Handles, board: Word, n: nat)
    requires n < |h| && h[n].Some?
    requires forall i | 0 <= i < |h| && h[i].Some? :: h[i].value.board == board <==> i == n
    ensures |Occupied(DropBoard(h, board))| == |Occupied(h)| - 1
  {
    assert n in Occupied(h);
    assert Occupied(DropBoard(h, board)) == Occupied(h) - {n};
  }

  /** A close keeps the invariant exactly when it closes an open board or the online count has
      slack; one stray close too many and the board list is freed or the count falls behind. */
  lemma CloseExact(s: Lib, board: Word)
    requires Safe(s) && Counted(s)
    ensures var after := Close(s, board);
            && (Safe(after) && Counted(after) <==> IsOpen(s, board) || s.online > OpenCount(s) + 1)
            && (IsOpen(s, board) ==> after.boards == s.boards && after.available == s.available)
            && (s.online > 0 ==> OpenCount(after) == OpenCount(s) - (if IsOpen(s, board) then 1 else 0))
  {
    var after := Close(s, board);
    DropCount(s, board);
    if IsOpen(s, board) {
      assert OpenCount(s) > 0 by {
        var i :| 0 <= i < |s.handles| && s.handles[i].Some? && s.handles[i].value.board == board;
        assert i in Occupied(s.handles);
      }
    }
    if s.online > 1 {
      assert Known(after) == Known(s);
      assert forall b: Word :: IsKnown(after, b) == IsKnown(s, b);
    }
  }

  predicate Lists(listing: Option<Found>) {
    listing.Some? && listing.value != []
  }

  /** A check that was made before changes nothing and returns 0. A first one leaves the invariants
      exactly when memory was there and it found at least one board and no board id twice; when it found
      nothing, the old board count stays, and with it a count of 1 makes a board of the zeroed record.
      Otherwise no board is listed, or it returns the number of error records. */
  lemma CheckExact(s: Lib, listing: Option<Found>, mallocInfo: bool, mallocErr: bool)
    ensures var (after, r) := Check(s, listing, mallocInfo, mallocErr);
            var found := mallocInfo && mallocErr && Lists(listing);
            if s.checked then (after, r) == (s, 0)
            else
              && (Safe(after) <==> if found then DistinctIds(listing.value) else mallocInfo && s.available == 1)
              && (Safe(after) ==> Known(after) == (if found then listing.value else [ZEROED]) && Counted(after))
              && (Unlisted(after) <==> !found && s.available == 0)
              && (r <= 0 && s.available == 0 ==> Safe(after) || Unlisted(after))
              && Inv(after.reg) && View(after.reg.table) == map[] && OpenCount(after) == 0
              && after.checked && after.online == s.online
  {
    hide Inv;
    var (after, r) := Check(s, listing, mallocInfo, mallocErr);
    EmptyInv();
    assert Occupied(NoHandles()) == {};
    if !s.checked && mallocInfo {
      if mallocErr && Lists(listing) {
        assert Known(after) == listing.value;
        if r == 0 {
          PassMeansDistinct(listing.value);
        }
      } else if 1 <= s.available <= BOARD_NUM {
        assert Known(after) == Zeroed(BOARD_NUM)[..s.available];
        assert s.available > 1 ==> Known(after)[0].id == Known(after)[1].id;
      }
    }
  }

  /** The result that the comment above check_boards_info promises: negative without memory, file or board. */
  predicate Promised(listing: Option<Found>, memory: bool, r: int) {
    r < 0 <==> !memory || !Lists(listing)
  }

  /** When the result is negative, in every state; a first check keeps the promise exactly when
      memory was refused or boards are listed, and a second one, which returns 0 whatever the first
      found, exactly when memory was there and boards are listed. */
  lemma CheckContract(s: Lib, listing: Option<Found>, mallocInfo: bool, mallocErr: bool)
    ensures var (after, r) := Check(s, listing, mallocInfo, mallocErr);
            var memory := mallocInfo && mallocErr;
            && (r < 0 <==> !s.checked && !memory) && (r < 0 ==> r == -1)
            && (!s.checked ==> (Promised(listing, memory, r) <==> !memory || Lists(listing)))
            && Check(after, listing, mallocInfo, mallocErr) == (after, 0)
            && (Promised(listing, memory, 0) <==> memory && Lists(listing))
  {
  }

  /** After a check that found nothing, opens fail and further checks return 0, whatever the file and
      the memory are by then, until a close; the close makes the next check a first one. */
  lemma {:induction false} NoRetryBeforeClose(s: Lib, cs: seq<Call>, next: Call)
    requires Unlisted(s) && s.checked && forall c | c in cs :: !c.CloseCall?
    ensures var after := Calls(s, cs);
            && Unlisted(after) && after.checked
            && (next.OpenCall? ==> Open(after, next.board, next.fd, next.mallocOk) == (after, -19))
            && (next.CheckCall? ==> Check(after, next.listing, next.mallocInfo, next.mallocErr) == (after, 0))
            && (next.CloseCall? ==> Unlisted(Do(after, next)) && !Do(after, next).checked)
    decreases |cs|
  {
    if cs != [] {
      NoRetryBeforeClose(Do(s, cs[0]), cs[1..], next);
    }
  }

  /** A close in every state: the board's handles go and no other, the online count drops by one, and
      the list is freed with the last; with no list or an online count of 0 it is freed at once and
      the handles stay. Either way the board leaves the idx table, and the id that a lookup of it
      gives leaves the bitmap. */
  lemma CloseByCases(s: Lib, board: Word)
    requires |s.handles| == MAX_DEV_HANDLE && Inv(s.reg)
    ensures var after := Close(s, board);
            && (if 0 < s.available <= 128 && s.online > 0 then
                  && (forall i | 0 <= i < |s.handles| ::
                        var h := s.handles[i];
                        after.handles[i] == if h.Some? && h.value.board == board then None else h)
                  && after.online == s.online - 1
                  && if s.online == 1 then after.boards == None && after.available == 0 && !after.checked
                     else (after.boards, after.available, after.checked) == (s.boards, s.available, s.checked)
                else
                  after.handles == s.handles && after.online == 0
                  && after.boards == None && after.available == 0 && !after.checked)
            && View(after.reg.table) == View(s.reg.table) - {board}
            && Ids(after.reg.bytes) == Ids(s.reg.bytes) - {IdxOf(s.reg.table, board)}
  {
    hide Inv, View;
    InvSizes(s.reg);
    UnregisterExact(s.reg, board);
    FreeIdRemoves(s.reg.bytes, IdxOf(s.reg.table, board));
  }

  /** No early release: in every run of checks, opens, get_idx calls and closes of open boards, from
      the start of the program on, the list stays once a check has passed, and the online count
      exceeds the open handles whenever one is open. */
  lemma {:induction false} NoEarlyRelease(s: Lib, cs: seq<Call>)
    requires Ready(s) && FairCalls(s, cs)
    ensures var after := Calls(s, cs);
            && Ready(after)
            && (Safe(s) ==> Safe(after) && after.boards == s.boards && after.available == s.available)
            && (OpenCount(after) > 0 ==> after.boards.Some? && after.online > OpenCount(after))
    decreases |cs|
  {
    if cs != [] {
      StepReady(s, cs[0]);
      NoEarlyRelease(Do(s, cs[0]), cs[1..]);
    } else if Unlisted(s) {
      assert Occupied(s.handles) == {};
    }
  }

  lemma StepReady(s: Lib, c: Call)
    requires Ready(s) && Fair(s, c)
    ensures Ready(Do(s, c))
    ensures Safe(s) ==> Safe(Do(s, c)) && Do(s, c).boards == s.boards && Do(s, c).available == s.available
  {
    hide Inv, DevicePath, FindBoard, FindFrom, FirstFree, Register, Unregister;
    match c {
      case OpenCall(board, fd, mallocOk) =>
        if Safe(s) {
          OpenKeeps(s, board, fd, mallocOk);
        }
      case CloseCall(board) =>
        if Safe(s) {
          CloseExact(s, board);
        }
      case IdxCall(board, mallocOk) => assert Known(Do(s, c)) == Known(s);
      case CheckCall(listing, mallocInfo, mallocErr) => CheckExact(s, listing, mallocInfo, mallocErr);
    }
  }

  /** A close also releases the board's idx, registered or not. */
  predicate SoundCall(s: Lib, c: Call) {
    c.CloseCall? ==> Sound(View(s.reg.table), Release(c.board))
  }

  predicate SoundCalls(s: Lib, cs: seq<Call>)
    requires |s.handles| == MAX_DEV_HANDLE && |s.reg.bytes| == BITMAP_SIZE
    decreases |cs|
  {
    cs == [] || (SoundCall(s, cs[0]) && SoundCalls(Do(s, cs[0]), cs[1..]))
  }

  /** A close keeps the idx registry intact exactly when the board has an idx or id 0 is free. */
  lemma CloseRegistryExact(s: Lib, board: Word)
    requires |s.handles| == MAX_DEV_HANDLE && Inv(s.reg)
    ensures Inv(Close(s, board).reg) <==> board in View(s.reg.table) || 0 !in View(s.reg.table).Values
  {
    hide Unregister, Inv;
    UnregisterExact(s.reg, board);
  }

  /** The idx registry survives every run of checks, opens, closes and get_idx calls whose closes are sound. */
  lemma {:induction false} RegistrySurvives(s: Lib, cs: seq<Call>)
    requires |s.handles| == MAX_DEV_HANDLE && Inv(s.reg) && SoundCalls(s, cs)
    ensures Inv(Calls(s, cs).reg)
    decreases |cs|
  {
    hide Inv, Register, Unregister;
    if cs != [] {
      InvSizes(s.reg);
      match cs[0] {
        case OpenCall(_, _, _) =>
        case CloseCall(board) => UnregisterExact(s.reg, board);
        case IdxCall(board, mallocOk) => RegisterRefines(s.reg, board, mallocOk);
        case CheckCall(_, _, _) => EmptyInv();
      }
      RegistrySurvives(Do(s, cs[0]), cs[1..]);
    }
  }

  /** What a call does to the idx registry: get_idx is one of its operations, a close releases, a first
      check re-initialises. */
  function RegistryOp(s: Lib, c: Call): seq<Registry.Op> {
    match c
    case OpenCall(_, _, _) => []
    case CloseCall(board) => [Release(board)]
    case IdxCall(board, mallocOk) => [Get(board, mallocOk)]
    case CheckCall(_, _, _) => if s.checked then [] else [Reset]
  }

  function RegistryOps(s: Lib, cs: seq<Call>): seq<Registry.Op>
    requires |s.handles| == MAX_DEV_HANDLE && |s.reg.bytes| == BITMAP_SIZE
    decreases |cs|
  {
    if cs == [] then [] else RegistryOp(s, cs[0]) + RegistryOps(Do(s, cs[0]), cs[1..])
  }

  lemma {:induction false} MapRunAppend(m: map<Word, int>, a: seq<Registry.Op>, b: seq<Registry.Op>)
    ensures MapRun(m, a + b).0 == MapRun(MapRun(m, a).0, b).0
    decreases |a|
  {
    hide MapStep;
    if a == [] {
      assert a + b == b;
    } else {
      assert (a + b)[1..] == a[1..] + b;
      MapRunAppend(MapStep(m, a[0]).0, a[1..], b);
    }
  }

  lemma CallIsMapStep(s: Lib, c: Call)
    requires |s.handles| == MAX_DEV_HANDLE && Inv(s.reg) && SoundCall(s, c)
    ensures Inv(Do(s, c).reg) && View(Do(s, c).reg.table) == MapRun(View(s.reg.table), RegistryOp(s, c)).0
  {
    hide Inv, Register, Unregister, View;
    InvSizes(s.reg);
    match c {
      case OpenCall(_, _, _) =>
      case CloseCall(board) => UnregisterExact(s.reg, board);
      case IdxCall(board, mallocOk) => RegisterRefines(s.reg, board, mallocOk);
      case CheckCall(_, _, _) => EmptyInv();
    }
  }

  /** Over every run whose closes are sound, the idx table is the injective map that the run's get_idx
      calls, closes and first checks make: so a board that was closed has left it. */
  lemma {:induction false} RegistryIsMap(s: Lib, cs: seq<Call>)
    requires |s.handles| == MAX_DEV_HANDLE && Inv(s.reg) && SoundCalls(s, cs)
    ensures var after := Calls(s, cs).reg;
            Inv(after) && View(after.table) == MapRun(View(s.reg.table), RegistryOps(s, cs)).0
    decreases |cs|
  {
    hide Inv, Do, View, MapRun, SoundCall;
    if cs != [] {
      InvSizes(s.reg);
      CallIsMapStep(s, cs[0]);
      MapRunAppend(View(s.reg.table), RegistryOp(s, cs[0]), RegistryOps(Do(s, cs[0]), cs[1..]));
      RegistryIsMap(Do(s, cs[0]), cs[1..]);
    } else {
      assert MapRun(View(s.reg.table), []).0 == View(s.reg.table) by { MapRunNothing(View(s.reg.table)); }
    }
  }

  lemma MapRunNothing(m: map<Word, int>)
    ensures MapRun(m, []).0 == m
  {
  }

  lemma InvSizes(r: Reg)
    requires Inv(r)
    ensures |r.bytes| == BITMAP_SIZE && |r.table| == MAX_DEV_HANDLE
  {
  }

  /** Opening an open board again changes nothing and returns its descriptor. */
  lemma ReopenChangesNothing(s: Lib, board: Word, fd: int, mallocOk: bool)
    requires Safe(s) && IsOpen(s, board) && fd >= 0
    ensures GetDevHandle(s, board).Some?
    ensures Open(s, board, fd, mallocOk) == (s, GetDevHandle(s, board).value.data.fd)
  {
    var i :| 0 <= i < |s.handles| && s.handles[i].Some? && s.handles[i].value.board == board;
    assert s.handles[..s.available][i] == s.handles[i];
  }

  /** Closing undoes opening: the handle table is as before the open. */
  lemma CloseUndoesOpen(s: Lib, board: Word, fd: int)
    requires Safe(s) && IsKnown(s, board) && !IsOpen(s, board) && fd >= 0
    ensures var after := Close(Open(s, board, fd, true).0, board);
            after.handles == s.handles && after.boards == s.boards && after.online == s.available
  {
    hide DevicePath, FindBoard, FindFrom, FirstFree, Unregister;
    OpenNeverLosesBoard(s, board, fd);
    var on := Open(s, board, fd, true).0;
    SlotFreeExactly(s);
    RoomForUnopened(s, board);
    assert forall i | 0 <= i < s.available :: s.handles[..s.available][i] == s.handles[i];
    assert DropBoard(on.handles, board) == s.handles;
  }

  /** Without fairness it is false, and exactly this late: closing a board that is not open
      again and again frees the list under the open handles with the online-th call. */
  lemma {:induction false} StrayCloses(s: Lib, board: Word, n: nat)
    requires Safe(s) && !IsOpen(s, board) && s.online > 0
    ensures var after := Calls(s, seq(n, i => CloseCall(board)));
            && after.handles == s.handles
            && (after.boards == None <==> n >= s.online)
    decreases n
  {
    var cs := seq(n, i => CloseCall(board));
    if n > 0 {
      var s1 := Close(s, board);
      assert cs[1..] == seq(n - 1, i => CloseCall(board));
      assert DropBoard(s.handles, board) == s.handles;
      if s.online > 1 {
        assert Known(s1) == Known(s);
        StrayCloses(s1, board, n - 1);
      } else {
        StaysFreed(s1, board, n - 1);
      }
    }
  }

  lemma {:induction false} StaysFreed(s: Lib, board: Word, n: nat)
    requires |s.handles| == MAX_DEV_HANDLE && |s.reg.bytes| == BITMAP_SIZE
    requires s.boards == None && s.available == 0
    ensures var after := Calls(s, seq(n, i => CloseCall(board)));
            after.handles == s.handles && after.boards == None
    decreases n
  {
    var cs := seq(n, i => CloseCall(board));
    if n > 0 {
      assert cs[1..] == seq(n - 1, i => CloseCall(board));
      StaysFreed(Close(s, board), board, n - 1);
    }
  }

  // ----- driver and library

  /** There is a node at the path. */
  ghost predicate NodeAt(nodes: seq<string>, path: Option<string>) {
    exists name :: name in nodes && path == Some("/dev/" + name)
  }

  /** Board m of the list has a node, and it is the one that the path of board n names. */
  ghost predicate Reaches(ps: seq<Probe>, devices: seq<Device>, n: nat, m: nat)
    requires n < |devices| && m < |devices|
  {
    Made(ps, devices[m]) && devices[n].boardType == devices[m].boardType
    && HexReading(devices[n].minor) == devices[m].minor
  }

  /** Driver and library together, open(2) succeeding exactly on the nodes that exist: for every
      sequence of probes that found distinct boards, a first check returns 0 exactly when one board
      is listed or none has id 0; whatever it returns, listed board n then opens exactly when the
      node of some listed board m was made, they are of one type, and the minor of n, read as
      hexadecimal, is that of m. */
  lemma ListedBoardsOpen(k: Kernel, ps: seq<Probe>, stack: string, s: Lib, n: nat, fd: int)
    requires Boot(k) && FewProbes(ps) && FreshIds(ps)
    requires n < |Naming.Run(k, ps).devices| < BOARD_NUM && |stack| == LINE_SIZE && !s.checked
    requires var after := Naming.Run(k, ps);
             fd >= 0 <==> NodeAt(after.nodes, DevicePath(ReadAll(after.devices), after.devices[n].id))
    ensures var devices := Naming.Run(k, ps).devices;
            && Extract(Listing(devices), stack, []) == Records(ReadAll(devices))
            && var check := Check(s, Some(ReadAll(devices)), true, true);
            && Safe(check.0)
            && (check.1 == 0 <==> |devices| == 1 || forall d | d in devices :: d.id != 0)
            && var open := Open(check.0, devices[n].id, fd, true);
            && (open.1 >= 0 <==> exists m :: 0 <= m < |devices| && Reaches(ps, devices, n, m))
            && var path := DevicePath(ReadAll(devices), devices[n].id);
            && (open.1 >= 0 ==> open.1 == fd)
            && (open.1 >= 0 ==> GetDevHandle(open.0, devices[n].id) == Some(Record(devices[n].id, Opened(fd, path))))
            && (open.1 < 0 ==> open == (check.0, -19))
  {
    hide Extract, Listing, DevicePath, NodeName, GetDevHandle, NodeAt, Reaches, Verdict, FindBoard, FindFrom, FirstFree;
    var devices := Naming.Run(k, ps).devices;
    EndToEnd(k, ps, stack);
    var list := ReadAll(devices);
    ReadIdsDistinct(k, ps);
    PassExactly(devices);
    CheckExact(s, Some(list), true, true);
    NodeReached(k, ps, stack, n);
    var checked := Check(s, Some(list), true, true).0;
    if fd >= 0 {
      assert list[n] == ReadBack(devices[n]) && Known(checked)[n].id == devices[n].id;
      assert IsKnown(checked, devices[n].id) && !IsOpen(checked, devices[n].id);
      OpenNeverLosesBoard(checked, devices[n].id, fd);
    }
  }

  /** The duplicate detector passes a list of distinct boards unless one of several has id 0. */
  lemma PassExactly(devices: seq<Device>)
    requires devices != [] && DistinctIds(ReadAll(devices))
    ensures Verdict(ReadAll(devices)) == 0 <==> |devices| == 1 || forall d | d in devices :: d.id != 0
  {
    var list := ReadAll(devices);
    assert forall i | 0 <= i < |list| :: list[i].id == devices[i].id && devices[i] in devices;
    if |list| != 1 {
      DetectorExact(list);
    }
  }

  lemma NodeReached(k: Kernel, ps: seq<Probe>, stack: string, n: nat)
    requires Boot(k) && FewProbes(ps) && FreshIds(ps)
    requires n < |Naming.Run(k, ps).devices| <= BOARD_NUM && |stack| == LINE_SIZE
    ensures var (devices, nodes) := (Naming.Run(k, ps).devices, Naming.Run(k, ps).nodes);
            NodeAt(nodes, DevicePath(ReadAll(devices), devices[n].id)) <==>
              exists m :: 0 <= m < |devices| && Reaches(ps, devices, n, m)
  {
    hide Extract, Listing, DevicePath, NodeName, DeviceOf, Made;
    var (devices, nodes) := (Naming.Run(k, ps).devices, Naming.Run(k, ps).nodes);
    var path := DevicePath(ReadAll(devices), devices[n].id);
    EndToEnd(k, ps, stack);
    DevicesListed(k, ps);
    if NodeAt(nodes, path) {
      var name :| name in nodes && path == Some("/dev/" + name);
      MadeExactly(ps, name);
      var i :| 0 <= i < |ps| && Succeeds(ps[i]) && ps[i].create.NodeMade? && NodeName(DeviceOf(ps, i)) == name;
      ProbeListed(ps, i);
      var m :| 0 <= m < |devices| && devices[m] == DeviceOf(ps, i);
      assert Reaches(ps, devices, n, m);
    }
    if m :| 0 <= m < |devices| && Reaches(ps, devices, n, m) {
      assert devices[m] in devices && NodeName(devices[m]) in nodes;
      assert path == Some("/dev/" + NodeName(devices[m]));
    }
  }

  lemma ReadIdsDistinct(k: Kernel, ps: seq<Probe>)
    requires Boot(k) && FewProbes(ps) && FreshIds(ps)
    ensures DistinctIds(ReadAll(Naming.Run(k, ps).devices))
  {
    DevicesListed(k, ps);
    assert ps[..|ps|] == ps;
    ProbesGiveDriverList(ps, |ps|);
  }

  // ----- the program

  /** The file-scope variables of lib/vi53xx_xdma.c. A freed or never allocated block is null. */
  class Vi53xx {
    const registry: IdxRegistry
    const handles: array<Option<Handle>>
    var boardInfo: array?<Info>
    var errorInfo: array?<Info>
    var available: nat
    var online: int
    var checked: bool

    ghost predicate Valid()
      reads this
    {
      && registry.Valid() && handles.Length == MAX_DEV_HANDLE
      && (boardInfo != null ==> boardInfo.Length == BOARD_NUM)
      && (errorInfo != null ==> errorInfo.Length == BOARD_NUM)
      && available <= BOARD_NUM
      && (available > 0 ==> boardInfo != null && checked)
    }

    ghost function State(): (s: Lib)
      requires Valid()
      reads this, registry.ids.bytes, registry.table, handles, boardInfo
      ensures |s.handles| == MAX_DEV_HANDLE && |s.reg.bytes| == BITMAP_SIZE
    {
      Lib(registry.State(), handles[..], if boardInfo == null then None else Some(boardInfo[..]),
          available, online, checked)
    }

    constructor ()
      ensures Valid() && fresh(registry.ids.bytes) && fresh(registry.table) && fresh(handles)
      ensures State() == Lib(Empty(), NoHandles(), None, 0, 0, false)
    {
      registry := new IdxRegistry();
      handles := new Option<Handle>[MAX_DEV_HANDLE](_ => None);
      boardInfo, errorInfo := null, null;
      available, online, checked := 0, 0, false;
    }

    /** vi53xx_get_board_type */
    method GetBoardType(board: Word) returns (boardType: Word)
      requires Valid()
      ensures boardType == TypeOfBoard(Known(State()), board)
    {
      for i := 0 to available
        invariant forall j | 0 <= j < i :: boardInfo[j].id != board
      {
        if boardInfo[i].id == board {
          assert Known(State())[i] == boardInfo[i];
          return boardInfo[i].boardType;
        }
      }
      return 0;
    }

    /** get_board_instance */
    method GetBoardInstance(board: Word) returns (inst: Word)
      requires Valid()
      ensures inst == InstanceOfBoard(Known(State()), board)
    {
      for i := 0 to available
        invariant forall j | 0 <= j < i :: boardInfo[j].id != board
      {
        if boardInfo[i].id == board {
          assert Known(State())[i] == boardInfo[i];
          return boardInfo[i].inst;
        }
      }
      return 0;
    }

    /** get_board_name */
    method GetBoardName(boardType: Word) returns (name: Option<string>)
      requires Valid()
      ensures name == NameOfType(Known(State()), boardType)
    {
      for i := 0 to available
        invariant forall j | 0 <= j < i :: boardInfo[j].boardType != boardType
      {
        if boardInfo[i].boardType == boardType {
          assert Known(State())[i] == boardInfo[i];
          return Some(boardInfo[i].name);
        }
      }
      return None;
    }

    /** The path that get_board_handle opens. */
    method BoardPath(board: Word) returns (path: Option<string>)
      requires Valid()
      ensures path == DevicePath(Known(State()), board)
    {
      var boardType := GetBoardType(board);
      var inst := GetBoardInstance(board);
      var name := GetBoardName(boardType);
      path := match name case None => None case Some(n) => Some("/dev/" + (n + "_" + SignedDec(inst)));
    }

    method FindHandle(board: Word, cnt: nat) returns (n: nat)
      requires Valid() && cnt <= MAX_DEV_HANDLE
      ensures n == FindBoard(handles[..cnt], board)
    {
      n := 0;
      while n < cnt
        invariant n <= cnt
        invariant forall i | 0 <= i < n && handles[i].Some? :: handles[i].value.board != board
      {
        if handles[n].Some? && handles[n].value.board == board {
          break;
        }
        n := n + 1;
      }
    }

    /** vi53xx_device_open; fd is the result of opening the board's path. */
    method DeviceOpen(board: Word, fd: int, mallocOk: bool) returns (r: int)
      requires Valid()
      modifies `online, handles
      ensures Valid() && (State(), r) == Open(old(State()), board, fd, mallocOk)
    {
      hide FindBoard, FindFrom, FreeFrom, DevicePath;
      var cnt := available;
      if cnt == 0 {
        return -ENODEV;
      }
      if fd < 0 {
        return -ENODEV;
      }
      var n := FindHandle(board, cnt);
      if n < cnt {
        return handles[n].value.data.fd;
      }
      online := n + 1;
      if !mallocOk {
        return -ENOMEM;
      }
      var path := BoardPath(board);
      ghost var h := handles[..];
      for slot := 0 to cnt
        invariant handles[..] == h
        invariant forall i | 0 <= i < slot :: h[i].Some?
      {
        if handles[slot].None? {
          assert FirstFree(h[..cnt]) == slot;
          handles[slot] := Some(Record(board, Opened(fd, path)));
          assert handles[..] == h[slot := Some(Record(board, Opened(fd, path)))];
          return fd;
        }
      }
      assert FirstFree(h[..cnt]) == cnt;
      return 0;
    }

    /** release_board_info */
    method ReleaseBoardInfo()
      requires Valid()
      modifies this
      ensures Valid() && State() == Freed(old(State()))
    {
      boardInfo, errorInfo := null, null;
      available := 0;
      online := 0;
      checked := false;
    }

    method ReleaseDevHandle(board: Word)
      requires Valid()
      modifies handles
      ensures Valid() && State() == old(State()).(handles := DropBoard(old(handles[..]), board))
    {
      ghost var h := handles[..];
      for n := 0 to MAX_DEV_HANDLE
        invariant forall i | 0 <= i < n :: handles[i] == DropBoard(h, board)[i]
        invariant forall i | n <= i < MAX_DEV_HANDLE :: handles[i] == h[i]
      {
        if handles[n].Some? && handles[n].value.board == board {
          handles[n] := None;
        }
      }
      assert handles[..] == DropBoard(h, board);
    }

    /** vi53xx_device_close */
    method DeviceClose(board: Word)
      requires Valid()
      modifies this, handles, registry.ids.bytes, registry.table
      ensures Valid() && State() == Close(old(State()), board)
    {
      hide Unregister;
      var cnt, devOnline := available, if online <= 0 then 0 else online;
      if cnt == 0 || devOnline == 0 {
        ReleaseBoardInfo();
        registry.ReleaseIdx(board);
        return;
      }
      devOnline := devOnline - 1;
      if devOnline == 0 {
        ReleaseBoardInfo();
      }
      online := devOnline;
      ReleaseDevHandle(board);
      registry.ReleaseIdx(board);
    }

    /** init_config */
    method InitConfig()
      requires Valid()
      modifies handles, registry.ids.bytes, registry.table
      ensures registry.State() == Empty() && handles[..] == NoHandles()
    {
      for n := 0 to MAX_DEV_HANDLE
        invariant forall i | 0 <= i < n :: handles[i].None?
      {
        handles[n] := None;
      }
      registry.Init();
    }

    /** requst_mem: two zeroed blocks. */
    method RequestMem(mallocInfo: bool, mallocErr: bool) returns (r: int)
      requires Valid() && available == 0
      modifies `boardInfo, `errorInfo
      ensures Valid() && r == (if mallocInfo && mallocErr then 0 else -1)
      ensures if mallocInfo then boardInfo != null && fresh(boardInfo) && boardInfo[..] == Zeroed(BOARD_NUM)
              else boardInfo == null
      ensures r == 0 ==> errorInfo != null && fresh(errorInfo) && errorInfo != boardInfo
    {
      if !mallocInfo {
        boardInfo := null;
        return -1;
      }
      boardInfo := new Info[BOARD_NUM](_ => ZEROED);
      if !mallocErr {
        errorInfo := null;
        return -1;
      }
      errorInfo := new Info[BOARD_NUM](_ => ZEROED);
      return 0;
    }

    /** check_boards_info on a file with this text, None when it cannot be opened; `stack` is what
        the reader's line buffer held. With 128 boards the C code would read past its block. */
    method CheckBoards(file: Option<string>, stack: string, mallocInfo: bool, mallocErr: bool) returns (r: int)
      requires Valid() && |stack| == LINE_SIZE
      requires file.Some? ==> DefinedCheck(Extract(file.value, stack, []))
      modifies this, handles, registry.ids.bytes, registry.table
      ensures Valid()
      ensures (State(), r) == Check(old(State()),
                                    if file.None? then None else Some(Extract(file.value, stack, []).list),
                                    mallocInfo, mallocErr)
      ensures !old(checked) && r > 0 ==>
                errorInfo != null && r <= BOARD_NUM && errorInfo[..r] == Errors(Seen(Known(State())), |Known(State())|)
    {
      hide Extract, Errors, Empty, Zeroed;
      if checked {
        return 0;
      }
      checked := true;
      InitConfig();
      r := RequestMem(mallocInfo, mallocErr);
      if r < 0 {
        return;
      }
      if file.Some? {
        r := ReadBoards(file.value, stack);
      }
    }

    /** The part of check_boards_info that reads the file and looks for duplicates. */
    method ReadBoards(text: string, stack: string) returns (r: int)
      requires Valid() && |stack| == LINE_SIZE && DefinedCheck(Extract(text, stack, []))
      requires checked && available == 0
      requires boardInfo != null && errorInfo != null && boardInfo != errorInfo && boardInfo[..] == Zeroed(BOARD_NUM)
      modifies `available, boardInfo, errorInfo
      ensures Valid()
      ensures var list := Extract(text, stack, []).list;
              && r == (if list == [] then 0 else Verdict(list))
              && State() == (if list == [] then old(State()) else
                             old(State()).(boards := Some(list + Zeroed(BOARD_NUM - |list|)), available := |list|))
              && (r > 0 ==> r <= BOARD_NUM && errorInfo[..r] == Errors(Seen(list), |list|))
    {
      hide Extract, Errors, MatchFrom;
      var count := ExtractValue(text, stack, boardInfo);
      ghost var list := Extract(text, stack, []).list;
      assert boardInfo[..count] == list;
      assert boardInfo[..] == list + Zeroed(BOARD_NUM - count);
      if count == 0 {
        return 0;
      }
      available := count;
      var n := CheckBoardsInfo(boardInfo, errorInfo, count);
      return n;
    }
  }

  /** The reading and the duplicate check stay inside their blocks of 128 records. */
  predicate DefinedCheck(read: Outcome) {
    read.Records? && (|read.list| == 1 || (|read.list| < BOARD_NUM && Verdict(read.list) <= BOARD_NUM))
  }
}
