/** The duplicate-board detector of lib/vi53xx_xdma.c.

    The list sits in a zeroed block of 128 records. The inner scan runs one record past
    the list, so it also compares with a zeroed record. */
module Duplicates {
  import opened Bits
  import opened Counting

  const BOARD_NUM: nat := 128

  /** One `struct device_info` of the library. */
  datatype Info = Info(inst: Word, id: Word, boardType: Word, name: string)

  const ZEROED := Info(0, 0, 0, "")

  predicate DistinctIds(list: seq<Info>) {
    forall i, j | 0 <= i < j < |list| :: list[i].id != list[j].id
  }

  /** The nearest j at or after `from` whose id equals that of record i; |seen| when there is none. */
  function MatchFrom(seen: seq<Info>, i: nat, from: nat): (j: nat)
    requires i < from <= |seen|
    ensures from <= j <= |seen|
    ensures j < |seen| ==> seen[j].id == seen[i].id
    ensures forall k | from <= k < j :: seen[k].id != seen[i].id
  {
    FirstFrom(seen, (x: Info) => x.id == seen[i].id, from)
  }

  predicate HasLater(seen: seq<Info>, i: int) {
    0 <= i < |seen| && MatchFrom(seen, i, i + 1) < |seen|
  }

  /** The records below n with an equal later one, in order, each followed by its nearest match. */
  function Errors(seen: seq<Info>, n: nat): seq<Info>
    requires n <= |seen|
  {
    if n == 0 then [] else Errors(seen, n - 1) + PairAt(seen, n - 1)
  }

  function PairAt(seen: seq<Info>, i: nat): seq<Info>
    requires i < |seen|
  {
    if HasLater(seen, i) then [seen[i], seen[MatchFrom(seen, i, i + 1)]] else []
  }

  /** The records below n that have an equal later one. */
  function Matched(seen: seq<Info>, n: nat): set<int> {
    set k: int | 0 <= k < n && HasLater(seen, k)
  }

  /** What the detector looks at: the list and the zeroed record behind it. */
  function Seen(list: seq<Info>): (r: seq<Info>)
    ensures |r| == |list| + 1
  {
    list + [ZEROED]
  }

  /** What the detector returns. */
  function Verdict(list: seq<Info>): nat {
    if |list| == 1 then 0 else |Errors(Seen(list), |list|)|
  }

  lemma MatchedStep(seen: seq<Info>, n: nat)
    ensures |Matched(seen, n + 1)| == |Matched(seen, n)| + (if HasLater(seen, n) then 1 else 0)
  {
    hide HasLater;
    assert Matched(seen, n + 1) == Matched(seen, n) + (if HasLater(seen, n) then {n} else {});
  }

  lemma {:induction false} ErrorsSize(seen: seq<Info>, n: nat)
    requires n <= |seen|
    ensures |Errors(seen, n)| == 2 * |Matched(seen, n)|
  {
    if n > 0 {
      ErrorsSize(seen, n - 1);
      MatchedStep(seen, n - 1);
    }
  }

  lemma {:induction false} ErrorsGrow(seen: seq<Info>, i: nat, n: nat)
    requires i <= n <= |seen|
    ensures Errors(seen, i) <= Errors(seen, n)
  {
    if i < n {
      ErrorsGrow(seen, i, n - 1);
    }
  }

  /** The error list in full: a record with an equal later one stands, with its nearest match
      behind it, after the pairs of the matched records before it. */
  lemma ErrorAt(list: seq<Info>, i: nat)
    requires i < |list| && HasLater(Seen(list), i)
    ensures var seen := Seen(list); var p := 2 * |Matched(seen, i)|;
            && p + 1 < |Errors(seen, |list|)|
            && Errors(seen, |list|)[p] == seen[i]
            && Errors(seen, |list|)[p + 1] == seen[MatchFrom(seen, i, i + 1)]
  {
    var seen := Seen(list);
    ErrorsSize(seen, i);
    ErrorsGrow(seen, i + 1, |list|);
    assert Errors(seen, i + 1) == Errors(seen, i) + PairAt(seen, i);
  }

  /** The result is twice the number of entries with an equal later entry, the zeroed one
      counted; so it is 0 exactly for distinct, nonzero ids. */
  lemma DetectorExact(list: seq<Info>)
    requires |list| != 1
    ensures Verdict(list) == 2 * |Matched(Seen(list), |list|)|
    ensures Verdict(list) == 0 <==> DistinctIds(list) && forall i | 0 <= i < |list| :: list[i].id != 0
  {
    var seen := Seen(list);
    ErrorsSize(seen, |list|);
    if Verdict(list) == 0 {
      forall i, j | 0 <= i < j < |seen|
        ensures seen[i].id != seen[j].id
      {
        assert i !in Matched(seen, |list|);
        assert MatchFrom(seen, i, i + 1) == |seen|;
      }
      forall i | 0 <= i < |list|
        ensures list[i].id != 0
      {
        assert seen[i].id != seen[|list|].id;
      }
      forall i, j | 0 <= i < j < |list|
        ensures list[i].id != list[j].id
      {
        assert seen[i].id != seen[j].id;
      }
    } else {
      var i :| i in Matched(seen, |list|);
      var j := MatchFrom(seen, i, i + 1);
      assert seen[i].id == seen[j].id;
    }
  }

  /** Passing the check means distinct ids whatever the number of boards. */
  lemma PassMeansDistinct(list: seq<Info>)
    requires Verdict(list) == 0
    ensures DistinctIds(list)
  {
    if |list| != 1 {
      DetectorExact(list);
    }
  }

  /** The error block of 128 records is large enough for every list of n boards exactly when n <= 64. */
  lemma ErrorsFitExactly(n: nat)
    ensures (forall list: seq<Info> | |list| == n :: Verdict(list) <= BOARD_NUM) <==> n <= 64
  {
    forall list: seq<Info> | |list| == n && n <= 64
      ensures Verdict(list) <= BOARD_NUM
    {
      if n != 1 {
        DetectorExact(list);
        BelowSize(n);
        SubsetSize(Matched(Seen(list), n), Below(n));
      }
    }
    if n > 64 {
      var list := seq(n, i => ZEROED);
      DetectorExact(list);
      forall i | 0 <= i < n
        ensures HasLater(Seen(list), i)
      {
        assert Seen(list)[n].id == Seen(list)[i].id;
      }
      assert Matched(Seen(list), n) == Below(n);
      BelowSize(n);
      assert Verdict(list) == 2 * n;
    }
  }

  /** `_check_boards_info`. Beyond its preconditions the C code runs off a block: the scan reads
      record `count`, and the error list must fit. */
  method CheckBoardsInfo(info: array<Info>, err: array<Info>, count: nat) returns (n: nat)
    requires info != err
    requires count == 1 || (count < info.Length && info[count] == ZEROED)
    requires count != 1 ==> Verdict(info[..count]) <= err.Length
    modifies err
    ensures n == if count == 1 then 0 else Verdict(info[..count])
    ensures count != 1 ==> err[..n] == Errors(Seen(info[..count]), count)
    ensures forall k | n <= k < err.Length :: err[k] == old(err[k])
  {
    n := 0;
    if count == 1 {
      return;
    }
    ghost var seen := Seen(info[..count]);
    assert seen == info[..count + 1];
    for i := 0 to count
      invariant n <= err.Length && err[..n] == Errors(seen, i)
      invariant forall k | n <= k < err.Length :: err[k] == old(err[k])
    {
      ErrorsGrow(seen, i + 1, count);
      n := CheckRecord(info, err, count, i, n);
    }
  }

  /** The inner loop: the scan for record i. */
  method CheckRecord(info: array<Info>, err: array<Info>, count: nat, i: nat, n: nat) returns (m: nat)
    requires info != err && i < count < info.Length
    requires n <= err.Length && err[..n] == Errors(info[..count + 1], i)
    requires |Errors(info[..count + 1], i + 1)| <= err.Length
    modifies err
    ensures n <= m <= err.Length && err[..m] == Errors(info[..count + 1], i + 1)
    ensures forall k | m <= k < err.Length :: err[k] == old(err[k])
  {
    hide Errors;
    ghost var seen := info[..count + 1];
    m := n;
    for j := i + 1 to count + 1
      invariant m == n && err[..] == old(err[..])
      invariant forall k | i < k < j :: seen[k].id != seen[i].id
    {
      if info[i].id == info[j].id {
        ErrorsNext(seen, i, j);
        m := Report(err, n, info[i], info[j]);
        return;
      }
    }
    ErrorsNext(seen, i, count + 1);
    assert err[..n] == old(err[..n]);
  }

  /** What the scan for record i adds when it stops at j. */
  lemma ErrorsNext(seen: seq<Info>, i: nat, j: nat)
    requires i < j <= |seen|
    requires forall k | i < k < j :: seen[k].id != seen[i].id
    ensures j == |seen| ==> Errors(seen, i + 1) == Errors(seen, i)
    ensures j < |seen| && seen[j].id == seen[i].id ==> Errors(seen, i + 1) == Errors(seen, i) + [seen[i], seen[j]]
  {
    assert Errors(seen, i + 1) == Errors(seen, i) + PairAt(seen, i);
  }

  /** `err_info[Index++] = a; err_info[Index++] = b;` */
  method Report(err: array<Info>, n: nat, a: Info, b: Info) returns (m: nat)
    requires n + 2 <= err.Length
    modifies err
    ensures m == n + 2 && err[..m] == old(err[..n]) + [a, b]
    ensures forall k | m <= k < err.Length :: err[k] == old(err[k])
  {
    err[n] := a;
    err[n + 1] := b;
    m := n + 2;
  }
}
