/** Cardinalities: subsets, injective maps and the pigeonhole principle. */
module Counting {
  import opened Wrappers

  /** The numbers below n. */
  function Below(n: nat): set<int> {
    set i: int | 0 <= i < n && Under(i, n)
  }

  predicate Under(i: int, n: nat) {
    i < n
  }

  lemma {:induction false} BelowSize(n: nat)
    ensures |Below(n)| == n
  {
    if n > 0 {
      BelowSize(n - 1);
      assert Below(n) == Below(n - 1) + {n - 1};
    }
  }

  lemma {:induction false} SubsetSize<T>(a: set<T>, b: set<T>)
    requires a <= b
    ensures |a| <= |b|
    ensures |a| == |b| ==> a == b
  {
    if a != {} {
      var x :| x in a;
      SubsetSize(a - {x}, b - {x});
    }
  }

  ghost predicate Injective<K, V>(m: map<K, V>) {
    forall x, y | x in m && y in m && m[x] == m[y] :: x == y
  }

  lemma {:induction false} InjectiveSize<K, V>(m: map<K, V>)
    requires Injective(m)
    ensures |m.Values| == |m|
    decreases |m|
  {
    if m.Keys != {} {
      var x :| x in m;
      var rest := m - {x};
      assert rest.Keys == m.Keys - {x};
      assert |rest| == |rest.Keys| == |m| - 1;
      InjectiveSize(rest);
      assert m.Values == rest.Values + {m[x]} by {
        forall v | v in m.Values
          ensures v in rest.Values + {m[x]}
        {
          var y :| y in m && m[y] == v;
          assert y == x || (y in rest && rest[y] == v);
        }
      }
      assert m[x] !in rest.Values;
    } else {
      assert m.Values == {};
    }
  }

  /** Pigeonhole: an injective map into the numbers below n that misses one has fewer than n keys. */
  lemma SmallerImage<K>(m: map<K, int>, n: nat, missed: nat)
    requires Injective(m) && missed < n
    requires forall x | x in m :: 0 <= m[x] < n && m[x] != missed
    ensures |m| < n
  {
    InjectiveSize(m);
    BelowSize(n);
    assert missed in Below(n);
    assert m.Values <= Below(n) - {missed};
    SubsetSize(m.Values, Below(n) - {missed});
  }

  lemma InjectiveInsert<K, V>(m: map<K, V>, k: K, v: V)
    requires Injective(m) && k !in m && v !in m.Values
    ensures Injective(m[k := v]) && m[k := v].Values == m.Values + {v}
  {
    var after := m[k := v];
    forall x | x in m
      ensures m[x] in after.Values
    {
      assert after[x] == m[x];
    }
    assert after[k] == v;
  }

  lemma InjectiveRemove<K, V>(m: map<K, V>, k: K)
    requires Injective(m)
    ensures Injective(m - {k})
    ensures (m - {k}).Values == if k in m then m.Values - {m[k]} else m.Values
  {
    var after := m - {k};
    forall x | x in m && x != k
      ensures m[x] in after.Values
    {
      assert x in after && after[x] == m[x];
    }
  }

  /** The positions of a pointer table that are not NULL. */
  function Occupied<T>(t: seq<Option<T>>): set<int> {
    set i: int | 0 <= i < |t| && t[i].Some?
  }

  lemma OccupiedBound<T>(t: seq<Option<T>>)
    ensures |Occupied(t)| <= |t|
    ensures |Occupied(t)| == |t| <==> (forall i | 0 <= i < |t| :: t[i].Some?)
  {
    BelowSize(|t|);
    SubsetSize(Occupied(t), Below(|t|));
    if |Occupied(t)| == |t| {
      forall i | 0 <= i < |t|
        ensures t[i].Some?
      {
        assert i in Below(|t|);
      }
    }
    if forall i | 0 <= i < |t| :: t[i].Some? {
      assert Occupied(t) == Below(|t|);
    }
  }

  /** The first position from `from` on that the scan is looking for; |s| when there is none. */
  function FirstFrom<T>(s: seq<T>, hit: T -> bool, from: nat): (n: nat)
    requires from <= |s|
    ensures from <= n <= |s|
    ensures n < |s| ==> hit(s[n])
    ensures forall i | from <= i < n :: !hit(s[i])
    decreases |s| - from
  {
    if from == |s| || hit(s[from]) then from else FirstFrom(s, hit, from + 1)
  }

  /** The first NULL position from `from` on; |t| when there is none. */
  function FreeFrom<T>(t: seq<Option<T>>, from: nat): (n: nat)
    requires from <= |t|
    ensures from <= n <= |t|
    ensures n < |t| ==> t[n].None?
    ensures forall i | from <= i < n :: t[i].Some?
  {
    FirstFrom(t, (x: Option<T>) => x.None?, from)
  }

  /** The first NULL position, where a scan of compare-and-swaps stores its record. */
  function FirstFree<T>(t: seq<Option<T>>): (n: nat)
    ensures n <= |t|
    ensures n < |t| ==> t[n].None?
    ensures forall i | 0 <= i < n :: t[i].Some?
  {
    FreeFrom(t, 0)
  }
}
