/**
 * The save-time sort of the positional variant: a stable ascending sort on
 * the identifier, written as an insertion sort over sequences.
 */
module Ordering {
  import opened Alarms

  ghost predicate SortedById(s: seq<Alarm>) {
    forall i, j | 0 <= i < j < |s| :: s[i].alarmId <= s[j].alarmId
  }

  /** The alarms of `s` that carry identifier `k`, in their order in `s`. */
  function WithId(s: seq<Alarm>, k: int): seq<Alarm>
    decreases |s|
  {
    if s == [] then []
    else (if s[0].alarmId == k then [s[0]] else []) + WithId(s[1..], k)
  }

  lemma WithIdCons(x: Alarm, s: seq<Alarm>, k: int)
    ensures WithId([x] + s, k) == (if x.alarmId == k then [x] else []) + WithId(s, k)
  {
    assert ([x] + s)[1..] == s;
  }

  lemma WithIdOfHead(s: seq<Alarm>)
    ensures s != [] ==> WithId(s, s[0].alarmId) != []
  {
  }

  lemma WithIdFirst(s: seq<Alarm>, k: int)
    ensures WithId(s, k) != [] ==> WithId(s, k)[0] in s && WithId(s, k)[0].alarmId == k
  {
    WithIdMembers(s, k);
  }

  /** Places `x` before the first alarm whose identifier is not smaller. */
  function InsertById(x: Alarm, s: seq<Alarm>): (r: seq<Alarm>)
    requires SortedById(s)
    ensures SortedById(r)
    ensures multiset(r) == multiset(s) + multiset{x}
    decreases |s|
  {
    if s == [] || x.alarmId <= s[0].alarmId then
      PrependSorted(x, s);
      [x] + s
    else
      var rest := InsertById(x, s[1..]);
      assert s == [s[0]] + s[1..];
      BoundedByMultiset(s[0].alarmId, s[1..], x, rest);
      PrependSorted(s[0], rest);
      [s[0]] + rest
  }

  lemma PrependSorted(x: Alarm, s: seq<Alarm>)
    requires SortedById(s)
    requires forall j | 0 <= j < |s| :: x.alarmId <= s[j].alarmId
    ensures SortedById([x] + s)
  {
    var r := [x] + s;
    forall i, j | 0 <= i < j < |r| ensures r[i].alarmId <= r[j].alarmId {
      assert r[j] == s[j - 1];
      if i > 0 {
        assert r[i] == s[i - 1];
      }
    }
  }

  /** Every identifier of `r` is at least `b` when `r` holds `s` plus `x`, all of them at least `b`. */
  lemma BoundedByMultiset(b: int, s: seq<Alarm>, x: Alarm, r: seq<Alarm>)
    requires b <= x.alarmId
    requires forall j | 0 <= j < |s| :: b <= s[j].alarmId
    requires multiset(r) == multiset(s) + multiset{x}
    ensures forall j | 0 <= j < |r| :: b <= r[j].alarmId
  {
    forall j | 0 <= j < |r| ensures b <= r[j].alarmId {
      assert r[j] in multiset(r);
      if r[j] != x {
        assert r[j] in multiset(s);
        var m :| 0 <= m < |s| && s[m] == r[j];
      }
    }
  }

  function SortById(s: seq<Alarm>): (r: seq<Alarm>)
    ensures SortedById(r)
    ensures multiset(r) == multiset(s)
    decreases |s|
  {
    if s == [] then []
    else
      assert s == [s[0]] + s[1..];
      InsertById(s[0], SortById(s[1..]))
  }

  lemma {:induction false} WithIdInsert(x: Alarm, s: seq<Alarm>, k: int)
    requires SortedById(s)
    ensures WithId(InsertById(x, s), k) == (if x.alarmId == k then [x] else []) + WithId(s, k)
    decreases |s|
  {
    if s == [] || x.alarmId <= s[0].alarmId {
      WithIdCons(x, s, k);
    } else {
      var rest := InsertById(x, s[1..]);
      WithIdCons(s[0], rest, k);
      WithIdInsert(x, s[1..], k);
      WithIdCons(s[0], s[1..], k);
      assert s == [s[0]] + s[1..];
    }
  }

  /**
   * Stability: for every identifier, the alarms carrying it appear in the
   * sorted list in the same relative order as in the input.
   */
  lemma {:induction false} SortIsStable(s: seq<Alarm>, k: int)
    ensures WithId(SortById(s), k) == WithId(s, k)
    decreases |s|
  {
    if s != [] {
      SortIsStable(s[1..], k);
      WithIdInsert(s[0], SortById(s[1..]), k);
    }
  }

  lemma {:induction false} WithIdMembers(s: seq<Alarm>, k: int)
    ensures forall y | y in WithId(s, k) :: y in s && y.alarmId == k
    ensures forall y | y in s && y.alarmId == k :: y in WithId(s, k)
    decreases |s|
  {
    if s != [] {
      WithIdMembers(s[1..], k);
      assert s == [s[0]] + s[1..];
    }
  }

  /** `t` and `u` hold the same alarms per identifier, in the same order. */
  ghost predicate SamePerId(t: seq<Alarm>, u: seq<Alarm>) {
    forall k :: WithId(t, k) == WithId(u, k)
  }

  /** Two sorted lists with the same alarms per identifier start with the same alarm. */
  lemma SameHead(t: seq<Alarm>, u: seq<Alarm>)
    requires t != [] && u != []
    requires SortedById(t) && SortedById(u)
    requires SamePerId(t, u)
    ensures t[0] == u[0]
  {
    var m := t[0].alarmId;
    var n := u[0].alarmId;
    WithIdMembers(t, n);
    WithIdMembers(u, m);
    assert WithId(t, m) == WithId(u, m);
    assert WithId(t, n) == WithId(u, n);
    assert t[0] in WithId(u, m);
    assert u[0] in WithId(t, n);
    assert n <= m by {
      var j :| 0 <= j < |u| && u[j] == t[0];
    }
    assert m <= n by {
      var j :| 0 <= j < |t| && t[j] == u[0];
    }
    WithIdCons(t[0], t[1..], m);
    WithIdCons(u[0], u[1..], m);
    assert t == [t[0]] + t[1..];
    assert u == [u[0]] + u[1..];
    assert WithId(t, m)[0] == t[0];
    assert WithId(u, m)[0] == u[0];
  }

  /** Dropping a shared first alarm keeps the per-identifier lists equal. */
  lemma SameTailsPerId(t: seq<Alarm>, u: seq<Alarm>, k: int)
    requires t != [] && u != [] && t[0] == u[0]
    requires WithId(t, k) == WithId(u, k)
    ensures WithId(t[1..], k) == WithId(u[1..], k)
  {
    var a := WithId(t[1..], k);
    var b := WithId(u[1..], k);
    assert t == [t[0]] + t[1..];
    assert u == [u[0]] + u[1..];
    WithIdCons(t[0], t[1..], k);
    WithIdCons(u[0], u[1..], k);
    var h := if t[0].alarmId == k then [t[0]] else [];
    assert h + a == h + b;
    assert a == (h + a)[|h|..];
    assert b == (h + b)[|h|..];
  }

  /**
   * Sorted and stable pins the result down: two sorted lists that hold the
   * same alarms per identifier, in the same order, are the same list.
   */
  lemma {:induction false} SortedStableUnique(t: seq<Alarm>, u: seq<Alarm>)
    requires SortedById(t) && SortedById(u)
    requires SamePerId(t, u)
    ensures t == u
    decreases |t| + |u|
  {
    if t == [] || u == [] {
      NoAlarmsPerIdIsEmpty(t, u);
    } else {
      SameHead(t, u);
      forall k ensures WithId(t[1..], k) == WithId(u[1..], k) {
        SameTailsPerId(t, u, k);
      }
      SortedStableUnique(t[1..], u[1..]);
      assert t == [t[0]] + t[1..];
      assert u == [u[0]] + u[1..];
    }
  }

  lemma NoAlarmsPerIdIsEmpty(t: seq<Alarm>, u: seq<Alarm>)
    requires t == [] || u == []
    requires SamePerId(t, u)
    ensures t == u
  {
    WithIdOfHead(t);
    WithIdOfHead(u);
  }

  /** `SortById` is the one stable ascending sort: any such ordering equals it. */
  lemma SortByIdIsTheStableSort(s: seq<Alarm>, t: seq<Alarm>)
    requires SortedById(t)
    requires forall k :: WithId(t, k) == WithId(s, k)
    ensures t == SortById(s)
  {
    forall k ensures WithId(t, k) == WithId(SortById(s), k) {
      SortIsStable(s, k);
    }
    SortedStableUnique(t, SortById(s));
  }

  lemma {:induction false} DistinctWithIdAtMostOne(s: seq<Alarm>, k: int)
    requires DistinctIds(s)
    ensures |WithId(s, k)| <= 1
    decreases |s|
  {
    if s != [] {
      var tail := s[1..];
      assert s == [s[0]] + tail;
      WithIdCons(s[0], tail, k);
      if s[0].alarmId == k {
        WithIdMembers(tail, k);
        forall y | y in tail ensures y.alarmId != k {
          var j :| 0 <= j < |tail| && tail[j] == y;
          assert s[j + 1] == y;
        }
        WithIdFirst(tail, k);
      } else {
        DistinctWithIdAtMostOne(tail, k);
      }
    }
  }

  lemma {:induction false} SharedIdWithIdAtLeastTwo(s: seq<Alarm>, i: nat, j: nat)
    requires i < j < |s| && s[i].alarmId == s[j].alarmId
    ensures |WithId(s, s[i].alarmId)| >= 2
    decreases i
  {
    var k := s[i].alarmId;
    var tail := s[1..];
    if i == 0 {
      WithIdMembers(tail, k);
      assert tail[j - 1] == s[j];
      assert s[j] in WithId(tail, k);
    } else {
      assert tail[i - 1] == s[i] && tail[j - 1] == s[j];
      SharedIdWithIdAtLeastTwo(tail, i - 1, j - 1);
    }
  }

  /** Reordering cannot create a duplicate identifier. */
  lemma SortKeepsIdsDistinct(s: seq<Alarm>)
    requires DistinctIds(s)
    ensures DistinctIds(SortById(s))
  {
    var r := SortById(s);
    forall i, j | 0 <= i < j < |r| ensures r[i].alarmId != r[j].alarmId {
      if r[i].alarmId == r[j].alarmId {
        SharedIdWithIdAtLeastTwo(r, i, j);
        SortIsStable(s, r[i].alarmId);
        DistinctWithIdAtMostOne(s, r[i].alarmId);
        assert false;
      }
    }
  }
}
