/**
 * Identifier-conflict resolution of `executar_atualizacao`: candidates are
 * taken in order, a taken identifier is probed upward one by one until a free
 * one appears, and every assigned identifier is marked in use at once.
 */
module Conflicts {
  import opened Alarms

  /** `id` is the least identifier at or above `requested` that `used` leaves free. */
  ghost predicate LeastFreeFrom(used: set<int>, requested: int, id: int) {
    && requested <= id
    && id !in used
    && forall k | requested <= k < id :: k in used
  }

  /** Probing one candidate: step upward from the request while the identifier is taken. */
  function Probe(used: set<int>, requested: int): (id: int)
    ensures LeastFreeFrom(used, requested, id)
    decreases set k | k in used && requested <= k
  {
    if requested in used then
      var above := set k | k in used && requested + 1 <= k;
      var from := set k | k in used && requested <= k;
      assert requested in from && requested !in above;
      assert above < from;
      Probe(used, requested + 1)
    else
      requested
  }

  /** There is only one least free identifier, and the probe finds it. */
  lemma ProbeIsLeastFree(used: set<int>, requested: int, id: int)
    ensures LeastFreeFrom(used, requested, id) <==> id == Probe(used, requested)
  {
  }

  /**
   * The loop over the batch: each candidate gets its probed identifier, which
   * then joins the in-use set for the candidates after it.
   */
  function ResolveIds(used: set<int>, batch: seq<Alarm>): (r: seq<Alarm>)
    ensures |r| == |batch|
    ensures forall i | 0 <= i < |r| :: SameButId(batch[i], r[i]) && batch[i].alarmId <= r[i].alarmId
    ensures forall i | 0 <= i < |r| :: r[i].alarmId !in used
    ensures DistinctIds(r)
    decreases |batch|
  {
    if batch == [] then []
    else
      var id := Probe(used, batch[0].alarmId);
      [batch[0].(alarmId := id)] + ResolveIds(used + {id}, batch[1..])
  }

  /**
   * Candidate `i` receives the least free identifier at or above the one it
   * requested, judged against the existing identifiers together with those
   * assigned to the candidates before it.
   */
  lemma {:induction false} ResolveTakesLeastFree(used: set<int>, batch: seq<Alarm>, i: nat)
    requires i < |batch|
    ensures var r := ResolveIds(used, batch);
      LeastFreeFrom(used + IdSet(r[..i]), batch[i].alarmId, r[i].alarmId)
    decreases i
  {
    var r := ResolveIds(used, batch);
    if i == 0 {
      assert IdSet(r[..0]) == {};
      assert used + IdSet(r[..0]) == used;
    } else {
      var id := Probe(used, batch[0].alarmId);
      var head := batch[0].(alarmId := id);
      var rest := ResolveIds(used + {id}, batch[1..]);
      assert r == [head] + rest;
      ResolveTakesLeastFree(used + {id}, batch[1..], i - 1);
      assert r[i] == rest[i - 1] && batch[i] == batch[1..][i - 1];
      PrefixIds(used, head, rest, i - 1);
    }
  }

  /** The identifiers of a prefix of `[head] + rest`, with `head`'s counted in the seed set. */
  lemma PrefixIds(used: set<int>, head: Alarm, rest: seq<Alarm>, n: nat)
    requires n <= |rest|
    ensures used + IdSet(([head] + rest)[..n + 1]) == (used + {head.alarmId}) + IdSet(rest[..n])
  {
    assert ([head] + rest)[..n + 1] == [head] + rest[..n];
    IdSetAppend([head], rest[..n]);
    assert IdSet([head]) == {head.alarmId} by {
      assert [head][0] == head;
    }
  }

  /**
   * A batch whose identifiers are free and pairwise distinct passes through
   * unchanged: a free identifier is always kept.
   */
  lemma {:induction false} ResolveKeepsFreeIds(used: set<int>, batch: seq<Alarm>)
    requires DistinctIds(batch)
    requires forall i | 0 <= i < |batch| :: batch[i].alarmId !in used
    ensures ResolveIds(used, batch) == batch
    decreases |batch|
  {
    if batch != [] {
      var id := batch[0].alarmId;
      assert Probe(used, id) == id;
      var tail := batch[1..];
      forall i | 0 <= i < |tail| ensures tail[i].alarmId !in used + {id} {
        assert tail[i] == batch[i + 1];
      }
      ResolveKeepsFreeIds(used + {id}, tail);
      assert batch == [batch[0]] + tail;
    }
  }

  /**
   * Even with nothing existing, a batch that repeats an identifier is
   * renumbered: two candidates asking for 3 receive 3 and 4.
   */
  lemma RepeatedRequestIsRenumbered(a: Alarm, b: Alarm)
    requires a.alarmId == 3 && b.alarmId == 3
    ensures var r := ResolveIds({}, [a, b]);
      r[0].alarmId == 3 && r[1].alarmId == 4
  {
    var r := ResolveIds({}, [a, b]);
    assert Probe({}, 3) == 3;
    assert [a, b][1..] == [b];
    assert Probe({3}, 3) == 4 by {
      assert 3 in {3};
      assert Probe({3}, 4) == 4;
    }
  }

  /**
   * The final list: the existing list, untouched and in order, then the
   * resolved candidates in input order.
   */
  function Merge(existing: seq<Alarm>, batch: seq<Alarm>): (r: seq<Alarm>)
    ensures |r| == |existing| + |batch|
    ensures r[..|existing|] == existing
    ensures forall i | 0 <= i < |batch| ::
      SameButId(batch[i], r[|existing| + i]) && r[|existing| + i].alarmId !in IdSet(existing)
    ensures forall i | 0 <= i < |batch| ::
      LeastFreeFrom(IdSet(existing) + IdSet(r[|existing|..|existing| + i]), batch[i].alarmId, r[|existing| + i].alarmId)
    ensures DistinctIds(existing) ==> DistinctIds(r)
  {
    var added := ResolveIds(IdSet(existing), batch);
    var r := existing + added;
    assert forall i | 0 <= i < |batch| :: r[|existing| + i] == added[i];
    forall i | 0 <= i < |batch|
      ensures LeastFreeFrom(IdSet(existing) + IdSet(r[|existing|..|existing| + i]), batch[i].alarmId, r[|existing| + i].alarmId)
    {
      ResolveTakesLeastFree(IdSet(existing), batch, i);
      assert r[|existing|..|existing| + i] == added[..i];
    }
    assert DistinctIds(existing) ==> DistinctIds(r) by {
      if DistinctIds(existing) {
        AppendFreshDistinct(existing, added);
      }
    }
    r
  }

  /** Appending records with distinct, unused identifiers keeps all identifiers distinct. */
  lemma AppendFreshDistinct(existing: seq<Alarm>, added: seq<Alarm>)
    requires DistinctIds(existing) && DistinctIds(added)
    requires forall i | 0 <= i < |added| :: added[i].alarmId !in IdSet(existing)
    ensures DistinctIds(existing + added)
  {
    var r := existing + added;
    forall i, j | 0 <= i < j < |r| ensures r[i].alarmId != r[j].alarmId {
      if j >= |existing| {
        assert r[j] == added[j - |existing|];
        if i < |existing| {
          assert r[i].alarmId in IdSet(existing);
        } else {
          assert r[i] == added[i - |existing|];
        }
      }
    }
  }

  /**
   * Existing identifiers 1 and 5; candidates asking for 5 and then 6 receive
   * 6 and then 7, because 6 is taken by the time the second one is probed.
   */
  lemma ConflictChainScenario(e1: Alarm, e5: Alarm, c5: Alarm, c6: Alarm)
    requires e1.alarmId == 1 && e5.alarmId == 5
    requires c5.alarmId == 5 && c6.alarmId == 6
    ensures var r := Merge([e1, e5], [c5, c6]);
      r == [e1, e5, c5.(alarmId := 6), c6.(alarmId := 7)]
  {
    var used := IdSet([e1, e5]);
    assert used == {1, 5} by {
      assert [e1, e5][0] == e1 && [e1, e5][1] == e5;
    }
    assert Probe({1, 5}, 5) == 6 by {
      assert Probe({1, 5}, 6) == 6;
    }
    assert Probe({1, 5, 6}, 6) == 7 by {
      assert Probe({1, 5, 6}, 7) == 7;
    }
    assert [c5, c6][1..] == [c6];
    assert {1, 5} + {6} == {1, 5, 6};
    var second := ResolveIds({1, 5, 6}, [c6]);
    assert second == [c6.(alarmId := 7)] by {
      assert [c6][1..] == [];
    }
    assert ResolveIds(used, [c5, c6]) == [c5.(alarmId := 6)] + second;
  }
}
