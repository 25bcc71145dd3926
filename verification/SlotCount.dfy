/** Counting slots: Goals in distinct slots occupy as many slots as there are Goals. */
module SlotCount {
  import opened ActionTypes

  lemma {:induction false} DistinctValues(m: map<GoalId, nat>)
    requires forall g, h | g in m && h in m && g != h :: m[g] != m[h]
    ensures |m.Values| == |m|
    decreases |m|
  {
    if m == map[] {
      assert m.Values == {};
    } else {
      var g :| g in m;
      var less := m - {g};
      DistinctValues(less);
      forall s ensures s in m.Values <==> s in less.Values + {m[g]} {
        if s in m.Values {
          var h :| h in m && m[h] == s;
          assert h == g || (h in less && less[h] == s);
        }
      }
      assert m.Values == less.Values + {m[g]};
      assert m == less[g := m[g]];
    }
  }

  /** A vector of slot owners and a table of the slots owned that are inverse to each other count alike. */
  lemma OccupiedCount(owners: seq<Option<GoalId>>, slots: map<GoalId, nat>)
    requires forall g <- slots :: slots[g] < |owners| && owners[slots[g]] == Some(g)
    requires forall i | 0 <= i < |owners| && owners[i].Some? :: owners[i].value in slots && slots[owners[i].value] == i
    ensures |Occupied(owners)| == |slots|
  {
    DistinctValues(slots);
    forall i ensures i in Occupied(owners) <==> i in slots.Values {
      if i in Occupied(owners) { assert slots[owners[i].value] == i; }
    }
    assert Occupied(owners) == slots.Values;
  }

  ghost function Occupied(owners: seq<Option<GoalId>>): set<nat> { set i: nat | i < |owners| && owners[i].Some? }
}
