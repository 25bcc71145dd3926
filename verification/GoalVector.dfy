/** The vector of accepted Goals that both Services layers search, append to and erase from. */
module GoalVector {
  import opened ActionTypes

  datatype GoalInstance<T> = GoalInstance(goal: GoalId, context: T)

  /** A vector of distinct Goals stands for a map. */
  ghost predicate Represents<T>(goals: seq<GoalInstance<T>>, m: map<GoalId, T>) {
    && (forall i | 0 <= i < |goals| :: goals[i].goal in m && m[goals[i].goal] == goals[i].context)
    && (forall i, j | 0 <= i < j < |goals| :: goals[i].goal != goals[j].goal)
    && (forall g <- m :: exists i :: 0 <= i < |goals| && goals[i].goal == g)
  }

  method FindGoal<T>(goals: seq<GoalInstance<T>>, goal: GoalId) returns (found: Option<nat>)
    ensures found.Some? ==> found.value < |goals| && goals[found.value].goal == goal
    ensures found.None? ==> forall i | 0 <= i < |goals| :: goals[i].goal != goal
  {
    for i := 0 to |goals|
      invariant forall k | 0 <= k < i :: goals[k].goal != goal
    {
      if goals[i].goal == goal { return Some(i); }
    }
    found := None;
  }

  lemma AppendRepresents<T>(goals: seq<GoalInstance<T>>, m: map<GoalId, T>, goal: GoalId, c: T)
    requires Represents(goals, m) && goal !in m
    ensures Represents(goals + [GoalInstance(goal, c)], m[goal := c])
  {
    var next := goals + [GoalInstance(goal, c)];
    assert next[|goals|].goal == goal;
    forall g | g in m || g == goal ensures exists i :: 0 <= i < |next| && next[i].goal == g {
      if g != goal {
        var i :| 0 <= i < |goals| && goals[i].goal == g;
        assert next[i].goal == g;
      }
    }
  }

  lemma UpdateRepresents<T>(goals: seq<GoalInstance<T>>, m: map<GoalId, T>, at: nat, c: T)
    requires Represents(goals, m) && at < |goals|
    ensures Represents(goals[at := goals[at].(context := c)], m[goals[at].goal := c])
  {
    var next := goals[at := goals[at].(context := c)];
    forall g | g in m ensures exists i :: 0 <= i < |next| && next[i].goal == g {
      var i :| 0 <= i < |goals| && goals[i].goal == g;
      assert next[i].goal == g;
    }
  }

  function Erase<T>(s: seq<T>, at: nat): seq<T>
    requires at < |s|
  {
    s[..at] + s[at + 1..]
  }

  lemma EraseIs<T>(goals: seq<GoalInstance<T>>, at: nat)
    requires at < |goals|
    ensures var next := Erase(goals, at);
            |next| == |goals| - 1 && forall j | 0 <= j < |next| :: next[j] == goals[if j < at then j else j + 1]
  {
  }

  lemma EraseRepresents<T>(goals: seq<GoalInstance<T>>, m: map<GoalId, T>, at: nat)
    requires Represents(goals, m) && at < |goals|
    ensures Represents(Erase(goals, at), m - {goals[at].goal})
  {
    var next := Erase(goals, at);
    EraseIs(goals, at);
    forall g <- m - {goals[at].goal} ensures exists i :: 0 <= i < |next| && next[i].goal == g {
      var i :| 0 <= i < |goals| && goals[i].goal == g;
      assert next[if i < at then i else i - 1].goal == g;
    }
  }
}
