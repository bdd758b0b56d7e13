/**
 * The active-events map: tracked label -> set of event ids currently
 * considered ongoing. These functions are the values the camera's
 * `activeEvents` map takes after each in-place update; the lemmas state
 * what those updates promise.
 */
module Tracker {

  type ActiveMap = map<string, set<string>>

  /** The distinguished label whose presence drives the `person_detected` capability. */
  const Person: string := "person"

  /** The map invariant: a label is a key only while it has at least one active id. */
  predicate WellFormed(m: ActiveMap) {
    forall l :: l in m ==> m[l] != {}
  }

  /** The abstract view: the set of active (label, id) pairs. */
  ghost function Pairs(m: ActiveMap): set<(string, string)> {
    set l, id | l in m && id in m[l] :: (l, id)
  }

  /** Membership query: `activeEvents.get(label)?.has(id)`, a missing label reading as false. */
  function IsActive(m: ActiveMap, l: string, id: string): (b: bool)
    ensures b <==> (l, id) in Pairs(m)
  {
    l in m && id in m[l]
  }

  /** Marking (l, id) active: create the label's set if missing, then add the id. */
  function Activate(m: ActiveMap, l: string, id: string): (r: ActiveMap)
    ensures l in r && id in r[l]
    ensures r.Keys == m.Keys + {l}
    ensures l in m ==> r[l] == m[l] + {id}
    ensures l !in m ==> r[l] == {id}
    ensures forall k :: k in m && k != l ==> r[k] == m[k]
    ensures IsActive(m, l, id) ==> r == m
    ensures WellFormed(m) ==> WellFormed(r)
  {
    var ids := if l in m then m[l] else {};
    assert id in ids ==> ids + {id} == ids;
    m[l := ids + {id}]
  }

  /**
   * Marking (l, id) ended: nothing happens for an unknown label; otherwise the
   * id is removed and the label is dropped once its set is empty.
   */
  function Deactivate(m: ActiveMap, l: string, id: string): (r: ActiveMap)
    ensures l !in m ==> r == m
    ensures l in m ==> (l in r <==> m[l] - {id} != {})
    ensures l in r ==> r[l] == m[l] - {id}
    ensures r.Keys <= m.Keys
    ensures forall k :: k in m && k != l ==> k in r && r[k] == m[k]
    ensures !IsActive(r, l, id)
    ensures WellFormed(m) ==> WellFormed(r)
  {
    if l !in m then m
    else
      var rest := m[l] - {id};
      if rest == {} then m - {l} else m[l := rest]
  }

  /** Activation adds exactly the pair (l, id) to the abstract view. */
  lemma PairsActivate(m: ActiveMap, l: string, id: string)
    ensures Pairs(Activate(m, l, id)) == Pairs(m) + {(l, id)}
  {
  }

  /** Ending removes exactly the pair (l, id) from the abstract view. */
  lemma PairsDeactivate(m: ActiveMap, l: string, id: string)
    ensures Pairs(Deactivate(m, l, id)) == Pairs(m) - {(l, id)}
  {
    var r := Deactivate(m, l, id);
    forall p | p in Pairs(r) ensures p in Pairs(m) - {(l, id)} {
      var (k, x) := p;
      assert k in m && x in m[k];
    }
    forall p | p in Pairs(m) - {(l, id)} ensures p in Pairs(r) {
      var (k, x) := p;
      assert k in m && x in m[k];
      if k == l {
        assert x in m[l] - {id};
      }
      assert k in r && x in r[k];
    }
  }

  /** A well-formed map is determined by its pairs: the invariant leaves no hidden state. */
  lemma {:induction false} PairsDetermineMap(m1: ActiveMap, m2: ActiveMap)
    requires WellFormed(m1) && WellFormed(m2)
    requires Pairs(m1) == Pairs(m2)
    ensures m1 == m2
  {
    forall l | l in m1 ensures l in m2 && m2[l] == m1[l] {
      var x :| x in m1[l];
      assert (l, x) in Pairs(m1);
      assert l in m2;
      forall y | y in m1[l] ensures y in m2[l] {
        assert (l, y) in Pairs(m1);
      }
      forall y | y in m2[l] ensures y in m1[l] {
        assert (l, y) in Pairs(m2);
      }
    }
    forall l | l in m2 ensures l in m1 {
      var x :| x in m2[l];
      assert (l, x) in Pairs(m2);
    }
  }

  /** Ending a pair that was just newly activated restores the previous map. */
  lemma DeactivateUndoesActivate(m: ActiveMap, l: string, id: string)
    requires WellFormed(m)
    requires !IsActive(m, l, id)
    ensures Deactivate(Activate(m, l, id), l, id) == m
  {
  }
}
