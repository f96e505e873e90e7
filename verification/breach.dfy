/**
 * Breach tracking: the action-frame event feed reports every unit that
 * reached an edge; the strategy keeps the locations of those not caused by
 * its own units, in arrival order, for the whole match.
 */
module Breach {
  import opened Game

  /**
   * One already-parsed entry of `events["breach"]`: its location (`breach[0]`)
   * and its owner flag (`breach[4]`, 1 for our own units, 2 for the opponent's).
   */
  datatype BreachEvent = BreachEvent(location: Cell, owner: int)

  /** The breach locations the strategy records from a batch, in arrival order. */
  function OpponentBreaches(events: seq<BreachEvent>): seq<Cell>
  {
    if events == [] then []
    else
      var e := events[|events| - 1];
      OpponentBreaches(events[..|events| - 1]) + (if e.owner != 1 then [e.location] else [])
  }

  /**
   * Recording is per event: recording two batches one after the other gives
   * the same list as recording their concatenation, so the list is in arrival order.
   */
  lemma {:induction false} OpponentBreachesAppend(a: seq<BreachEvent>, b: seq<BreachEvent>)
    ensures OpponentBreaches(a + b) == OpponentBreaches(a) + OpponentBreaches(b)
  {
    if b != [] {
      assert (a + b)[..|a + b| - 1] == a + b[..|b| - 1];
      assert (a + b)[|a + b| - 1] == b[|b| - 1];
      OpponentBreachesAppend(a, b[..|b| - 1]);
    } else {
      assert a + b == a;
    }
  }

  /** Exactly the opponent's events are kept: each recorded cell comes from one, and none is dropped. */
  lemma {:induction false} OpponentBreachesExact(events: seq<BreachEvent>)
    ensures |OpponentBreaches(events)| <= |events|
    ensures forall c :: c in OpponentBreaches(events) <==>
              exists i :: 0 <= i < |events| && events[i].owner != 1 && events[i].location == c
  {
    if events != [] {
      var init := events[..|events| - 1];
      OpponentBreachesExact(init);
      forall c
        ensures c in OpponentBreaches(events) <==>
                exists i :: 0 <= i < |events| && events[i].owner != 1 && events[i].location == c
      {
        if exists i :: 0 <= i < |events| && events[i].owner != 1 && events[i].location == c {
          var i :| 0 <= i < |events| && events[i].owner != 1 && events[i].location == c;
          if i < |init| {
            assert init[i] == events[i];
          }
        }
        if c in OpponentBreaches(init) {
          var i :| 0 <= i < |init| && init[i].owner != 1 && init[i].location == c;
          assert events[i] == init[i];
        }
      }
    }
  }

  /** A batch with one opponent breach and one of our own records exactly the opponent's. */
  lemma OneOfTwoRecorded(opp: Cell, own: Cell)
    ensures OpponentBreaches([BreachEvent(opp, 2), BreachEvent(own, 1)]) == [opp]
  {
    var first := [BreachEvent(opp, 2)];
    assert first[..0] == [];
    assert OpponentBreaches(first) == [opp];
    var events := [BreachEvent(opp, 2), BreachEvent(own, 1)];
    assert events[..1] == first;
  }
}
