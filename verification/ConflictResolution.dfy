/** Last-write-wins resolution between clusters. */
module ConflictResolution {
  import opened Events

  /** On equal timestamps the first argument wins. */
  function ResolveConflict(a: ChangeEvent, b: ChangeEvent): ChangeEvent {
    if a.timestamp >= b.timestamp then a else b
  }

  /** What remains of a stream of conflicting events resolved one after the other. */
  function Winner(events: seq<ChangeEvent>): ChangeEvent
    requires events != []
  {
    if |events| == 1 then events[0]
    else ResolveConflict(Winner(events[..|events| - 1]), events[|events| - 1])
  }

  predicate Latest(events: seq<ChangeEvent>, e: ChangeEvent) {
    e in events && forall x :: x in events ==> x.timestamp <= e.timestamp
  }

  /** `e` stands at some place of the stream before which everything is older. */
  predicate FirstAtItsTime(events: seq<ChangeEvent>, e: ChangeEvent) {
    exists i :: 0 <= i < |events| && events[i] == e && forall j :: 0 <= j < i ==> events[j].timestamp < e.timestamp
  }

  lemma NextWinner(front: seq<ChangeEvent>, w: ChangeEvent, last: ChangeEvent)
    requires Latest(front, w) && FirstAtItsTime(front, w)
    ensures
      var events, v := front + [last], ResolveConflict(w, last);
      Latest(events, v) && FirstAtItsTime(events, v)
  {
    var events := front + [last];
    if w.timestamp >= last.timestamp {
      var i :| 0 <= i < |front| && front[i] == w && forall j :: 0 <= j < i ==> front[j].timestamp < w.timestamp;
      assert events[i] == w && forall j :: 0 <= j < i ==> events[j] == front[j];
    } else {
      assert events[|front|] == last;
      forall j | 0 <= j < |front|
        ensures events[j].timestamp < last.timestamp
      {
        assert events[j] in front;
      }
    }
  }

  /** The winner is the earliest in the stream among those with the greatest timestamp. */
  lemma {:induction false} WinnerIsFirstLatest(events: seq<ChangeEvent>)
    requires events != []
    ensures Latest(events, Winner(events)) && FirstAtItsTime(events, Winner(events))
  {
    if |events| == 1 {
      assert events[0] == Winner(events);
    } else {
      hide Latest, FirstAtItsTime;
      var front, last := events[..|events| - 1], events[|events| - 1];
      WinnerIsFirstLatest(front);
      NextWinner(front, Winner(front), last);
      assert events == front + [last];
    }
  }

  /** The same events in another order. */
  predicate Reordered(a: seq<ChangeEvent>, b: seq<ChangeEvent>) {
    multiset(a) == multiset(b)
  }

  lemma ReorderedMembers(a: seq<ChangeEvent>, b: seq<ChangeEvent>, e: ChangeEvent)
    requires Reordered(a, b)
    ensures e in a <==> e in b
  {
    assert e in a <==> e in multiset(a);
    assert e in b <==> e in multiset(b);
  }

  lemma ReorderedLatest(a: seq<ChangeEvent>, b: seq<ChangeEvent>, e: ChangeEvent)
    requires Reordered(a, b) && Latest(b, e)
    ensures Latest(a, e)
  {
    forall x {
      ReorderedMembers(a, b, x);
    }
  }

  /** The stream with the element at `i` moved to the front. */
  function MovedToFront(events: seq<ChangeEvent>, i: nat): seq<ChangeEvent>
    requires i < |events|
  {
    [events[i]] + events[..i] + events[i + 1..]
  }

  lemma MovedIsReordered(events: seq<ChangeEvent>, i: nat)
    requires i < |events|
    ensures Reordered(MovedToFront(events, i), events)
  {
    assert events == events[..i] + [events[i]] + events[i + 1..];
  }

  /**
   * Replicas that see the same events converge whatever the order exactly when only one event carries the
   * greatest timestamp; a tie between two different events can be resolved either way.
   */
  lemma ConvergesExactlyWithoutTies(events: seq<ChangeEvent>)
    requires events != []
    ensures (forall other :: other != [] && Reordered(other, events) ==> Winner(other) == Winner(events)) <==>
            (forall x, y :: Latest(events, x) && Latest(events, y) ==> x == y)
  {
    WinnerIsFirstLatest(events);
    if forall x, y :: Latest(events, x) && Latest(events, y) ==> x == y {
      forall other | other != [] && Reordered(other, events)
        ensures Winner(other) == Winner(events)
      {
        WinnerIsFirstLatest(other);
        ReorderedLatest(events, other, Winner(other));
      }
    } else {
      var x :| Latest(events, x) && x != Winner(events);
      var i :| 0 <= i < |events| && events[i] == x;
      var other := MovedToFront(events, i);
      MovedIsReordered(events, i);
      WinnerIsFirstLatest(other);
      ReorderedMembers(other, events, Winner(other));
      assert other[0] == x;
      var j :| 0 <= j < |other| && other[j] == Winner(other)
               && forall m :: 0 <= m < j ==> other[m].timestamp < Winner(other).timestamp;
      assert j == 0;
    }
  }
}
