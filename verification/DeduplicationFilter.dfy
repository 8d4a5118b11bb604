/** The deduplication filter: a set for lookup and a queue for first-in first-out eviction. */
module Deduplication {

  /** The last `n` elements of `s`, or all of `s` when it is shorter. */
  function Last(s: seq<string>, n: nat): (r: seq<string>)
    ensures |r| == (if |s| < n then |s| else n) && r == s[|s| - |r|..]
  {
    if |s| < n then s else s[|s| - n..]
  }

  predicate Distinct(s: seq<string>) {
    forall i, j :: 0 <= i < j < |s| ==> s[i] != s[j]
  }

  /** A new id enters at the end and pushes out the oldest of a full window. */
  lemma LastExtends(s: seq<string>, n: nat, id: string)
    ensures
      var r := Last(s, n) + [id];
      && r != []
      && Last(s + [id], n) == if |r| > n then r[1..] else r
  {
  }

  lemma NewIdDistinct(s: seq<string>, id: string)
    requires Distinct(s) && id !in s
    ensures Distinct(s + [id])
  {
  }

  /** Dropping the oldest id drops it and nothing else. */
  lemma HeadIsOnce(s: seq<string>)
    requires s != [] && Distinct(s)
    ensures Distinct(s[1..]) && forall id :: id in s[1..] <==> id in s && id != s[0]
  {
    assert s == [s[0]] + s[1..];
    assert forall i :: 0 <= i < |s[1..]| ==> s[1..][i] == s[1 + i];
  }

  class DeduplicationFilter {
    var processedIds: set<string>
    var order: seq<string>
    const maxCapacity: nat
    /** Every id accepted so far, oldest first. */
    ghost var accepted: seq<string>

    ghost predicate Valid()
      reads this
    {
      && order == Last(accepted, maxCapacity)
      && (forall id :: id in processedIds <==> id in order)
      && Distinct(order)
    }

    constructor (maxCapacity: nat)
      ensures Valid() && accepted == [] && this.maxCapacity == maxCapacity
    {
      processedIds, order, accepted := {}, [], [];
      this.maxCapacity := maxCapacity;
    }

    /** A duplicate is an id among the last `maxCapacity` accepted ones; any other id is accepted. */
    method CheckAndTrack(eventId: string) returns (duplicate: bool)
      requires Valid()
      modifies this
      ensures Valid()
      ensures duplicate <==> eventId in Last(old(accepted), maxCapacity)
      ensures accepted == if duplicate then old(accepted) else old(accepted) + [eventId]
    {
      if eventId in processedIds {
        return true;
      }
      hide Last, Distinct;
      LastExtends(accepted, maxCapacity, eventId);
      NewIdDistinct(order, eventId);
      processedIds := processedIds + {eventId};
      order := order + [eventId];
      accepted := accepted + [eventId];
      if |order| > maxCapacity {
        var oldest := order[0];
        HeadIsOnce(order);
        order := order[1..];
        processedIds := processedIds - {oldest};
      }
      return false;
    }
  }

  /** The ids accepted out of a whole stream, in order. */
  function Accepted(stream: seq<string>, capacity: nat): seq<string> {
    if stream == [] then []
    else
      var before := Accepted(stream[..|stream| - 1], capacity);
      var id := stream[|stream| - 1];
      if id in Last(before, capacity) then before else before + [id]
  }

  /** Over any stream, any `capacity + 1` consecutive accepted ids are pairwise different. */
  lemma {:induction false} AcceptedWindowDistinct(stream: seq<string>, capacity: nat, i: nat, j: nat)
    requires i < j < |Accepted(stream, capacity)| && j - i <= capacity
    ensures Accepted(stream, capacity)[i] != Accepted(stream, capacity)[j]
  {
    hide Last, Accepted;
    if stream == [] {
      NothingAccepted(capacity);
    } else {
      AcceptedStep(stream, capacity);
      var before := Accepted(stream[..|stream| - 1], capacity);
      if j < |before| {
        AcceptedWindowDistinct(stream[..|stream| - 1], capacity, i, j);
      } else {
        LastIsRecent(before, capacity, before[i]);
      }
    }
  }

  lemma NothingAccepted(capacity: nat)
    ensures Accepted([], capacity) == []
  {
  }

  lemma LastIsPart(s: seq<string>, n: nat, id: string)
    requires id in Last(s, n)
    ensures id in s
  {
  }

  /** Nothing is lost: every id of a stream is accepted at least once. */
  lemma {:induction false} EveryIdAccepted(stream: seq<string>, capacity: nat, id: string)
    ensures id in stream <==> id in Accepted(stream, capacity)
  {
    if stream != [] {
      var front := stream[..|stream| - 1];
      assert stream == front + [stream[|stream| - 1]];
      EveryIdAccepted(front, capacity, id);
      if id == stream[|stream| - 1] && id in Last(Accepted(front, capacity), capacity) {
        LastIsPart(Accepted(front, capacity), capacity, id);
      }
    }
  }

  /** A stream without repetitions passes untouched, whatever the capacity. */
  lemma {:induction false} DistinctStreamAccepted(stream: seq<string>, capacity: nat)
    requires Distinct(stream)
    ensures Accepted(stream, capacity) == stream
  {
    if stream != [] {
      var front := stream[..|stream| - 1];
      var id := stream[|stream| - 1];
      assert Distinct(front) by {
        assert forall i | 0 <= i < |front| :: front[i] == stream[i];
      }
      assert stream == front + [id];
      DistinctStreamAccepted(front, capacity);
    }
  }

  lemma AcceptedStep(stream: seq<string>, capacity: nat)
    requires stream != []
    ensures
      var before, id := Accepted(stream[..|stream| - 1], capacity), stream[|stream| - 1];
      Accepted(stream, capacity) == if id in Last(before, capacity) then before else before + [id]
  {
  }

  /** The id stands at one of the last `n` places. */
  predicate Recent(s: seq<string>, n: nat, id: string) {
    exists k :: 0 <= k < |s| && |s| - n <= k && s[k] == id
  }

  /** An id of the stream was accepted somewhere, and has since been followed by no more accepted ids than ids. */
  lemma {:induction false} AcceptedRecently(stream: seq<string>, capacity: nat, id: string) returns (p: nat)
    requires id in stream
    ensures p < |stream| && stream[p] == id
    ensures Recent(Accepted(stream, capacity), |stream| - p, id)
  {
    hide Accepted, Recent;
    if NewAtEnd(stream, capacity, id) {
      p := |stream| - 1;
      AcceptedAtEnd(stream, capacity, id);
    } else {
      InFront(stream, capacity, id);
      p := AcceptedRecently(stream[..|stream| - 1], capacity, id);
      AcceptedSince(stream, capacity, id, p);
    }
  }

  predicate NewAtEnd(stream: seq<string>, capacity: nat, id: string)
    requires stream != []
  {
    stream[|stream| - 1] == id && Accepted(stream, capacity) == Accepted(stream[..|stream| - 1], capacity) + [id]
  }

  lemma AcceptedAtEnd(stream: seq<string>, capacity: nat, id: string)
    requires stream != [] && NewAtEnd(stream, capacity, id)
    ensures Recent(Accepted(stream, capacity), 1, id)
  {
    hide Accepted, Recent;
    RecentGrows(Accepted(stream[..|stream| - 1], capacity), 0, id, id);
  }

  lemma AcceptedSince(stream: seq<string>, capacity: nat, id: string, p: nat)
    requires p < |stream| - 1 && Recent(Accepted(stream[..|stream| - 1], capacity), |stream| - 1 - p, id)
    ensures Recent(Accepted(stream, capacity), |stream| - p, id)
  {
    hide Accepted, Recent, Last;
    AcceptedStep(stream, capacity);
    RecentGrows(Accepted(stream[..|stream| - 1], capacity), |stream| - 1 - p, id, stream[|stream| - 1]);
  }

  lemma RecentGrows(s: seq<string>, n: nat, id: string, more: string)
    requires Recent(s, n, id) || more == id
    ensures Recent(s + [more], n + 1, id)
    ensures Recent(s, n, id) ==> Recent(s, n + 1, id)
  {
    var t := s + [more];
    if k :| 0 <= k < |s| && |s| - n <= k && s[k] == id {
      assert t[k] == id;
    } else {
      assert t[|s|] == id;
    }
  }

  lemma InFront(stream: seq<string>, capacity: nat, id: string)
    requires id in stream
    requires !NewAtEnd(stream, capacity, id)
    ensures id in stream[..|stream| - 1]
  {
    hide Last, Accepted;
    AcceptedStep(stream, capacity);
    var front, last := stream[..|stream| - 1], stream[|stream| - 1];
    if last == id {
      LastIsPart(Accepted(front, capacity), capacity, id);
      EveryIdAccepted(front, capacity, id);
    } else {
      assert stream == front + [last];
    }
  }

  lemma LastIsRecent(s: seq<string>, n: nat, id: string)
    ensures id in Last(s, n) <==> Recent(s, n, id)
  {
    var r := Last(s, n);
    var from := |s| - |r|;
    if id in r {
      var i :| 0 <= i < |r| && r[i] == id;
      assert s[from + i] == id;
    }
    if k :| 0 <= k < |s| && |s| - n <= k && s[k] == id {
      assert r[k - from] == id;
    }
  }

  lemma RecentWidens(s: seq<string>, m: nat, n: nat, id: string)
    requires Recent(s, m, id) && m <= n
    ensures id in Last(s, n)
  {
    hide Last;
    LastIsRecent(s, n, id);
  }
}
