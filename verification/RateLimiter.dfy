/** Token buckets over real-valued tokens and a supplied clock, and one bucket per tenant. */
module RateLimiters {
  import opened Bounds
  import opened Wrappers

  datatype Bucket = Bucket(capacity: nat, rate: real, tokens: real, lastRefill: real)

  function NewBucket(capacity: nat, rate: real, now: real): Bucket {
    Bucket(capacity, rate, capacity as real, now)
  }

  /** The tokens refilled since the last call; the elapsed time saturates at zero should the clock have gone back. */
  function Refill(b: Bucket, now: real): real {
    var elapsed := if now > b.lastRefill then now - b.lastRefill else 0.0;
    elapsed * b.rate
  }

  function Refilled(b: Bucket, now: real): real {
    MinReal(b.tokens + Refill(b, now), b.capacity as real)
  }

  function Attempt(b: Bucket, count: nat, now: real): (Bucket, bool) {
    var level := Refilled(b, now);
    if level >= count as real
    then (b.(tokens := level - count as real, lastRefill := now), true)
    else (b.(tokens := level, lastRefill := now), false)
  }

  // The bucket by its history: every call so far with what it was granted, the creation of the bucket first.

  datatype Call = Call(time: real, granted: nat)

  function Spent(h: seq<Call>, k: nat): nat
    requires k <= |h|
    decreases |h| - k
  {
    if k == |h| then 0 else h[k].granted + Spent(h, k + 1)
  }

  /** What a window from call `k` until `now` leaves: a full bucket, plus the refill since, less the grants since. */
  function Room(b: Bucket, h: seq<Call>, k: nat, now: real): real
    requires k < |h|
  {
    b.capacity as real + b.rate * (now - h[k].time) - Spent(h, k) as real
  }

  /** The tokens left are the least room of any window that ends at the last call. */
  predicate Tracks(b: Bucket, h: seq<Call>) {
    && h != [] && b.lastRefill == h[|h| - 1].time
    && (forall k :: 0 <= k < |h| ==> b.tokens <= Room(b, h, k, b.lastRefill))
    && (exists k :: 0 <= k < |h| && b.tokens == Room(b, h, k, b.lastRefill))
  }

  /** The least of a full bucket and the room of every window ending now. */
  predicate IsLevel(level: real, b: Bucket, h: seq<Call>, now: real) {
    && level <= b.capacity as real
    && (forall k :: 0 <= k < |h| ==> level <= Room(b, h, k, now))
    && (level == b.capacity as real || exists k :: 0 <= k < |h| && level == Room(b, h, k, now))
  }

  lemma RoomShifts(b: Bucket, h: seq<Call>, k: nat, then_: real, now: real)
    requires k < |h|
    ensures Room(b, h, k, now) == Room(b, h, k, then_) + (now - then_) * b.rate
  {
    var t := h[k].time;
    assert b.rate * (now - t) == b.rate * (then_ - t) + (now - then_) * b.rate;
  }

  /** Exact level: after any history the refilled level is the least over all windows that end now. */
  lemma RefilledIsLeastRoom(b: Bucket, h: seq<Call>, now: real)
    requires Tracks(b, h) && now >= b.lastRefill
    ensures IsLevel(Refilled(b, now), b, h, now)
  {
    hide Room;
    forall k | 0 <= k < |h|
      ensures Room(b, h, k, now) == Room(b, h, k, b.lastRefill) + (now - b.lastRefill) * b.rate
    {
      RoomShifts(b, h, k, b.lastRefill, now);
    }
    var k :| 0 <= k < |h| && b.tokens == Room(b, h, k, b.lastRefill);
    assert b.tokens + Refill(b, now) == Room(b, h, k, now);
  }

  lemma {:induction false} SpentExtends(h: seq<Call>, c: Call, k: nat)
    requires k <= |h|
    ensures Spent(h + [c], k) == Spent(h, k) + c.granted
    decreases |h| - k
  {
    if k < |h| {
      SpentExtends(h, c, k + 1);
    } else {
      assert Spent(h + [c], k + 1) == 0;
    }
  }

  lemma NewestRoom(b: Bucket, h: seq<Call>, c: Call)
    ensures Room(b, h + [c], |h|, c.time) == b.capacity as real - c.granted as real
  {
    SpentExtends(h, c, |h|);
    var elapsed := c.time - c.time;
    assert b.rate * elapsed == 0.0;
  }

  lemma OlderRoom(b: Bucket, after: Bucket, h: seq<Call>, c: Call, k: nat)
    requires k < |h| && after.capacity == b.capacity && after.rate == b.rate
    ensures Room(after, h + [c], k, c.time) == Room(b, h, k, c.time) - c.granted as real
  {
    SpentExtends(h, c, k);
  }

  /** A call keeps the bucket in step with its history, granted or not. */
  lemma AttemptTracks(b: Bucket, h: seq<Call>, count: nat, now: real)
    requires Tracks(b, h) && now >= b.lastRefill
    ensures
      var (after, granted) := Attempt(b, count, now);
      Tracks(after, h + [Call(now, if granted then count else 0)])
  {
    hide Room, Refilled, Spent;
    RefilledIsLeastRoom(b, h, now);
    var (after, granted) := Attempt(b, count, now);
    var c := Call(now, if granted then count else 0);
    var level := Refilled(b, now);
    NewestRoom(after, h, c);
    forall k | 0 <= k < |h|
      ensures Room(after, h + [c], k, now) == Room(b, h, k, now) - c.granted as real
    {
      OlderRoom(b, after, h, c, k);
    }
    if level == b.capacity as real {
      assert after.tokens == Room(after, h + [c], |h|, now);
    } else {
      var k :| 0 <= k < |h| && level == Room(b, h, k, now);
      assert after.tokens == Room(after, h + [c], k, now);
    }
  }

  /** A request fits if every window ending now, this request included, stays within a full bucket plus its refill. */
  predicate Fits(b: Bucket, h: seq<Call>, count: nat, now: real) {
    && count <= b.capacity
    && forall k :: 0 <= k < |h| ==> (count + Spent(h, k)) as real <= b.capacity as real + b.rate * (now - h[k].time)
  }

  lemma RoomFits(b: Bucket, h: seq<Call>, k: nat, count: nat, now: real)
    requires k < |h|
    ensures count as real <= Room(b, h, k, now) <==>
            (count + Spent(h, k)) as real <= b.capacity as real + b.rate * (now - h[k].time)
  {
    assert (count + Spent(h, k)) as real == count as real + Spent(h, k) as real;
  }

  lemma GrantedIffFits(b: Bucket, h: seq<Call>, count: nat, now: real)
    requires Tracks(b, h) && now >= b.lastRefill
    ensures Attempt(b, count, now).1 <==> Fits(b, h, count, now)
  {
    hide Tracks, Room, Spent, Refilled;
    RefilledIsLeastRoom(b, h, now);
    forall k: nat | k < |h|
      ensures count as real <= Room(b, h, k, now) <==>
              (count + Spent(h, k)) as real <= b.capacity as real + b.rate * (now - h[k].time)
    {
      RoomFits(b, h, k, count, now);
    }
    if Refilled(b, now) < count as real && count <= b.capacity {
      var k :| 0 <= k < |h| && Refilled(b, now) == Room(b, h, k, now);
      assert !(count as real <= Room(b, h, k, now));
    }
  }

  datatype Request = Request(time: real, count: nat)

  /** A new bucket and its history after a run of requests. */
  function Play(capacity: nat, rate: real, created: real, requests: seq<Request>): (Bucket, seq<Call>) {
    if requests == [] then (NewBucket(capacity, rate, created), [Call(created, 0)])
    else
      var (b, h) := Play(capacity, rate, created, requests[..|requests| - 1]);
      var r := requests[|requests| - 1];
      var (after, granted) := Attempt(b, r.count, r.time);
      (after, h + [Call(r.time, if granted then r.count else 0)])
  }

  function LastTime(created: real, requests: seq<Request>): real {
    if requests == [] then created else requests[|requests| - 1].time
  }

  predicate InOrder(created: real, requests: seq<Request>) {
    requests == [] ||
    (InOrder(created, requests[..|requests| - 1])
     && LastTime(created, requests[..|requests| - 1]) <= requests[|requests| - 1].time)
  }

  lemma {:induction false} PlayTracks(capacity: nat, rate: real, created: real, requests: seq<Request>)
    requires InOrder(created, requests)
    ensures
      var (b, h) := Play(capacity, rate, created, requests);
      && Tracks(b, h) && b.capacity == capacity && b.rate == rate
      && b.lastRefill == LastTime(created, requests)
  {
    if requests == [] {
      var h := [Call(created, 0)];
      assert Spent(h, 1) == 0;
      assert Room(NewBucket(capacity, rate, created), h, 0, created) == capacity as real;
    } else {
      var front := requests[..|requests| - 1];
      PlayTracks(capacity, rate, created, front);
      var (b, h) := Play(capacity, rate, created, front);
      AttemptTracks(b, h, requests[|requests| - 1].count, requests[|requests| - 1].time);
    }
  }

  /**
   * Exactness over whole runs: after any run the refilled level is the least room over all windows ending now,
   * and the next request is granted exactly when every such window, the request included, stays within bounds.
   */
  lemma RunIsExact(capacity: nat, rate: real, created: real, requests: seq<Request>, next: Request)
    requires InOrder(created, requests + [next])
    ensures
      var (b, h) := Play(capacity, rate, created, requests);
      && IsLevel(Refilled(b, next.time), b, h, next.time)
      && (Attempt(b, next.count, next.time).1 <==> Fits(b, h, next.count, next.time))
  {
    assert (requests + [next])[..|requests|] == requests;
    PlayTracks(capacity, rate, created, requests);
    var (b, h) := Play(capacity, rate, created, requests);
    RefilledIsLeastRoom(b, h, next.time);
    GrantedIffFits(b, h, next.count, next.time);
  }

  lemma {:induction false} PlayPrefix(capacity: nat, rate: real, created: real, requests: seq<Request>, j: nat)
    requires j <= |requests|
    ensures |Play(capacity, rate, created, requests).1| == |requests| + 1
    ensures Play(capacity, rate, created, requests[..j]).1 == Play(capacity, rate, created, requests).1[..j + 1]
  {
    if j == |requests| {
      assert requests[..j] == requests;
      if requests != [] {
        PlayPrefix(capacity, rate, created, requests[..|requests| - 1], 0);
      }
    } else {
      var front := requests[..|requests| - 1];
      PlayPrefix(capacity, rate, created, front, j);
      assert front[..j] == requests[..j];
    }
  }

  lemma {:induction false} InOrderPrefix(created: real, requests: seq<Request>, j: nat)
    requires InOrder(created, requests) && j <= |requests|
    ensures InOrder(created, requests[..j])
  {
    if j == |requests| {
      assert requests[..j] == requests;
    } else {
      InOrderPrefix(created, requests[..|requests| - 1], j);
      assert requests[..|requests| - 1][..j] == requests[..j];
    }
  }

  lemma AttemptNonNegative(b: Bucket, count: nat, now: real)
    requires now >= b.lastRefill
    ensures
      var (after, granted) := Attempt(b, count, now);
      granted || (b.rate >= 0.0 && b.tokens >= 0.0) ==> after.tokens >= 0.0
  {
    hide Refill;
    RefillSign(b, now);
  }

  lemma ProductSign(x: real, y: real)
    requires x >= 0.0
    ensures y >= 0.0 ==> x * y >= 0.0
    ensures y <= 0.0 ==> x * y <= 0.0
  {
    if y < 0.0 {
      var z := -y;
      assert x * z >= 0.0;
      assert x * y == -(x * z);
    }
  }

  lemma RefillSign(b: Bucket, now: real)
    ensures b.rate >= 0.0 ==> Refill(b, now) >= 0.0
    ensures b.rate <= 0.0 ==> Refill(b, now) <= 0.0
  {
    var elapsed := if now > b.lastRefill then now - b.lastRefill else 0.0;
    ProductSign(elapsed, b.rate);
  }

  /** Tokens are never negative, unless the refill rate is and the last request was refused. */
  lemma {:induction false} PlayNonNegative(capacity: nat, rate: real, created: real, requests: seq<Request>)
    requires InOrder(created, requests)
    ensures
      var (b, h) := Play(capacity, rate, created, requests);
      h != [] && (rate >= 0.0 || h[|h| - 1].granted > 0 ==> b.tokens >= 0.0)
  {
    hide Attempt, Tracks;
    if requests != [] {
      var front := requests[..|requests| - 1];
      var last := requests[|requests| - 1];
      PlayNonNegative(capacity, rate, created, front);
      PlayTracks(capacity, rate, created, front);
      AttemptNonNegative(Play(capacity, rate, created, front).0, last.count, last.time);
    }
  }

  /** Everything granted from call `i` up to and including call `j`, the creation of the bucket being call 0. */
  function GrantedBetween(h: seq<Call>, i: nat, j: nat): nat
    requires i <= j < |h|
  {
    Spent(h[..j + 1], i)
  }

  /**
   * Over any stretch of any run no more is granted than one full bucket plus the refill of the stretch; with a
   * negative rate this holds of the stretches that end with a grant.
   */
  lemma WindowBound(capacity: nat, rate: real, created: real, requests: seq<Request>, i: nat, j: nat)
    requires InOrder(created, requests) && i <= j <= |requests|
    ensures |Play(capacity, rate, created, requests).1| == |requests| + 1
    ensures
      var h := Play(capacity, rate, created, requests).1;
      rate >= 0.0 || h[j].granted > 0 ==>
        GrantedBetween(h, i, j) as real <= capacity as real + rate * (h[j].time - h[i].time)
  {
    hide Play, Tracks, Spent;
    PlayPrefix(capacity, rate, created, requests, j);
    InOrderPrefix(created, requests, j);
    PlayTracks(capacity, rate, created, requests[..j]);
    PlayNonNegative(capacity, rate, created, requests[..j]);
    var (b, h) := Play(capacity, rate, created, requests[..j]);
    var all := Play(capacity, rate, created, requests).1;
    assert h == all[..j + 1];
    if rate >= 0.0 || all[j].granted > 0 {
      RoomUsed(b, h, i);
      assert b.lastRefill == all[j].time by { TracksLast(b, h); }
    }
  }

  lemma TracksLast(b: Bucket, h: seq<Call>)
    requires Tracks(b, h)
    ensures h != [] && b.lastRefill == h[|h| - 1].time
  {
  }

  lemma RoomUsed(b: Bucket, h: seq<Call>, i: nat)
    requires Tracks(b, h) && b.tokens >= 0.0 && i < |h|
    ensures Spent(h, i) as real <= b.capacity as real + b.rate * (b.lastRefill - h[i].time)
  {
    assert b.tokens <= Room(b, h, i, b.lastRefill);
  }

  /** After a refused attempt, waiting for the missing tokens to be refilled is enough. */
  lemma RetrySucceeds(b: Bucket, count: nat, now: real, slept: real)
    requires !Attempt(b, count, now).1 && count <= b.capacity && b.rate > 0.0
    requires slept > 0.0 && slept >= (count as real - Attempt(b, count, now).0.tokens) / b.rate
    ensures Attempt(Attempt(b, count, now).0, count, now + slept).1
  {
    var missing := count as real - Attempt(b, count, now).0.tokens;
    assert missing / b.rate * b.rate == missing;
    assert (slept - missing / b.rate) * b.rate >= 0.0;
  }

  /** How long to sleep for missing tokens: until they are refilled, and at least a millisecond. */
  function SleepFor(missing: real, rate: real): real
    requires rate > 0.0
  {
    var wait := missing / rate;
    if wait >= 0.001 then wait else 0.001
  }

  lemma ScaledBack(missing: real, rate: real)
    requires rate > 0.0
    ensures missing / rate * rate == missing
  {
  }

  lemma ShorterIsLess(w: real, wait: real, rate: real)
    requires rate > 0.0 && w < wait
    ensures w * rate < wait * rate
  {
  }

  lemma RefillAfter(b: Bucket, w: real)
    requires w >= 0.0
    ensures Refill(b, b.lastRefill + w) == w * b.rate
  {
  }

  /**
   * The least waking time that will do for a refused bucket: at least a millisecond on, with another refusal at any
   * earlier time from a millisecond on, and, if later than that, with exactly the tokens asked for.
   */
  ghost predicate LeastWaking(refused: Bucket, count: nat, woken: real) {
    var soonest := refused.lastRefill + 0.001;
    && woken >= soonest
    && (forall t :: soonest <= t < woken ==> !Attempt(refused, count, t).1)
    && (woken > soonest ==> Refilled(refused, woken) == count as real)
  }

  lemma StillRefused(b: Bucket, count: nat, t: real)
    requires b.rate > 0.0 && b.lastRefill <= t
    requires t - b.lastRefill < (count as real - b.tokens) / b.rate
    ensures !Attempt(b, count, t).1
  {
    hide Refill;
    var missing := count as real - b.tokens;
    ScaledBack(missing, b.rate);
    RefillAfter(b, t - b.lastRefill);
    ShorterIsLess(t - b.lastRefill, missing / b.rate, b.rate);
  }

  lemma SleepIsLeast(b: Bucket, count: nat)
    requires b.rate > 0.0 && b.tokens < count as real && count <= b.capacity
    ensures LeastWaking(b, count, b.lastRefill + SleepFor(count as real - b.tokens, b.rate))
  {
    hide Refill, Attempt;
    var missing := count as real - b.tokens;
    var slept := SleepFor(missing, b.rate);
    ScaledBack(missing, b.rate);
    RefillAfter(b, slept);
    forall t | b.lastRefill + 0.001 <= t < b.lastRefill + slept
      ensures !Attempt(b, count, t).1
    {
      StillRefused(b, count, t);
    }
  }

  class TokenBucketLimiter {
    const capacity: nat
    const refillRate: real
    var tokens: real
    var lastRefill: real
    ghost var history: seq<Call>

    function State(): Bucket
      reads this
    {
      Bucket(capacity, refillRate, tokens, lastRefill)
    }

    ghost predicate Valid()
      reads this
    {
      Tracks(State(), history) && (refillRate >= 0.0 ==> tokens >= 0.0)
    }

    constructor (capacity: nat, refillRate: real, now: real)
      ensures Valid() && State() == NewBucket(capacity, refillRate, now)
      ensures history == [Call(now, 0)]
    {
      this.capacity, this.refillRate := capacity, refillRate;
      tokens, lastRefill := capacity as real, now;
      history := [Call(now, 0)];
      new;
      assert Spent(history, 0) == 0;
      assert Room(State(), history, 0, now) == tokens;
    }

    method TryAcquire(count: nat, now: real) returns (granted: bool)
      requires Valid() && now >= lastRefill
      modifies this
      ensures Valid() && lastRefill == now
      ensures (State(), granted) == Attempt(old(State()), count, now)
      ensures granted <==> Fits(old(State()), old(history), count, now)
      ensures history == old(history) + [Call(now, if granted then count else 0)]
    {
      hide Tracks, Fits;
      GrantedIffFits(State(), history, count, now);
      AttemptTracks(State(), history, count, now);
      var elapsed := if now > lastRefill then now - lastRefill else 0.0;
      tokens := MinReal(tokens + elapsed * refillRate, capacity as real);
      lastRefill := now;
      if tokens >= count as real {
        tokens := tokens - count as real;
        granted := true;
      } else {
        granted := false;
      }
      history := history + [Call(now, if granted then count else 0)];
      assert State() == Attempt(old(State()), count, now).0;
    }

    /**
     * Retries until granted, for a caller that has the bucket to itself; a sleep may overrun by any amount.
     * It sleeps at most once. Called with any request that is not granted at once and does not fit the bucket or
     * waits for no refill, it would retry for ever (`WaitingEndsExactly`).
     */
    method Acquire(count: nat, begin: real, overrun: nat -> real) returns (sleeps: nat, end: real)
      requires Valid() && begin >= lastRefill
      requires Attempt(State(), count, begin).1 || (refillRate > 0.0 && count <= capacity)
      requires forall i :: overrun(i) >= 0.0
      modifies this
      ensures Valid() && end == lastRefill >= begin
      ensures sleeps > 0 ==> refillRate > 0.0
      ensures end == begin + if sleeps == 0 then 0.0
                             else SleepFor(count as real - Refilled(old(State()), begin), refillRate) + overrun(0)
      ensures sleeps > 0 ==> LeastWaking(Attempt(old(State()), count, begin).0, count, end - overrun(0))
      ensures sleeps <= 1 && (sleeps == 0 <==> Fits(old(State()), old(history), count, begin))
      ensures history == old(history) + (if sleeps == 0 then [] else [Call(begin, 0)]) + [Call(end, count)]
    {
      hide Tracks, Fits, Refilled, LeastWaking;
      ghost var before := State();
      sleeps, end := 0, begin;
      var granted := TryAcquire(count, end);
      while !granted
        invariant Valid() && end == lastRefill >= begin
        invariant !granted ==> sleeps == 0 && end == begin && history == old(history) + [Call(begin, 0)]
        invariant !granted ==> (State(), false) == Attempt(before, count, begin)
        invariant granted ==>
          history == old(history) + (if sleeps == 0 then [] else [Call(begin, 0)]) + [Call(end, count)]
        invariant granted ==> sleeps <= 1
        invariant sleeps > 0 ==> LeastWaking(Attempt(before, count, begin).0, count, end - overrun(0))
        invariant !granted || sleeps > 0 ==> refillRate > 0.0 && count <= capacity
        invariant !granted ==> tokens == Refilled(before, begin)
        invariant granted ==>
          end == begin + if sleeps == 0 then 0.0
                         else SleepFor(count as real - Refilled(before, begin), refillRate) + overrun(0)
        invariant granted || sleeps == 0 ==>
          (sleeps == 0 && granted <==> Fits(old(State()), old(history), count, begin))
        decreases !granted
      {
        var slept := SleepFor(count as real - tokens, refillRate) + overrun(sleeps);
        RetrySucceeds(before, count, begin, slept);
        RefusedState(before, count, begin);
        SleepIsLeast(State(), count);
        sleeps, end := sleeps + 1, end + slept;
        granted := TryAcquire(count, end);
      }
    }
  }

  /** The bucket after a sequence of retries for the same count. */
  function Retried(b: Bucket, count: nat, times: seq<real>): Bucket {
    if times == [] then b
    else Attempt(Retried(b, count, times[..|times| - 1]), count, times[|times| - 1]).0
  }

  predicate Forward(b: Bucket, times: seq<real>) {
    && (forall i :: 0 <= i < |times| ==> times[i] >= b.lastRefill)
    && (forall i, j :: 0 <= i < j < |times| ==> times[i] <= times[j])
  }

  /** A request above capacity, or one too large now with nothing refilled, is refused and stays so. */
  predicate Hopeless(b: Bucket, count: nat) {
    count > b.capacity || (b.rate <= 0.0 && b.tokens < count as real)
  }

  lemma HopelessAttempt(b: Bucket, count: nat, now: real)
    requires Hopeless(b, count) && now >= b.lastRefill
    ensures
      var (after, granted) := Attempt(b, count, now);
      !granted && Hopeless(after, count) && after.lastRefill == now
  {
    hide Refill;
    RefillSign(b, now);
  }

  lemma {:induction false} HopelessRetries(b: Bucket, count: nat, times: seq<real>)
    requires Forward(b, times) && Hopeless(b, count)
    ensures
      var r := Retried(b, count, times);
      Hopeless(r, count) && r.lastRefill == if times == [] then b.lastRefill else times[|times| - 1]
  {
    hide Attempt, Hopeless;
    if times != [] {
      var front := times[..|times| - 1];
      HopelessRetries(b, count, front);
      HopelessAttempt(Retried(b, count, front), count, times[|times| - 1]);
    }
  }

  /**
   * When waiting ends for a sole caller: a refused request is granted by some later retry if and only if it fits
   * the bucket and the bucket refills.
   */
  lemma WaitingEndsExactly(b: Bucket, count: nat, now: real)
    requires now >= b.lastRefill && !Attempt(b, count, now).1
    ensures
      var refused := Attempt(b, count, now).0;
      (exists times: seq<real>, next: real ::
         Forward(refused, times + [next]) && Attempt(Retried(refused, count, times), count, next).1)
      <==> count <= b.capacity && b.rate > 0.0
  {
    hide Forward, Attempt, Retried;
    var refused := Attempt(b, count, now).0;
    RefusedState(b, count, now);
    if count <= b.capacity && b.rate > 0.0 {
      var next := now + SleepFor(count as real - refused.tokens, b.rate);
      RetrySucceeds(b, count, now, next - now);
      FirstRetry(refused, count, next);
      assert Forward(refused, [] + [next]) && Attempt(Retried(refused, count, []), count, next).1;
    } else {
      forall times: seq<real>, next: real | Forward(refused, times + [next])
        ensures !Attempt(Retried(refused, count, times), count, next).1
      {
        HopelessRetry(refused, count, times, next);
      }
    }
  }

  lemma RefusedState(b: Bucket, count: nat, now: real)
    requires !Attempt(b, count, now).1
    ensures
      var refused := Attempt(b, count, now).0;
      && refused.capacity == b.capacity && refused.rate == b.rate
      && refused.tokens < count as real && refused.lastRefill == now
  {
  }

  lemma FirstRetry(b: Bucket, count: nat, next: real)
    requires next >= b.lastRefill
    ensures Retried(b, count, []) == b && Forward(b, [] + [next])
  {
  }

  lemma HopelessRetry(b: Bucket, count: nat, times: seq<real>, next: real)
    requires Forward(b, times + [next]) && Hopeless(b, count)
    ensures !Attempt(Retried(b, count, times), count, next).1
  {
    hide Retried, Attempt, Hopeless;
    RetriesForward(b, times, next);
    HopelessRetries(b, count, times);
    HopelessAttempt(Retried(b, count, times), count, next);
  }

  lemma RetriesForward(b: Bucket, times: seq<real>, next: real)
    requires Forward(b, times + [next])
    ensures Forward(b, times) && next >= b.lastRefill && (times != [] ==> times[|times| - 1] <= next)
  {
    var all := times + [next];
    assert forall i :: 0 <= i < |times| ==> times[i] == all[i];
    assert all[|times|] == next;
  }

  // Tenants.

  datatype Defaults = Defaults(capacity: nat, rate: real)

  datatype Op =
    | TryAllow(tenant: string, now: real)
    | SetQuota(tenant: string, capacity: nat, rate: real, now: real)

  type Buckets = map<string, Bucket>

  function BucketFor(d: Defaults, held: Option<Bucket>, now: real): Bucket {
    match held
    case Some(b) => b
    case None => NewBucket(d.capacity, d.rate, now)
  }

  function Lookup(m: Buckets, tenant: string): Option<Bucket> {
    if tenant in m then Some(m[tenant]) else None
  }

  /** One call on the tenant map; quota changes decide nothing. */
  function Apply(d: Defaults, m: Buckets, op: Op): (Buckets, Option<bool>) {
    match op
    case SetQuota(t, capacity, rate, now) => (m[t := NewBucket(capacity, rate, now)], None)
    case TryAllow(t, now) =>
      var (b, granted) := Attempt(BucketFor(d, Lookup(m, t), now), 1, now);
      (m[t := b], Some(granted))
  }

  /** The same call on a tenant's bucket alone, created when first needed. */
  function ApplyAlone(d: Defaults, held: Option<Bucket>, op: Op): (Option<Bucket>, Option<bool>) {
    match op
    case SetQuota(_, capacity, rate, now) => (Some(NewBucket(capacity, rate, now)), None)
    case TryAllow(_, now) =>
      var (b, granted) := Attempt(BucketFor(d, held, now), 1, now);
      (Some(b), Some(granted))
  }

  function After(d: Defaults, ops: seq<Op>): Buckets {
    if ops == [] then map[] else Apply(d, After(d, ops[..|ops| - 1]), ops[|ops| - 1]).0
  }

  /** What the calls of one tenant were told, in order, among everyone's calls. */
  function Verdicts(d: Defaults, ops: seq<Op>, tenant: string): seq<Option<bool>> {
    if ops == [] then []
    else
      var front := ops[..|ops| - 1];
      var op := ops[|ops| - 1];
      if op.tenant == tenant then Verdicts(d, front, tenant) + [Apply(d, After(d, front), op).1]
      else Verdicts(d, front, tenant)
  }

  function Own(ops: seq<Op>, tenant: string): seq<Op> {
    if ops == [] then []
    else
      var own := Own(ops[..|ops| - 1], tenant);
      if ops[|ops| - 1].tenant == tenant then own + [ops[|ops| - 1]] else own
  }

  function Alone(d: Defaults, own: seq<Op>): (Option<Bucket>, seq<Option<bool>>) {
    if own == [] then (None, [])
    else
      var (held, verdicts) := Alone(d, own[..|own| - 1]);
      var (b, verdict) := ApplyAlone(d, held, own[|own| - 1]);
      (b, verdicts + [verdict])
  }

  /**
   * Non-interference: whatever other tenants do, a tenant's bucket and every decision it is given are those of
   * a single bucket that sees the tenant's own calls only, lazy creation and quota resets included.
   */
  lemma {:induction false} TenantsDoNotInterfere(d: Defaults, ops: seq<Op>, tenant: string)
    ensures (Lookup(After(d, ops), tenant), Verdicts(d, ops, tenant)) == Alone(d, Own(ops, tenant))
  {
    if ops != [] {
      var front := ops[..|ops| - 1];
      TenantsDoNotInterfere(d, front, tenant);
      if ops[|ops| - 1].tenant == tenant {
        assert Own(ops, tenant)[..|Own(ops, tenant)| - 1] == Own(front, tenant);
      }
    }
  }

  // A tenant's bucket as an ordinary one: from its last quota, or from its first call with the default quota.

  function Tries(tenant: string, times: seq<real>): seq<Op> {
    seq(|times|, i requires 0 <= i < |times| => TryAllow(tenant, times[i]))
  }

  function Singles(times: seq<real>): seq<Request> {
    seq(|times|, i requires 0 <= i < |times| => Request(times[i], 1))
  }

  /** What a bucket with this quota tells one single request after the other. */
  function Grants(capacity: nat, rate: real, created: real, times: seq<real>): seq<Option<bool>> {
    if times == [] then []
    else
      var front, now := times[..|times| - 1], times[|times| - 1];
      Grants(capacity, rate, created, front)
      + [Some(Attempt(Play(capacity, rate, created, Singles(front)).0, 1, now).1)]
  }

  lemma TriesExtend(base: seq<Op>, tenant: string, times: seq<real>)
    requires times != []
    ensures
      var front, now := times[..|times| - 1], times[|times| - 1];
      && base + Tries(tenant, times) == base + Tries(tenant, front) + [TryAllow(tenant, now)]
      && Singles(times) == Singles(front) + [Request(now, 1)]
  {
  }

  lemma AloneExtends(d: Defaults, own: seq<Op>, op: Op)
    ensures
      var (held, verdicts) := Alone(d, own);
      var (b, verdict) := ApplyAlone(d, held, op);
      Alone(d, own + [op]) == (b, verdicts + [verdict])
  {
    assert (own + [op])[..|own|] == own;
  }

  lemma PlayExtends(capacity: nat, rate: real, created: real, requests: seq<Request>, r: Request)
    ensures Play(capacity, rate, created, requests + [r]).0
         == Attempt(Play(capacity, rate, created, requests).0, r.count, r.time).0
  {
    assert (requests + [r])[..|requests|] == requests;
  }

  lemma {:induction false} AlonePlays(
      d: Defaults, base: seq<Op>, tenant: string, capacity: nat, rate: real, created: real, times: seq<real>)
    requires times != []
    requires BucketFor(d, Alone(d, base).0, times[0]) == Bucket(capacity, rate, capacity as real, created)
    ensures Alone(d, base + Tries(tenant, times)).0 == Some(Play(capacity, rate, created, Singles(times)).0)
    ensures Alone(d, base + Tries(tenant, times)).1 == Alone(d, base).1 + Grants(capacity, rate, created, times)
  {
    hide Attempt, BucketFor;
    var front, now := times[..|times| - 1], times[|times| - 1];
    TriesExtend(base, tenant, times);
    AloneExtends(d, base + Tries(tenant, front), TryAllow(tenant, now));
    PlayExtends(capacity, rate, created, Singles(front), Request(now, 1));
    if front == [] {
      assert base + Tries(tenant, front) == base && Grants(capacity, rate, created, front) == [];
      assert Play(capacity, rate, created, Singles(front)).0 == Bucket(capacity, rate, capacity as real, created);
    } else {
      AlonePlays(d, base, tenant, capacity, rate, created, front);
      HeldIsUsed(d, Play(capacity, rate, created, Singles(front)).0, now);
    }
  }

  lemma HeldIsUsed(d: Defaults, b: Bucket, now: real)
    ensures BucketFor(d, Some(b), now) == b
  {
  }

  /** A tenant without a quota gets a bucket with the default quota, created full at its first call. */
  lemma FirstSeenPlaysDefault(d: Defaults, tenant: string, times: seq<real>)
    requires times != []
    ensures Alone(d, Tries(tenant, times)).0 == Some(Play(d.capacity, d.rate, times[0], Singles(times)).0)
    ensures Alone(d, Tries(tenant, times)).1 == Grants(d.capacity, d.rate, times[0], times)
  {
    assert [] + Tries(tenant, times) == Tries(tenant, times);
    AlonePlays(d, [], tenant, d.capacity, d.rate, times[0], times);
  }

  /** A new quota starts a full bucket, whatever came before. */
  lemma QuotaStartsAfresh(d: Defaults, before: seq<Op>, quota: Op, times: seq<real>)
    requires quota.SetQuota? && times != []
    ensures
      var own := before + [quota];
      && Alone(d, own + Tries(quota.tenant, times)).0
         == Some(Play(quota.capacity, quota.rate, quota.now, Singles(times)).0)
      && Alone(d, own + Tries(quota.tenant, times)).1
         == Alone(d, own).1 + Grants(quota.capacity, quota.rate, quota.now, times)
  {
    AloneExtends(d, before, quota);
    AlonePlays(d, before + [quota], quota.tenant, quota.capacity, quota.rate, quota.now, times);
  }

  /** Of calls all at one moment as many are allowed as the quota has capacity. */
  lemma {:induction false} BurstIsCapacity(capacity: nat, rate: real, created: real, times: seq<real>)
    requires forall i :: 0 <= i < |times| ==> times[i] == created
    ensures Play(capacity, rate, created, Singles(times)).0
         == Bucket(capacity, rate, (capacity - Min(|times|, capacity)) as real, created)
    ensures |Grants(capacity, rate, created, times)| == |times|
    ensures forall i :: 0 <= i < |times| ==> Grants(capacity, rate, created, times)[i] == Some(i < capacity)
  {
    if times != [] {
      hide Refill;
      var front, now := times[..|times| - 1], times[|times| - 1];
      BurstIsCapacity(capacity, rate, created, front);
      TriesExtend([], "", times);
      PlayExtends(capacity, rate, created, Singles(front), Request(now, 1));
      NothingRefilled(Play(capacity, rate, created, Singles(front)).0);
    }
  }

  lemma NothingRefilled(b: Bucket)
    ensures Refill(b, b.lastRefill) == 0.0
  {
  }

  class TenantQuotaLimiter {
    var limiters: map<string, TokenBucketLimiter>
    const defaultCapacity: nat
    const defaultRate: real

    ghost predicate Valid()
      reads this, limiters.Values
    {
      && (forall t :: t in limiters ==> limiters[t].Valid())
      && (forall t, u :: t in limiters && u in limiters && t != u ==> limiters[t] != limiters[u])
    }

    ghost function Model(): Buckets
      reads this, limiters.Values
    {
      map t | t in limiters :: limiters[t].State()
    }

    ghost function Default(): Defaults {
      Defaults(defaultCapacity, defaultRate)
    }

    constructor (defaultCapacity: nat, defaultRate: real)
      ensures Valid() && Model() == map[]
      ensures Default() == Defaults(defaultCapacity, defaultRate)
    {
      this.defaultCapacity, this.defaultRate := defaultCapacity, defaultRate;
      limiters := map[];
    }

    method SetTenantQuota(tenant: string, capacity: nat, rate: real, now: real)
      requires Valid()
      modifies this
      ensures Valid() && fresh(limiters.Values - old(limiters.Values))
      ensures Model() == Apply(Default(), old(Model()), SetQuota(tenant, capacity, rate, now)).0
    {
      hide TokenBucketLimiter.Valid, NewBucket;
      var limiter := new TokenBucketLimiter(capacity, rate, now);
      limiters := limiters[tenant := limiter];
    }

    /** A tenant seen for the first time gets a bucket with the default quota. */
    method TryAllow(tenant: string, now: real) returns (allowed: bool)
      requires Valid()
      requires tenant in limiters ==> now >= limiters[tenant].lastRefill
      modifies this, limiters.Values
      ensures Valid() && fresh(limiters.Values - old(limiters.Values))
      ensures (Model(), Some(allowed)) == Apply(Default(), old(Model()), Op.TryAllow(tenant, now))
    {
      hide TokenBucketLimiter.Valid, Attempt, Fits;
      ghost var before := BucketFor(Default(), Lookup(Model(), tenant), now);
      if tenant !in limiters {
        var limiter := new TokenBucketLimiter(defaultCapacity, defaultRate, now);
        limiters := limiters[tenant := limiter];
      }
      assert limiters[tenant].State() == before;
      allowed := limiters[tenant].TryAcquire(1, now);
      assert (limiters[tenant].State(), allowed) == Attempt(before, 1, now);
      assert Model() == old(Model())[tenant := limiters[tenant].State()];
    }
  }
}
