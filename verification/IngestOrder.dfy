/** What runs keep when records are committed in log order: sendable ones among themselves, or all of them. */
module IngestOrder {
  import opened Wrappers
  import opened Events
  import opened IngestModel
  import opened IngestSession
  import opened IngestSoundness

  /** The record delivered last out of the current batch. */
  ghost function Cursor(env: Env, s: State): nat
    requires InSession(env, s) && Handed(env, s) > 0
  {
    Batch(env, s)[Handed(env, s) - 1]
  }

  /** The checkpoint stands right after the last sendable record this session delivered and saved. */
  ghost predicate CheckpointAtCursor(env: Env, s: State)
    requires InSession(env, s)
  {
    && (s.checkpoint == s.start || (Passed(env, s, s.checkpoint - 1) && Sendable(env, s.checkpoint - 1)))
    && (s.unsaved.Some? ==> s.checkpoint <= Cursor(env, s))
    && (forall i: nat :: Passed(env, s, i) && Sendable(env, i) && s.checkpoint <= i ==>
          s.unsaved.Some? && i == Cursor(env, s))
  }

  /** A record sent beyond the checkpoint is the first sendable record there. */
  ghost predicate SentAheadIsNext(env: Env, s: State) {
    forall x: nat, b: nat :: Sent(env, s, x) && Sendable(env, b) ==> !(s.checkpoint <= b < x)
  }

  ghost predicate SentAhead(env: Env, s: State) {
    exists x: nat :: Sent(env, s, x) && s.checkpoint <= x
  }

  ghost function DistinctEvents(sent: seq<ChangeEvent>): set<ChangeEvent> {
    set x | x in sent
  }

  /** One repetition for every crash, and one to come when a crash has hidden a send. */
  ghost predicate RepeatsBounded(env: Env, s: State) {
    |s.sent| + (if s.unsaved.None? && SentAhead(env, s) then 1 else 0) <= |DistinctEvents(s.sent)| + s.crashes
  }

  ghost predicate Ordered(env: Env, s: State) {
    && Sound(env, s)
    && CheckpointAtCursor(env, s)
    && SentAheadIsNext(env, s)
    && RepeatsBounded(env, s)
  }

  /** What is committed no later than a record of the batch and precedes it in the log has been delivered. */
  lemma EarlierDelivered(env: Env, s: State, n: nat, a: nat)
    requires InSession(env, s)
    requires n <= Handed(env, s) && n < |Batch(env, s)|
    requires s.start <= a < Batch(env, s)[n] && Sendable(env, Batch(env, s)[n])
    requires Committed(env, a) && Valid(env, a)
    requires CommitPoint(env.log, a).value <= CommitPoint(env.log, Batch(env, s)[n]).value
    ensures Passed(env, s, a)
  {
    hide InSession, Sendable, Batch, CommitPoint;
    var batch := Batch(env, s);
    BatchRecord(env, s, n);
    BatchExactly(env, s);
    OutboxFits(env, s);
    CommitPointAfter(env, a);
    assert forall m :: 0 <= m < |batch[Handed(env, s)..]| ==> batch[Handed(env, s)..][m] == batch[Handed(env, s) + m];
    assert CommitPoint(env.log, a).value <= s.pos - 1;
  }

  lemma AscendingSplit(r: seq<nat>, h: nat, x: nat)
    requires h < |r| && x in r && x !in r[h..]
    requires forall m, n :: 0 <= m < n < |r| ==> r[m] < r[n]
    ensures x < r[h]
  {
    forall n | h <= n < |r|
      ensures r[n] in r[h..]
    {
      assert r[h..][n - h] == r[n];
    }
  }

  /** Within the current batch what has been delivered precedes what has not. */
  lemma DeliveredFirst(env: Env, s: State, x: nat)
    requires InSession(env, s) && s.outbox != [] && Passed(env, s, x)
    requires CommitPoint(env.log, x) == Some(s.pos - 1)
    ensures x < Batch(env, s)[Handed(env, s)]
  {
    hide InSession, Batch, CommitPoint;
    OutboxFits(env, s);
    BatchExactly(env, s);
    CommitPointAfter(env, x);
    AscendingSplit(Batch(env, s), Handed(env, s), x);
  }

  /** The next sendable record to deliver lies at or beyond the checkpoint. */
  lemma NextIsAhead(env: Env, s: State)
    requires SendablesInLogOrder(env) && InSession(env, s) && CheckpointAtCursor(env, s)
    requires s.outbox != [] && Sendable(env, Batch(env, s)[Handed(env, s)])
    ensures s.checkpoint <= Batch(env, s)[Handed(env, s)]
  {
    hide InSession, CommitPoint, Batch, Valid;
    OutboxFits(env, s);
    var b := Batch(env, s)[Handed(env, s)];
    BatchRecord(env, s, Handed(env, s));
    if s.start < s.checkpoint {
      var x := s.checkpoint - 1;
      assert b < x ==> CommitPoint(env.log, b).value <= CommitPoint(env.log, x).value;
      if CommitPoint(env.log, x).value == s.pos - 1 {
        DeliveredFirst(env, s, x);
      }
    }
  }

  lemma PullOrdered(env: Env, s: State)
    requires WellFormed(env) && SendablesInLogOrder(env) && Ordered(env, s)
    requires s.outbox == [] && s.unsaved.None? && s.pos < |env.log|
    ensures Ordered(env, Next(env, s, Pull(true)))
    ensures Next(env, s, Pull(true)).checkpoint == s.checkpoint
  {
    hide SessionHistory, CommitPoint, Next, WellFormed, SendablesInLogOrder, Committed, Valid;
    hide Settled, OnlySendable, At, Ids;
    PullSound(env, s);
    PullKeepsSession(env, s);
    var t := Next(env, s, Pull(true));
    forall i | Passed(env, t, i)
      ensures Passed(env, s, i)
    {
      PullPasses(env, s, i);
    }
    assert forall x :: Sent(env, t, x) == Sent(env, s, x);
  }

  lemma CrashOrdered(env: Env, s: State)
    requires WellFormed(env) && Ordered(env, s)
    ensures Ordered(env, Next(env, s, Crash))
    ensures Next(env, s, Crash).checkpoint == s.checkpoint
  {
    hide Sendable, CommitPoint, Next, Settled, OnlySendable, WellFormed;
    CrashSound(env, s);
    CrashKeepsSession(env, s);
    var t := Next(env, s, Crash);
    forall i | Passed(env, t, i)
      ensures false
    {
      CommitPointAfter(env, i);
    }
    assert forall x :: Sent(env, t, x) == Sent(env, s, x);
  }

  // Delivering.

  lemma SentAfterDeliver(env: Env, s: State, x: nat)
    requires WellFormed(env) && InSession(env, s) && s.outbox != [] && s.unsaved.None?
    ensures
      var b := Batch(env, s)[Handed(env, s)];
      Sent(env, Next(env, s, Deliver), x) <==> Sent(env, s, x) || (x == b && Sendable(env, b))
  {
    DeliverKeepsSession(env, s);
    var b := Batch(env, s)[Handed(env, s)];
    if Sendable(env, b) && x < |env.log| && env.transform(env.log[x]) == env.transform(env.log[b]) {
      SameOffsetSameRecord(env, x, b);
    }
  }

  lemma CheckpointAhead(env: Env, s: State)
    requires InSession(env, s)
    ensures s.start <= s.checkpoint
  {
    hide SessionHistory, Batch, At, Ids, Sendable;
  }

  /** Before a sendable record is delivered, no other sendable record lies between it and the checkpoint. */
  lemma NoneBetween(env: Env, s: State, y: nat)
    requires SendablesInLogOrder(env) && InSession(env, s) && CheckpointAtCursor(env, s)
    requires s.outbox != [] && s.unsaved.None? && Sendable(env, Batch(env, s)[Handed(env, s)])
    requires Sendable(env, y)
    ensures !(s.checkpoint <= y < Batch(env, s)[Handed(env, s)])
  {
    hide InSession, CommitPoint, Batch, Valid;
    OutboxFits(env, s);
    CheckpointAhead(env, s);
    if s.checkpoint <= y < Batch(env, s)[Handed(env, s)] {
      EarlierDelivered(env, s, Handed(env, s), y);
    }
  }

  lemma DeliverAtCursor(env: Env, s: State)
    requires WellFormed(env) && SendablesInLogOrder(env) && s.outbox != [] && s.unsaved.None?
    requires InSession(env, s) && CheckpointAtCursor(env, s)
    ensures InSession(env, Next(env, s, Deliver)) && CheckpointAtCursor(env, Next(env, s, Deliver))
  {
    hide SessionHistory, CommitPoint, WellFormed, Passed;
    DeliverKeepsSession(env, s);
    var t := Next(env, s, Deliver);
    var b := Batch(env, s)[Handed(env, s)];
    assert Cursor(env, t) == b;
    if Sendable(env, b) {
      NextIsAhead(env, s);
    }
    forall i: nat
      ensures Passed(env, t, i) <==> Passed(env, s, i) || i == b
    {
      DeliverPasses(env, s, i);
    }
  }

  lemma DeliverIsNext(env: Env, s: State)
    requires WellFormed(env) && SendablesInLogOrder(env) && Ordered(env, s) && s.outbox != [] && s.unsaved.None?
    ensures SentAheadIsNext(env, Next(env, s, Deliver))
  {
    hide InSession, CommitPoint, Valid, Batch, Next, Sent, Settled, OnlySendable, WellFormed;
    DeliverKeepsSession(env, s);
    var t := Next(env, s, Deliver);
    forall x: nat, y: nat | Sent(env, t, x) && Sendable(env, y)
      ensures !(t.checkpoint <= y < x)
    {
      SentAfterDeliver(env, s, x);
      if !Sent(env, s, x) {
        NoneBetween(env, s, y);
      }
    }
  }

  lemma SentIsSendable(env: Env, s: State, x: nat)
    requires WellFormed(env) && OnlySendable(env, s) && Sent(env, s, x)
    ensures Sendable(env, x)
  {
    var v := env.transform(env.log[x]).value;
    var j: nat :| j < |env.log| && Sendable(env, j) && env.transform(env.log[j]) == Some(v);
    SameOffsetSameRecord(env, x, j);
  }

  lemma DistinctGrows(sent: seq<ChangeEvent>, x: ChangeEvent)
    ensures |DistinctEvents(sent + [x])| == |DistinctEvents(sent)| + if x in sent then 0 else 1
  {
    assert DistinctEvents(sent + [x]) == DistinctEvents(sent) + {x};
  }

  /** A sendable record about to be delivered was sent before, or nothing beyond the checkpoint was. */
  lemma RepeatOrNothingAhead(env: Env, s: State, x: nat)
    requires WellFormed(env) && SendablesInLogOrder(env) && s.outbox != [] && s.unsaved.None?
    requires InSession(env, s) && CheckpointAtCursor(env, s) && OnlySendable(env, s) && SentAheadIsNext(env, s)
    requires Sendable(env, Batch(env, s)[Handed(env, s)])
    requires Sent(env, s, x) && s.checkpoint <= x
    ensures x == Batch(env, s)[Handed(env, s)]
  {
    SentIsSendable(env, s, x);
    NoneBetween(env, s, x);
    NextIsAhead(env, s);
  }

  lemma DeliverRepeats(env: Env, s: State)
    requires WellFormed(env) && SendablesInLogOrder(env) && s.outbox != [] && s.unsaved.None?
    requires InSession(env, s) && CheckpointAtCursor(env, s) && OnlySendable(env, s) && SentAheadIsNext(env, s)
    requires RepeatsBounded(env, s)
    ensures RepeatsBounded(env, Next(env, s, Deliver))
  {
    DeliverKeepsSession(env, s);
    var t := Next(env, s, Deliver);
    var b := Batch(env, s)[Handed(env, s)];
    if Sendable(env, b) {
      NextIsAhead(env, s);
      var v := env.transform(env.log[b]).value;
      DistinctGrows(s.sent, v);
      if SentAhead(env, s) {
        var x: nat :| Sent(env, s, x) && s.checkpoint <= x;
        RepeatOrNothingAhead(env, s, x);
      }
      assert v in s.sent ==> Sent(env, s, b);
    } else {
      assert forall x :: Sent(env, t, x) == Sent(env, s, x);
    }
  }

  lemma DeliverOrdered(env: Env, s: State)
    requires WellFormed(env) && SendablesInLogOrder(env) && Ordered(env, s) && s.outbox != [] && s.unsaved.None?
    ensures Ordered(env, Next(env, s, Deliver))
    ensures Next(env, s, Deliver).checkpoint == s.checkpoint
  {
    DeliverSound(env, s);
    DeliverKeepsSession(env, s);
    DeliverAtCursor(env, s);
    DeliverIsNext(env, s);
    DeliverRepeats(env, s);
  }

  // Saving.

  lemma CursorPassed(env: Env, s: State)
    requires InSession(env, s) && s.unsaved.Some?
    ensures
      var b := Cursor(env, s);
      Handed(env, s) > 0 && Sendable(env, b) && Passed(env, s, b) && s.start <= b < s.pos
  {
    hide SessionHistory, At, Ids, Batch, CommitPoint;
    var b := Cursor(env, s);
    BatchRecord(env, s, Handed(env, s) - 1);
    BatchExactly(env, s);
    HeadOfRest(Batch(env, s), Handed(env, s) - 1, b);
  }

  lemma EarlierThanCursor(env: Env, s: State, a: nat)
    requires CommitsInLogOrder(env) && InSession(env, s) && s.unsaved.Some?
    requires s.start <= a < Cursor(env, s) && Committed(env, a) && Valid(env, a)
    ensures Passed(env, s, a)
  {
    hide InSession, Batch, CommitPoint, Valid;
    CursorPassed(env, s);
    OutboxFits(env, s);
    EarlierDelivered(env, s, Handed(env, s) - 1, a);
  }

  lemma SaveSafe(env: Env, s: State, i: nat)
    requires WellFormed(env) && CommitsInLogOrder(env) && s.unsaved.Some?
    requires InSession(env, s) && Settled(env, s) && CheckpointSafe(env, s)
    requires i <= Cursor(env, s) && Committed(env, i)
    ensures Done(env, s, i)
  {
    hide Batch, CommitPoint, Valid, Sendable, SessionHistory, At, Ids;
    CursorPassed(env, s);
    if i < s.start {
      assert i < s.checkpoint;
    } else if !Valid(env, i) {
      assert env.log[i] in s.dead;
    } else {
      if i < Cursor(env, s) {
        EarlierThanCursor(env, s, i);
      }
      assert Passed(env, s, i);
    }
  }

  lemma SaveAtCursor(env: Env, s: State)
    requires WellFormed(env) && s.unsaved.Some?
    requires InSession(env, s) && CheckpointAtCursor(env, s)
    ensures InSession(env, Next(env, s, Save)) && CheckpointAtCursor(env, Next(env, s, Save))
    ensures Next(env, s, Save).checkpoint == Cursor(env, s) + 1
  {
    hide SessionHistory, Ids, WellFormed, CommitPoint, Valid, Next, Passed, Sendable, Batch;
    SaveKeepsSession(env, s);
    CursorPassed(env, s);
  }

  lemma SaveRepeats(env: Env, s: State)
    requires WellFormed(env) && s.unsaved.Some?
    requires InSession(env, s) && CheckpointAtCursor(env, s) && SentAheadIsNext(env, s) && RepeatsBounded(env, s)
    ensures SentAheadIsNext(env, Next(env, s, Save)) && RepeatsBounded(env, Next(env, s, Save))
  {
    hide InSession, CommitPoint, Valid, Batch, Next, CheckpointAtCursor, WellFormed;
    SaveKeepsSession(env, s);
    SaveAtCursor(env, s);
    CursorPassed(env, s);
    CheckpointBeforeCursor(env, s);
    var t := Next(env, s, Save);
    forall x: nat
      ensures Sent(env, t, x) == Sent(env, s, x)
      ensures !(Sent(env, s, x) && Cursor(env, s) < x)
    {
    }
  }

  lemma CheckpointBeforeCursor(env: Env, s: State)
    requires InSession(env, s) && s.unsaved.Some? && CheckpointAtCursor(env, s)
    ensures s.checkpoint <= Cursor(env, s)
  {
    hide InSession, Batch, Passed, Sendable;
  }

  lemma SaveOrdered(env: Env, s: State)
    requires WellFormed(env) && SendablesInLogOrder(env) && Ordered(env, s) && s.unsaved.Some?
    ensures Ordered(env, Next(env, s, Save))
    ensures s.checkpoint < Next(env, s, Save).checkpoint
  {
    SaveSound(env, s);
    SaveAtCursor(env, s);
    SaveRepeats(env, s);
  }

  lemma NextOrdered(env: Env, s: State, step: Step)
    requires WellFormed(env) && SendablesInLogOrder(env) && Ordered(env, s) && step != Pull(false)
    ensures Ordered(env, Next(env, s, step))
    ensures s.checkpoint <= Next(env, s, step).checkpoint
  {
    match step {
      case Pull(_) =>
        if s.outbox == [] && s.unsaved.None? && s.pos < |env.log| {
          PullOrdered(env, s);
        }
      case Deliver =>
        if s.outbox != [] && s.unsaved.None? {
          DeliverOrdered(env, s);
        }
      case Save =>
        if s.unsaved.Some? {
          SaveOrdered(env, s);
        }
      case Crash =>
        CrashOrdered(env, s);
    }
  }

  lemma {:induction false} RunsOrdered(env: Env, steps: seq<Step>)
    requires WellFormed(env) && SendablesInLogOrder(env) && AlwaysLeader(steps)
    ensures Ordered(env, Exec(env, INITIAL, steps))
  {
    if steps == [] {
      InitialSound(env);
      assert DistinctEvents(INITIAL.sent) == {};
      assert forall i: nat :: Passed(env, INITIAL, i) ==> Committed(env, i);
      forall i: nat | Passed(env, INITIAL, i)
        ensures false
      {
        CommitPointAfter(env, i);
      }
    } else {
      LeaderPrefix(steps);
      RunsOrdered(env, steps[..|steps| - 1]);
      NextOrdered(env, Exec(env, INITIAL, steps[..|steps| - 1]), steps[|steps| - 1]);
    }
  }

  lemma DoneStays(env: Env, s: State, step: Step, i: nat)
    ensures Done(env, s, i) ==> Done(env, Next(env, s, step), i)
  {
  }

  lemma NextSafe(env: Env, s: State, step: Step)
    requires WellFormed(env) && CommitsInLogOrder(env)
    requires Sound(env, s) && CheckpointSafe(env, s)
    ensures CheckpointSafe(env, Next(env, s, step))
  {
    hide WellFormed, CommitsInLogOrder, CommitPoint, Settled, Next, Done;
    var t := Next(env, s, step);
    if step == Save && s.unsaved.Some? {
      SaveKeepsSession(env, s);
    } else {
      CheckpointStays(env, s, step);
    }
    forall i: nat | i < t.checkpoint && Committed(env, i)
      ensures Done(env, t, i)
    {
      DoneStays(env, s, step, i);
      if i >= s.checkpoint {
        SaveSafe(env, s, i);
      }
    }
  }

  lemma CheckpointStays(env: Env, s: State, step: Step)
    requires step != Save || s.unsaved.None?
    ensures Next(env, s, step).checkpoint == s.checkpoint
  {
  }

  lemma {:induction false} RunsSafe(env: Env, steps: seq<Step>)
    requires WellFormed(env) && CommitsInLogOrder(env) && AlwaysLeader(steps)
    ensures CheckpointSafe(env, Exec(env, INITIAL, steps))
  {
    hide WellFormed, CommitsInLogOrder, Sound, Next, Committed, Done;
    if steps != [] {
      LeaderPrefix(steps);
      var front := steps[..|steps| - 1];
      RunsSound(env, front);
      RunsSafe(env, front);
      NextSafe(env, Exec(env, INITIAL, front), steps[|steps| - 1]);
    }
  }
}
