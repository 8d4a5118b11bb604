/** When a rolled-back mutation can reach the sinks: atomicity over runs with any leadership and any crashes. */
module IngestAtomicity {
  import opened Wrappers
  import opened Events
  import opened Decimal
  import opened TransactionBuffers
  import opened PostgresSource
  import opened IngestModel
  import opened IngestSession
  import opened IngestSoundness
  import opened IngestTheorems
  import opened IngestLeadership

  /** In no run, led or not, is anything sent that the log does not commit. */
  ghost predicate Atomic(env: Env) {
    forall steps, i :: Sent(env, Exec(env, INITIAL, steps), i) ==> Committed(env, i)
  }

  predicate CommitsTx(e: ChangeEvent, tx: string) {
    ClosesInLog(e, tx) && e.operation == Commit
  }

  /** A later record of the log commits the transaction of record `i`, if not as its next close. */
  predicate CommittedLater(log: seq<ChangeEvent>, i: nat)
    requires i < |log|
  {
    && log[i].transactionId.Some? && !log[i].IsControl()
    && exists p :: i < p < |log| && CommitsTx(log[p], log[i].transactionId.value)
  }

  /** No record that could be sent is rolled back while a later commit of the same transaction follows. */
  predicate NoCommitAfterRollback(env: Env) {
    forall i ::
      (&& 0 <= i < |env.log| && Enters(env, i) && env.transform(env.log[i]).Some?
       && CommittedLater(env.log, i))
      ==> Committed(env, i)
  }

  // What any run keeps.

  /** The buffer can release record `i` at some point of some run. */
  predicate Releasable(env: Env, i: nat) {
    && i < |env.log| && Enters(env, i)
    && (env.log[i].transactionId.None? || CommittedLater(env.log, i))
  }

  ghost predicate HistoryPulled(env: Env, h: History, pos: nat) {
    forall x :: x in h ==> exists i: nat :: i < pos && i < |env.log| && Enters(env, i) && x == Feed(env.log[i])
  }

  ghost predicate AllReleasable(env: Env, es: seq<ChangeEvent>) {
    forall x :: x in es ==> exists i: nat :: Releasable(env, i) && env.log[i] == x
  }

  ghost predicate SentReleasable(env: Env, sent: seq<ChangeEvent>) {
    forall x :: x in sent ==> exists i: nat :: Releasable(env, i) && env.transform(env.log[i]) == Some(x)
  }

  ghost predicate AnyRun(env: Env, s: State) {
    HistoryPulled(env, s.history, s.pos) && AllReleasable(env, s.outbox) && SentReleasable(env, s.sent)
  }

  /** Whatever the buffer releases on record `p` belongs to no transaction or is committed by `p`. */
  lemma EmittedReleasable(env: Env, h: History, p: nat)
    requires p < |env.log| && Enters(env, p) && HistoryPulled(env, h, p)
    ensures AllReleasable(env, Emitted(h, env.log[p]))
  {
    hide Pending, Valid;
    var e := env.log[p];
    forall x | x in Emitted(h, e)
      ensures exists i: nat :: Releasable(env, i) && env.log[i] == x
    {
      if e.transactionId.None? {
        assert Releasable(env, p);
      } else {
        var tx := e.transactionId.value;
        PendingFed(h, tx, x);
        var i: nat :| i < p && i < |env.log| && Enters(env, i) && Feed(x) == Feed(env.log[i]);
        assert CommitsTx(env.log[p], tx);
        assert Releasable(env, i);
      }
    }
  }

  lemma HistoryGrows(env: Env, h: History, p: nat)
    requires p < |env.log| && HistoryPulled(env, h, p)
    ensures HistoryPulled(env, h, p + 1)
    ensures Enters(env, p) ==> HistoryPulled(env, h + [Feed(env.log[p])], p + 1)
  {
    hide Enters;
    assert Feed(env.log[p]) == Feed(env.log[p]);
  }

  lemma PullAnyRun(env: Env, s: State, leader: bool)
    requires AnyRun(env, s)
    ensures AnyRun(env, Next(env, s, Pull(leader)))
  {
    if s.outbox == [] && s.unsaved.None? && s.pos < |env.log| {
      hide HistoryPulled, AllReleasable, SentReleasable, Emitted;
      HistoryGrows(env, s.history, s.pos);
      assert AllReleasable(env, []) by { NothingReleasable(env); }
      if Enters(env, s.pos) {
        EmittedReleasable(env, s.history, s.pos);
      }
    }
  }

  lemma NothingReleasable(env: Env)
    ensures HistoryPulled(env, [], 0) && AllReleasable(env, []) && SentReleasable(env, [])
    ensures forall pos :: HistoryPulled(env, [], pos)
  {
  }

  lemma DeliverAnyRun(env: Env, s: State)
    requires AnyRun(env, s)
    ensures AnyRun(env, Next(env, s, Deliver))
  {
    hide HistoryPulled, Enters, CommittedLater;
    if s.outbox != [] && s.unsaved.None? {
      assert s.outbox[0] in s.outbox;
      var i: nat :| Releasable(env, i) && env.log[i] == s.outbox[0];
      assert forall x :: x in s.outbox[1..] ==> x in s.outbox;
    }
  }

  lemma StepAnyRun(env: Env, s: State, step: Step)
    requires AnyRun(env, s)
    ensures AnyRun(env, Next(env, s, step))
  {
    match step {
      case Pull(leader) => PullAnyRun(env, s, leader);
      case Deliver => DeliverAnyRun(env, s);
      case Save =>
      case Crash => NothingReleasable(env);
    }
  }

  lemma {:induction false} RunsReleasable(env: Env, steps: seq<Step>)
    ensures AnyRun(env, Exec(env, INITIAL, steps))
  {
    hide Next, AnyRun;
    if steps == [] {
      InitialReleasable(env);
    } else {
      RunsReleasable(env, steps[..|steps| - 1]);
      StepAnyRun(env, Exec(env, INITIAL, steps[..|steps| - 1]), steps[|steps| - 1]);
    }
  }

  lemma InitialReleasable(env: Env)
    ensures AnyRun(env, INITIAL)
  {
    NothingReleasable(env);
  }

  /** In any run at all, what is sent is some record of no transaction or of one that the log commits later. */
  lemma SentIsReleasable(env: Env, steps: seq<Step>, i: nat)
    requires WellFormed(env) && Sent(env, Exec(env, INITIAL, steps), i)
    ensures Releasable(env, i)
  {
    hide Enters, CommittedLater, WellFormed;
    RunsReleasable(env, steps);
    var x := env.transform(env.log[i]).value;
    var j: nat :| Releasable(env, j) && env.transform(env.log[j]) == Some(x);
    SameOffsetSameRecord(env, i, j);
  }

  // A session that misses the rollback.

  lemma {:induction false} FirstLedClose(log: seq<ChangeEvent>, leads: nat -> bool, tx: string, from: nat, p: nat)
    requires from <= p < |log| && leads(p) && ClosesInLog(log[p], tx)
    requires forall q :: from <= q < p ==> !leads(q)
    ensures LedClose(log, leads, tx, from) == Some(p)
    decreases p - from
  {
    if from < p {
      FirstLedClose(log, leads, tx, from + 1, p);
    }
  }

  /** Leading only at a mutation and at a later commit of its transaction sends the mutation. */
  lemma MissedRollbackSends(env: Env, i: nat, p: nat) returns (steps: seq<Step>)
    requires WellFormed(env) && i < p < |env.log| && Enters(env, i) && env.transform(env.log[i]).Some?
    requires env.log[i].transactionId.Some? && !env.log[i].IsControl()
    requires CommitsTx(env.log[p], env.log[i].transactionId.value)
    ensures Follows(env, steps, q => q == i || q == p)
    ensures Sent(env, Exec(env, INITIAL, steps), i)
  {
    hide Exec, WellFormed, Follows, Sent;
    var leads: nat -> bool := q => q == i || q == p;
    FirstLedClose(env.log, leads, env.log[i].transactionId.value, i + 1, p);
    steps := SessionTo(env, leads, |env.log|);
    SentExactlyWhenLed(env, leads, steps, i);
  }

  /**
   * Atomicity under any leadership: over all runs, with any crashes and any gaps, nothing uncommitted is ever sent
   * if and only if no mutation that could be sent is rolled back and its transaction committed later in the log.
   */
  lemma AtomicExactly(env: Env)
    requires WellFormed(env)
    ensures Atomic(env) <==> NoCommitAfterRollback(env)
  {
    hide WellFormed, Exec, Sent, CommitPoint, Valid;
    if NoCommitAfterRollback(env) {
      forall steps, i: nat | Sent(env, Exec(env, INITIAL, steps), i)
        ensures Committed(env, i)
      {
        SentIsReleasable(env, steps, i);
        SentAccepted(env, Exec(env, INITIAL, steps), i);
        if env.log[i].transactionId.None? {
          LoneCommitted(env, i);
        }
      }
    } else {
      var i :| 0 <= i < |env.log| && Enters(env, i) && env.transform(env.log[i]).Some?
               && CommittedLater(env.log, i) && !Committed(env, i);
      var p :| i < p < |env.log| && CommitsTx(env.log[p], env.log[i].transactionId.value);
      var steps := MissedRollbackSends(env, i, p);
    }
  }

  lemma SentAccepted(env: Env, s: State, i: nat)
    requires Sent(env, s, i)
    ensures i < |env.log| && env.transform(env.log[i]).Some?
  {
  }

  lemma LoneCommitted(env: Env, i: nat)
    requires i < |env.log| && Enters(env, i) && env.log[i].transactionId.None?
    ensures Committed(env, i)
  {
  }

  /** The engine's own source never rolls back, so that fed by it no gap in leadership breaks atomicity. */
  lemma SourceIsAtomic(env: Env, clock: seq<int>)
    requires env.log == Unfold(0, clock) && |clock| < U64_LIMIT
    requires forall e :: env.transform(e).Some? ==> env.transform(e).value.offset == e.offset
    ensures Atomic(env)
  {
    hide Unfold, Atomic, WellFormed;
    SourceLogWellFormed(env, clock);
    forall i: nat | i < |env.log| && Enters(env, i) && CommittedLater(env.log, i)
      ensures Committed(env, i)
    {
      UnfoldAt(0, clock);
      var tx := env.log[i].transactionId.value;
      var p :| i < p < |env.log| && CommitsTx(env.log[p], tx);
      var close := NextClose(env.log, tx, i + 1);
      assert close.Some?;
      BlocksOfFour(clock, close.value, close.value);
    }
    AtomicExactly(env);
  }

  /** A transaction rolled back and then committed. */
  const REUSED := [
    Mutation(1, "a"),
    Mutation(2, "a").(operation := Rollback),
    Mutation(3, "a").(operation := Commit)]

  /** Missing that rollback sends the mutation it rolled back. */
  lemma MissedRollback(env: Env) returns (steps: seq<Step>)
    requires env == Env(REUSED, None, e => Some(e))
    ensures WellFormed(env) && !Committed(env, 0)
    ensures Follows(env, steps, q => q == 0 || q == 2) && Sent(env, Exec(env, INITIAL, steps), 0)
    ensures !Atomic(env)
  {
    hide Exec, Follows, Sent;
    ReusedNumbered();
    ReusedCommits();
    steps := MissedRollbackSends(env, 0, 2);
  }

  lemma ReusedNumbered()
    ensures forall i :: 0 <= i < 3 ==> REUSED[i].id == REUSED[i].offset == ToText(i + 1)
    ensures DistinctIds(REUSED)
  {
    hide ToText;
    forall i: nat, j: nat | i < j < 3
      ensures REUSED[i].id != REUSED[j].id
    {
      if ToText(i + 1) == ToText(j + 1) {
        ToTextInjective(i + 1, j + 1);
      }
    }
  }

  lemma ReusedCommits()
    ensures forall i :: 0 <= i < 3 ==> !IsWatermark(REUSED[i])
    ensures CommitPoint(REUSED, 0) == None
  {
    assert forall i :: 0 <= i < 3 ==> REUSED[i].table[0] == 'u';
    assert NextClose(REUSED, "a", 1) == Some(1);
  }
}
