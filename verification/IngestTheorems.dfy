/** The delivery theorems of the ingest loop over whole runs with crashes. */
module IngestTheorems {
  import opened Wrappers
  import opened Events
  import opened Decimal
  import opened PostgresSource
  import opened IngestModel
  import opened IngestSession
  import opened IngestSoundness
  import opened IngestOrder

  lemma FinishedDone(env: Env, s: State, i: nat)
    requires WellFormed(env) && Sound(env, s) && Finished(env, s)
    requires s.start <= i && Committed(env, i)
    ensures Done(env, s, i)
  {
    CommitPointAfter(env, i);
    if Valid(env, i) {
      assert Batch(env, s)[Handed(env, s)..] == [];
      assert Passed(env, s, i);
    }
  }

  lemma FinishedAllDone(env: Env, s: State, i: nat)
    requires WellFormed(env) && Sound(env, s) && CheckpointSafe(env, s) && Finished(env, s)
    requires Committed(env, i)
    ensures Done(env, s, i)
  {
    if s.start <= i {
      FinishedDone(env, s, i);
    }
  }

  // Building runs of a first session, one record at a time.

  /** No crash so far, and no valid committed record was handled before its commit point was reached. */
  ghost predicate FirstSession(env: Env, s: State) {
    && Sound(env, s) && s.start == 0
    && forall i: nat :: Committed(env, i) && Valid(env, i) && Done(env, s, i) ==> CommitPoint(env.log, i).value < s.pos
  }

  lemma SameRecord(env: Env, i: nat, j: nat)
    requires WellFormed(env) && i < |env.log| && j < |env.log| && env.log[i] == env.log[j]
    ensures i == j
  {
  }

  lemma PullFirst(env: Env, s: State)
    requires WellFormed(env) && FirstSession(env, s)
    requires s.outbox == [] && s.unsaved.None? && s.pos < |env.log|
    ensures
      var t := Next(env, s, Pull(true));
      FirstSession(env, t) && t.pos == s.pos + 1 && t.unsaved.None? && Handed(env, t) == 0
  {
    hide Next, InSession, Settled, OnlySendable, CommitPoint, Batch;
    PullSound(env, s);
    PullKeepsSession(env, s);
    var t := Next(env, s, Pull(true));
    forall i: nat | Committed(env, i) && Valid(env, i) && Done(env, t, i)
      ensures CommitPoint(env.log, i).value < t.pos
    {
      if !Done(env, s, i) {
        SameRecord(env, i, s.pos);
      }
    }
  }

  lemma DeliverFirst(env: Env, s: State)
    requires WellFormed(env) && FirstSession(env, s) && s.outbox != [] && s.unsaved.None?
    ensures FirstSession(env, Next(env, s, Deliver))
  {
    hide Next, InSession, Settled, OnlySendable, CommitPoint, Batch;
    DeliverSound(env, s);
    DeliverKeepsSession(env, s);
    var t := Next(env, s, Deliver);
    var b := Batch(env, s)[Handed(env, s)];
    forall i: nat | Committed(env, i) && Valid(env, i) && Done(env, t, i)
      ensures CommitPoint(env.log, i).value < t.pos
    {
      if !Done(env, s, i) {
        SentAfterDeliver(env, s, i);
        if i != b {
          SameRecord(env, i, b);
        }
      }
    }
  }

  lemma SaveFirst(env: Env, s: State)
    requires WellFormed(env) && FirstSession(env, s) && s.unsaved.Some?
    ensures FirstSession(env, Next(env, s, Save))
  {
    hide InSession, Settled, OnlySendable, CommitPoint, Batch, StartSequence;
    SaveSound(env, s);
    var t := Next(env, s, Save);
    forall i: nat
      ensures Done(env, t, i) == Done(env, s, i)
    {
    }
  }

  lemma ExecOne(env: Env, s: State, step: Step)
    ensures Exec(env, s, [step]) == Next(env, s, step)
  {
    hide Next;
    assert [step][..0] == [];
  }

  lemma ExecTwo(env: Env, s: State, first: Step, second: Step)
    ensures Exec(env, s, [first, second]) == Next(env, Next(env, s, first), second)
  {
    hide Next;
    ExecOne(env, s, first);
    assert [first, second][..1] == [first];
  }

  /** Delivers one record of the batch and saves its offset if it was sent. */
  lemma DeliverOne(env: Env, s: State)
    requires WellFormed(env) && FirstSession(env, s) && s.outbox != [] && s.unsaved.None?
    ensures
      var t := Exec(env, s, [Deliver, Save]);
      var b := Batch(env, s)[Handed(env, s)];
      && FirstSession(env, t) && t.pos == s.pos && t.unsaved.None?
      && Batch(env, t) == Batch(env, s) && Handed(env, t) == Handed(env, s) + 1
      && (Sendable(env, b) ==> t.checkpoint == b + 1)
  {
    ExecTwo(env, s, Deliver, Save);
    DeliverFirst(env, s);
    DeliverKeepsSession(env, s);
    var u := Next(env, s, Deliver);
    assert u.unsaved.None? ==> Next(env, u, Save) == u;
    hide Settled, OnlySendable, Committed, CommitPoint, Batch, Sendable, StartSequence, Next, Done, WellFormed;
    if u.unsaved.Some? {
      SaveFirst(env, u);
      SaveKeepsSession(env, u);
    }
  }

  /** Delivers records of the batch until `n` of them have been. */
  lemma {:induction false} DeliverUpTo(env: Env, s: State, n: nat) returns (steps: seq<Step>)
    requires WellFormed(env) && FirstSession(env, s) && s.unsaved.None?
    requires Handed(env, s) <= n <= |Batch(env, s)|
    ensures AlwaysLeader(steps) && (n == Handed(env, s) ==> steps == [])
    ensures
      var t := Exec(env, s, steps);
      && FirstSession(env, t) && t.pos == s.pos && t.unsaved.None?
      && Batch(env, t) == Batch(env, s) && Handed(env, t) == n
      && (n > Handed(env, s) && Sendable(env, Batch(env, s)[n - 1]) ==> t.checkpoint == Batch(env, s)[n - 1] + 1)
    decreases n - Handed(env, s)
  {
    hide InSession, Settled, OnlySendable, CommitPoint, Batch, Sendable, Next;
    if n == Handed(env, s) {
      steps := [];
    } else {
      DeliverOne(env, s);
      var u := Exec(env, s, [Deliver, Save]);
      var rest := DeliverUpTo(env, u, n);
      steps := [Deliver, Save] + rest;
      ExecConcat(env, s, [Deliver, Save], rest);
    }
  }

  lemma InitialFirst(env: Env)
    ensures FirstSession(env, INITIAL)
  {
    InitialSound(env);
  }

  /** From within a first session any later position is reached with everything released so far delivered. */
  lemma {:induction false} Reach(env: Env, s: State, p: nat) returns (steps: seq<Step>)
    requires WellFormed(env) && FirstSession(env, s) && s.unsaved.None?
    requires s.pos <= p <= |env.log|
    ensures AlwaysLeader(steps)
    ensures
      var t := Exec(env, s, steps);
      FirstSession(env, t) && t.pos == p && t.outbox == [] && t.unsaved.None?
    decreases p
  {
    if s.pos == p {
      steps := DeliverUpTo(env, s, |Batch(env, s)|);
    } else {
      var before := Reach(env, s, p - 1);
      var pull := ReachPulled(env, s, before, p - 1);
      var t := Exec(env, s, pull);
      var rest := DeliverUpTo(env, t, |Batch(env, t)|);
      steps := pull + rest;
      ExecConcat(env, s, pull, rest);
    }
  }

  lemma ReachPulled(env: Env, s: State, before: seq<Step>, p: nat) returns (steps: seq<Step>)
    requires WellFormed(env) && p < |env.log| && AlwaysLeader(before)
    requires FirstSession(env, Exec(env, s, before))
    requires Exec(env, s, before).pos == p
    requires Exec(env, s, before).outbox == [] && Exec(env, s, before).unsaved.None?
    ensures AlwaysLeader(steps)
    ensures
      var t := Exec(env, s, steps);
      FirstSession(env, t) && t.pos == p + 1 && t.unsaved.None? && Handed(env, t) == 0
  {
    hide InSession, Settled, OnlySendable, CommitPoint, Batch, Sendable, Next;
    steps := before + [Pull(true)];
    ExecConcat(env, s, before, [Pull(true)]);
    ExecOne(env, Exec(env, s, before), Pull(true));
    PullFirst(env, Exec(env, s, before));
  }

  /** It can stop just after saving the offset of any sendable record that is committed further on. */
  lemma ReachSaved(env: Env, s: State, b: nat) returns (steps: seq<Step>)
    requires WellFormed(env) && FirstSession(env, s) && s.unsaved.None?
    requires Sendable(env, b) && s.pos <= CommitPoint(env.log, b).value
    ensures AlwaysLeader(steps)
    ensures
      var t := Exec(env, s, steps);
      && FirstSession(env, t) && t.unsaved.None?
      && t.pos == CommitPoint(env.log, b).value + 1 && t.checkpoint == b + 1
  {
    hide InSession, Settled, OnlySendable, CommitPoint, Batch, Next, Exec, Done, Valid, WellFormed;
    CommitPointAfter(env, b);
    var p := CommitPoint(env.log, b).value;
    var before := Reach(env, s, p);
    var pull := ReachPulled(env, s, before, p);
    var t := Exec(env, s, pull);
    BatchHolds(env, t, b);
    var n :| 0 <= n < |Batch(env, t)| && Batch(env, t)[n] == b;
    var rest := DeliverUpTo(env, t, n + 1);
    steps := pull + rest;
    ExecConcat(env, s, pull, rest);
  }

  lemma BatchHolds(env: Env, s: State, b: nat)
    requires Sendable(env, b) && s.start == 0 && s.pos == CommitPoint(env.log, b).value + 1
    ensures b in Batch(env, s)
  {
    CommitPointAfter(env, b);
    assert Flushing(env, s.pos - 1)(b);
  }

  /** A record that the log commits too late for a following sendable one, in a run that shows it. */
  lemma Overtaken(env: Env) returns (a: nat, steps: seq<Step>)
    requires WellFormed(env) && !CommitsInLogOrder(env)
    ensures AlwaysLeader(steps) && Committed(env, a) && Valid(env, a)
    ensures
      var s := Exec(env, INITIAL, steps);
      Sound(env, s) && a < s.checkpoint && !Done(env, s, a)
  {
    var x, b :| 0 <= x < b < |env.log| && Committed(env, x) && Valid(env, x) && Sendable(env, b)
                && CommitPoint(env.log, x).value > CommitPoint(env.log, b).value;
    a := x;
    InitialFirst(env);
    steps := ReachSaved(env, INITIAL, b);
  }

  /**
   * No run loses a committed record exactly when commit order agrees with log order: then, through any number
   * of crashes between any two steps, everything committed at or below the checkpoint has been sent or
   * dead-lettered, and so has everything committed once the log is consumed.
   */
  lemma NoLossExactlyInLogOrder(env: Env)
    requires WellFormed(env)
    ensures NoLoss(env) <==> CommitsInLogOrder(env)
  {
    if CommitsInLogOrder(env) {
      forall steps | AlwaysLeader(steps)
        ensures
          var s := Exec(env, INITIAL, steps);
          CheckpointSafe(env, s) && (Finished(env, s) ==> AllDone(env, s))
      {
        InOrderRunSafe(env, steps);
      }
    } else {
      var a, steps := Overtaken(env);
      assert !CheckpointSafe(env, Exec(env, INITIAL, steps));
    }
  }

  lemma InOrderRunSafe(env: Env, steps: seq<Step>)
    requires WellFormed(env) && CommitsInLogOrder(env) && AlwaysLeader(steps)
    ensures
      var s := Exec(env, INITIAL, steps);
      CheckpointSafe(env, s) && (Finished(env, s) ==> AllDone(env, s))
  {
    hide InSession, Settled, OnlySendable, WellFormed, Committed, Done, CommitsInLogOrder;
    RunsSound(env, steps);
    RunsSafe(env, steps);
    var s := Exec(env, INITIAL, steps);
    if Finished(env, s) {
      forall i: nat | Committed(env, i)
        ensures Done(env, s, i)
      {
        FinishedAllDone(env, s, i);
      }
    }
  }

  lemma SendableNotDead(env: Env, s: State, i: nat)
    requires WellFormed(env) && OnlyRefused(env, s) && Sendable(env, i)
    ensures env.log[i] !in s.dead
  {
    hide CommitPoint, Valid;
    forall j: nat | j < |env.log| && env.log[j] == env.log[i]
      ensures j == i
    {
      SameRecord(env, i, j);
    }
  }

  /** A record that can be sent is never handled by dead-lettering it, in any led run. */
  lemma HandledMeansSent(env: Env, steps: seq<Step>, i: nat)
    requires WellFormed(env) && AlwaysLeader(steps)
    requires Sendable(env, i) && Done(env, Exec(env, INITIAL, steps), i)
    ensures Sent(env, Exec(env, INITIAL, steps), i)
  {
    hide CommitPoint, Valid, Exec, WellFormed, OnlyRefused;
    OnlyRefusedDead(env, steps);
    SendableNotDead(env, Exec(env, INITIAL, steps), i);
  }

  /** So in an ordered log every sendable record below the checkpoint, and in the end every one, has been sent. */
  lemma NoLossSends(env: Env, steps: seq<Step>, i: nat)
    requires WellFormed(env) && CommitsInLogOrder(env) && AlwaysLeader(steps) && Sendable(env, i)
    ensures
      var s := Exec(env, INITIAL, steps);
      i < s.checkpoint || Finished(env, s) ==> Sent(env, s, i)
  {
    hide CommitPoint, Valid, Exec, WellFormed, CommitsInLogOrder;
    InOrderRunSafe(env, steps);
    if Done(env, Exec(env, INITIAL, steps), i) {
      HandledMeansSent(env, steps, i);
    }
  }

  // A record skipped by a restart is gone for good.

  ghost predicate Skipped(env: Env, s: State, a: nat) {
    Sound(env, s) && a < s.start && a < |env.log| && !Done(env, s, a)
  }

  lemma SkippedDeliver(env: Env, s: State, a: nat)
    requires WellFormed(env) && Skipped(env, s, a) && s.outbox != [] && s.unsaved.None?
    ensures Skipped(env, Next(env, s, Deliver), a)
  {
    hide InSession, Settled, OnlySendable, Next;
    DeliverSound(env, s);
    DeliverKeepsSession(env, s);
    SentAfterDeliver(env, s, a);
    if env.log[a] == env.log[Batch(env, s)[Handed(env, s)]] {
      SameRecord(env, a, Batch(env, s)[Handed(env, s)]);
    }
  }

  lemma SkippedStep(env: Env, s: State, a: nat, step: Step)
    requires WellFormed(env) && Skipped(env, s, a) && step != Pull(false)
    ensures Skipped(env, Next(env, s, step), a)
  {
    NextSound(env, s, step);
    match step {
      case Pull(_) =>
        if s.outbox == [] && s.unsaved.None? && s.pos < |env.log| {
          PullKeepsSession(env, s);
          if env.log[a] == env.log[s.pos] {
            SameRecord(env, a, s.pos);
          }
        }
      case Deliver =>
        if s.outbox != [] && s.unsaved.None? {
          SkippedDeliver(env, s, a);
        }
      case Save =>
      case Crash =>
        CrashKeepsSession(env, s);
    }
  }

  lemma {:induction false} SkippedForever(env: Env, s: State, a: nat, more: seq<Step>)
    requires WellFormed(env) && Skipped(env, s, a) && AlwaysLeader(more)
    ensures Skipped(env, Exec(env, s, more), a)
  {
    hide Skipped, Next;
    if more != [] {
      LeaderPrefix(more);
      SkippedForever(env, s, a, more[..|more| - 1]);
      SkippedStep(env, Exec(env, s, more[..|more| - 1]), a, more[|more| - 1]);
    }
  }

  /**
   * On any other log one crash at the wrong moment is enough: some committed, valid record is then neither
   * sent nor dead-lettered, however the run goes on.
   */
  lemma OneCrashCanLose(env: Env) returns (a: nat, steps: seq<Step>)
    requires WellFormed(env) && !CommitsInLogOrder(env)
    ensures AlwaysLeader(steps) && Committed(env, a) && Valid(env, a)
    ensures forall more :: AlwaysLeader(more) ==> !Done(env, Exec(env, INITIAL, steps + more), a)
  {
    var before: seq<Step>;
    a, before := Overtaken(env);
    steps := before + [Crash];
    var s := Exec(env, INITIAL, before);
    ExecConcat(env, INITIAL, before, [Crash]);
    ExecOne(env, s, Crash);
    CrashSound(env, s);
    CrashKeepsSession(env, s);
    forall more | AlwaysLeader(more)
      ensures !Done(env, Exec(env, INITIAL, steps + more), a)
    {
      ExecConcat(env, INITIAL, steps, more);
      SkippedForever(env, Exec(env, INITIAL, steps), a, more);
    }
  }

  // Duplication.

  function Crashes(steps: seq<Step>): nat {
    if steps == [] then 0
    else Crashes(steps[..|steps| - 1]) + if steps[|steps| - 1].Crash? then 1 else 0
  }

  lemma {:induction false} CrashesCounted(env: Env, steps: seq<Step>)
    ensures Exec(env, INITIAL, steps).crashes == Crashes(steps)
  {
    if steps != [] {
      CrashesCounted(env, steps[..|steps| - 1]);
    }
  }

  /** With sendable records in order total sends exceed distinct sends by at most the number of crashes. */
  lemma BoundedDuplication(env: Env, steps: seq<Step>)
    requires WellFormed(env) && SendablesInLogOrder(env) && AlwaysLeader(steps)
    ensures
      var sent := Exec(env, INITIAL, steps).sent;
      |sent| <= |DistinctEvents(sent)| + Crashes(steps)
  {
    RunsOrdered(env, steps);
    CrashesCounted(env, steps);
  }

  // The checkpoint.

  lemma LastStepAdvances(env: Env, steps: seq<Step>)
    requires WellFormed(env) && SendablesInLogOrder(env) && AlwaysLeader(steps) && steps != []
    ensures AlwaysLeader(steps[..|steps| - 1])
    ensures Exec(env, INITIAL, steps[..|steps| - 1]).checkpoint <= Exec(env, INITIAL, steps).checkpoint
  {
    hide WellFormed, SendablesInLogOrder, Ordered, Next;
    LeaderPrefix(steps);
    RunsOrdered(env, steps[..|steps| - 1]);
    NextOrdered(env, Exec(env, INITIAL, steps[..|steps| - 1]), steps[|steps| - 1]);
  }

  lemma {:induction false} CheckpointNeverDecreases(env: Env, steps: seq<Step>, more: seq<Step>)
    requires WellFormed(env) && SendablesInLogOrder(env) && AlwaysLeader(steps + more)
    ensures Exec(env, INITIAL, steps).checkpoint <= Exec(env, INITIAL, steps + more).checkpoint
    decreases |more|
  {
    hide WellFormed, SendablesInLogOrder, Next, Exec, AlwaysLeader;
    if more == [] {
      assert steps + more == steps;
    } else {
      var front := more[..|more| - 1];
      assert (steps + more)[..|steps + more| - 1] == steps + front;
      LastStepAdvances(env, steps + more);
      CheckpointNeverDecreases(env, steps, front);
    }
  }

  /** In no run, restarts included, does the checkpoint move back. */
  ghost predicate CheckpointMonotone(env: Env) {
    forall steps, more :: AlwaysLeader(steps + more) ==>
      Exec(env, INITIAL, steps).checkpoint <= Exec(env, INITIAL, steps + more).checkpoint
  }

  /** A run without crashes whose checkpoint moves back, over a log that commits two sendable records out of order. */
  lemma CheckpointFallsBack(env: Env, a: nat, b: nat) returns (steps: seq<Step>, more: seq<Step>)
    requires WellFormed(env) && a < b && Sendable(env, a) && Sendable(env, b)
    requires CommitPoint(env.log, b).value < CommitPoint(env.log, a).value
    ensures AlwaysLeader(steps + more)
    ensures Exec(env, INITIAL, steps).checkpoint > Exec(env, INITIAL, steps + more).checkpoint
  {
    hide FirstSession, WellFormed, CommitPoint, Exec;
    InitialFirst(env);
    CommitPointAfter(env, b);
    steps := ReachSaved(env, INITIAL, b);
    more := ReachSaved(env, Exec(env, INITIAL, steps), a);
    ExecConcat(env, INITIAL, steps, more);
  }

  /** The checkpoint never moves back in any run exactly when sendable records are committed in log order. */
  lemma CheckpointMonotoneExactly(env: Env)
    requires WellFormed(env)
    ensures CheckpointMonotone(env) <==> SendablesInLogOrder(env)
  {
    hide WellFormed, AlwaysLeader, Exec;
    if SendablesInLogOrder(env) {
      forall steps, more | AlwaysLeader(steps + more)
        ensures Exec(env, INITIAL, steps).checkpoint <= Exec(env, INITIAL, steps + more).checkpoint
      {
        CheckpointNeverDecreases(env, steps, more);
      }
    } else {
      var a, b :| 0 <= a < b < |env.log| && Sendable(env, a) && Sendable(env, b)
                  && CommitPoint(env.log, a).value > CommitPoint(env.log, b).value;
      var steps, more := CheckpointFallsBack(env, a, b);
    }
  }

  // A log that loses.

  function Mutation(number: nat, tx: string): ChangeEvent {
    ChangeEvent(ToText(number), "db", "users", Create, 0, "", None, None, Some(tx), ToText(number))
  }

  /** Two transactions interleaved: the one begun first commits last. */
  const INTERLEAVED := [
    Mutation(1, "a"),
    Mutation(2, "b"),
    Mutation(3, "b").(operation := Commit),
    Mutation(4, "a").(operation := Commit)]

  /** Interleaving two transactions is all it takes to leave the order, so that some run loses a record. */
  lemma InterleavedLoses(env: Env)
    requires env == Env(INTERLEAVED, None, e => Some(e))
    ensures WellFormed(env) && !SendablesInLogOrder(env) && !CommitsInLogOrder(env)
    ensures !NoLoss(env) && !CheckpointMonotone(env)
  {
    hide NoLoss, CheckpointMonotone;
    InterleavedNumbered();
    InterleavedCommits();
    assert Sendable(env, 0) && Sendable(env, 1);
    NoLossExactlyInLogOrder(env);
    CheckpointMonotoneExactly(env);
  }

  lemma InterleavedNumbered()
    ensures forall i :: 0 <= i < 4 ==> INTERLEAVED[i].id == INTERLEAVED[i].offset == ToText(i + 1)
    ensures DistinctIds(INTERLEAVED)
  {
    hide ToText;
    forall i: nat, j: nat | i < j < 4
      ensures INTERLEAVED[i].id != INTERLEAVED[j].id
    {
      if ToText(i + 1) == ToText(j + 1) {
        ToTextInjective(i + 1, j + 1);
      }
    }
  }

  lemma InterleavedCommits()
    ensures CommitPoint(INTERLEAVED, 0) == Some(3) && CommitPoint(INTERLEAVED, 1) == Some(2)
  {
    assert forall i :: 0 <= i < 4 ==> INTERLEAVED[i].table[0] == 'u';
    assert NextClose(INTERLEAVED, "a", 3) == Some(3);
    assert NextClose(INTERLEAVED, "a", 2) == Some(3);
    assert NextClose(INTERLEAVED, "a", 1) == Some(3);
    assert NextClose(INTERLEAVED, "b", 2) == Some(2);
  }

  // Logs that commit in order.

  /** Record `q` lies between mutation `i` and the end of its transaction. */
  predicate Inside(log: seq<ChangeEvent>, i: nat, q: nat)
    requires i < q < |log|
  {
    && !IsWatermark(log[i]) && !log[i].IsControl()
    && match log[i].transactionId
       case None => false
       case Some(tx) =>
         match NextClose(log, tx, i + 1)
         case None => true
         case Some(end) => q < end
  }

  /** Between a mutation and the end of its transaction the log holds no record of anything else. */
  predicate ContiguousTransactions(log: seq<ChangeEvent>) {
    forall i, q :: 0 <= i < q < |log| && Inside(log, i, q) && !IsWatermark(log[q]) ==>
      log[q].transactionId == log[i].transactionId
  }

  /** Contiguous transactions are more than enough for commit order to agree with log order. */
  lemma ContiguousCommitsInOrder(env: Env)
    requires ContiguousTransactions(env.log)
    ensures CommitsInLogOrder(env)
  {
    forall a: nat, b: nat | a < b < |env.log| && Committed(env, a) && Valid(env, a) && Sendable(env, b)
      ensures CommitPoint(env.log, a).value <= CommitPoint(env.log, b).value
    {
      CommitPointAfter(env, a);
      CommitPointAfter(env, b);
    }
  }

  /** The Postgres stream meets every premise about the log. */
  lemma SourceLogWellFormed(env: Env, clock: seq<int>)
    requires env.log == Unfold(0, clock) && |clock| < U64_LIMIT
    requires forall e :: env.transform(e).Some? ==> env.transform(e).value.offset == e.offset
    ensures WellFormed(env) && ContiguousTransactions(env.log)
  {
    SourceNumbered(clock);
    forall i, q | 0 <= i < q < |env.log|
      ensures env.log[i].id != env.log[q].id
    {
      SourceIdsDiffer(clock, i, q);
    }
    SourceContiguous(clock);
  }

  lemma SourceNumbered(clock: seq<int>)
    ensures |Unfold(0, clock)| == |clock|
    ensures forall i :: 0 <= i < |clock| ==> Unfold(0, clock)[i].offset == ToText(i + 1)
  {
    UnfoldAt(0, clock);
  }

  lemma SourceIdsDiffer(clock: seq<int>, i: nat, j: nat)
    requires i < j < |Unfold(0, clock)| && |Unfold(0, clock)| == |clock|
    ensures Unfold(0, clock)[i].id != Unfold(0, clock)[j].id
  {
    UnfoldAt(0, clock);
    var a, b := Unfold(0, clock)[i].id, Unfold(0, clock)[j].id;
    assert a[7..] == ToText(i + 1) && b[7..] == ToText(j + 1);
    if ToText(i + 1) == ToText(j + 1) {
      ToTextInjective(i + 1, j + 1);
    }
  }

  lemma SourceCloses(clock: seq<int>, i: nat, end: nat)
    requires i < |clock| && end == i / 4 * 4 + 3 && end < |clock|
    ensures |Unfold(0, clock)| == |clock| && Unfold(0, clock)[i].transactionId.Some?
    ensures ClosesInLog(Unfold(0, clock)[end], Unfold(0, clock)[i].transactionId.value)
  {
    hide Unfold, ToText, EventAt;
    UnfoldAt(0, clock);
    BlocksOfFour(clock, i, end);
    BlocksOfFour(clock, i, i);
    EventShape(end + 1, clock[end]);
    EventShape(i + 1, clock[i]);
  }

  lemma SourceContiguous(clock: seq<int>)
    ensures ContiguousTransactions(Unfold(0, clock))
  {
    hide Unfold, ClosesInLog;
    var log := Unfold(0, clock);
    forall i: nat, q: nat | i < q < |log| && Inside(log, i, q)
      ensures log[q].transactionId == log[i].transactionId
    {
      UnfoldAt(0, clock);
      BlocksOfFour(clock, i, q);
      var end := i / 4 * 4 + 3;
      if end < q {
        SourceCloses(clock, i, end);
        BlocksOfFour(clock, i, i);
      }
    }
  }

  /** So the engine fed by its own source loses nothing, crash as it may. */
  lemma SourceLosesNothing(env: Env, clock: seq<int>)
    requires env.log == Unfold(0, clock) && |clock| < U64_LIMIT
    requires forall e :: env.transform(e).Some? ==> env.transform(e).value.offset == e.offset
    ensures NoLoss(env)
  {
    SourceLogWellFormed(env, clock);
    ContiguousCommitsInOrder(env);
    NoLossExactlyInLogOrder(env);
  }
}
