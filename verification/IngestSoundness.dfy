/** Soundness of every run, and the order of commits under which no run loses or repeats more than it must. */
module IngestSoundness {
  import opened Wrappers
  import opened Events
  import opened IngestModel
  import opened IngestSession

  lemma CommitPointAfter(env: Env, i: nat)
    requires Committed(env, i)
    ensures i <= CommitPoint(env.log, i).value < |env.log| && !IsWatermark(env.log[i])
  {
  }

  lemma PullPasses(env: Env, s: State, i: nat)
    requires WellFormed(env) && InSession(env, s)
    requires s.outbox == [] && s.unsaved.None? && s.pos < |env.log|
    requires InSession(env, Next(env, s, Pull(true))) && Passed(env, Next(env, s, Pull(true)), i)
    ensures Passed(env, s, i)
  {
    hide InSession, WellFormed, CommitPoint, Enters, Next, Batch;
    PullKeepsSession(env, s);
    CommitPointAfter(env, i);
    var t := Next(env, s, Pull(true));
    assert Batch(env, t)[Handed(env, t)..] == Batch(env, t);
    BatchExactly(env, t);
    OutboxFits(env, s);
    assert Batch(env, s)[Handed(env, s)..] == [];
  }

  lemma PullSettles(env: Env, s: State, i: nat)
    requires WellFormed(env) && InSession(env, s) && Settled(env, s)
    requires s.outbox == [] && s.unsaved.None? && s.pos < |env.log|
    requires InSession(env, Next(env, s, Pull(true)))
    ensures Passed(env, Next(env, s, Pull(true)), i) ==> Done(env, Next(env, s, Pull(true)), i)
  {
    PullKeepsSession(env, s);
    if Passed(env, Next(env, s, Pull(true)), i) {
      PullPasses(env, s, i);
      hide SessionHistory, CommitPoint, Next, Passed, WellFormed;
      assert Done(env, s, i);
    }
  }

  lemma PullSound(env: Env, s: State)
    requires WellFormed(env) && Sound(env, s)
    requires s.outbox == [] && s.unsaved.None? && s.pos < |env.log|
    ensures Sound(env, Next(env, s, Pull(true)))
  {
    hide Next, InSession, Passed, WellFormed, Done, Sendable, Batch, Handed, Valid;
    PullKeepsSession(env, s);
    forall i: nat {
      PullSettles(env, s, i);
    }
  }

  /** Taking one record off the outbox leaves that record the only one that newly counts as passed. */
  lemma TakenPasses(env: Env, s: State, t: State, i: nat)
    requires |s.outbox| <= |Batch(env, s)| && |t.outbox| <= |Batch(env, t)| && s.outbox != []
    requires t.start == s.start && t.pos == s.pos
    requires Batch(env, t) == Batch(env, s) && Handed(env, t) == Handed(env, s) + 1
    ensures Passed(env, t, i) <==> Passed(env, s, i) || i == Batch(env, s)[Handed(env, s)]
  {
    hide CommitPoint, Batch;
    BatchRecord(env, s, Handed(env, s));
    BatchExactly(env, s);
    HeadOfRest(Batch(env, s), Handed(env, s), i);
  }

  lemma HeadOfRest(r: seq<nat>, h: nat, i: nat)
    requires h < |r| && forall m, n :: 0 <= m < n < |r| ==> r[m] < r[n]
    ensures i in r[h..] <==> i == r[h] || i in r[h + 1..]
    ensures r[h] !in r[h + 1..]
  {
    assert r[h..] == [r[h]] + r[h + 1..];
    var later := r[h + 1..];
    forall n | 0 <= n < |later|
      ensures later[n] > r[h]
    {
      assert later[n] == r[h + 1 + n];
    }
  }

  lemma DeliverPasses(env: Env, s: State, i: nat)
    requires WellFormed(env) && InSession(env, s) && s.outbox != [] && s.unsaved.None?
    ensures
      var t := Next(env, s, Deliver);
      InSession(env, t) && (Passed(env, t, i) <==> Passed(env, s, i) || i == Batch(env, s)[Handed(env, s)])
  {
    hide SessionHistory, CommitPoint, WellFormed, Sendable, Next, At, Ids, Batch, Passed;
    DeliverKeepsSession(env, s);
    OutboxFits(env, s);
    OutboxFits(env, Next(env, s, Deliver));
    hide InSession;
    TakenPasses(env, s, Next(env, s, Deliver), i);
  }

  lemma DeliverSettles(env: Env, s: State, i: nat)
    requires WellFormed(env) && Sound(env, s) && s.outbox != [] && s.unsaved.None?
    requires InSession(env, Next(env, s, Deliver)) && Passed(env, Next(env, s, Deliver), i)
    ensures Done(env, Next(env, s, Deliver), i)
  {
    hide SessionHistory, CommitPoint, Next, Passed, WellFormed, OnlySendable, At, Ids;
    DeliverKeepsSession(env, s);
    DeliverPasses(env, s, i);
    if Passed(env, s, i) {
      assert Done(env, s, i);
    }
  }

  lemma DeliverSound(env: Env, s: State)
    requires WellFormed(env) && Sound(env, s) && s.outbox != [] && s.unsaved.None?
    ensures Sound(env, Next(env, s, Deliver))
  {
    hide SessionHistory, CommitPoint, Next, Passed, Done, Valid, Batch, WellFormed;
    DeliverKeepsSession(env, s);
    forall i | Passed(env, Next(env, s, Deliver), i)
      ensures Done(env, Next(env, s, Deliver), i)
    {
      DeliverSettles(env, s, i);
    }
  }

  lemma SaveSound(env: Env, s: State)
    requires WellFormed(env) && Sound(env, s) && s.unsaved.Some?
    ensures Sound(env, Next(env, s, Save))
  {
    hide InSession, Passed, Next, WellFormed, Sendable, Valid, Batch;
    SaveKeepsSession(env, s);
    var t := Next(env, s, Save);
    forall i | Passed(env, s, i)
      ensures Done(env, t, i)
    {
      assert Done(env, s, i);
    }
  }

  lemma CrashSound(env: Env, s: State)
    requires WellFormed(env) && Sound(env, s)
    ensures Sound(env, Next(env, s, Crash))
  {
    CrashKeepsSession(env, s);
    var t := Next(env, s, Crash);
    forall i | Passed(env, t, i)
      ensures false
    {
      CommitPointAfter(env, i);
    }
  }

  lemma NextSound(env: Env, s: State, step: Step)
    requires WellFormed(env) && Sound(env, s) && step != Pull(false)
    ensures Sound(env, Next(env, s, step))
  {
    match step {
      case Pull(_) =>
        if s.outbox == [] && s.unsaved.None? && s.pos < |env.log| {
          PullSound(env, s);
        }
      case Deliver =>
        if s.outbox != [] && s.unsaved.None? {
          DeliverSound(env, s);
        }
      case Save =>
        if s.unsaved.Some? {
          SaveSound(env, s);
        }
      case Crash =>
        CrashSound(env, s);
    }
  }

  lemma InitialSound(env: Env)
    ensures Sound(env, INITIAL)
  {
    assert Batch(env, INITIAL) == [];
    forall i | Passed(env, INITIAL, i)
      ensures false
    {
      CommitPointAfter(env, i);
    }
  }

  lemma LeaderPrefix(steps: seq<Step>)
    requires AlwaysLeader(steps) && steps != []
    ensures AlwaysLeader(steps[..|steps| - 1]) && steps[|steps| - 1] != Pull(false)
  {
  }

  lemma {:induction false} RunsSound(env: Env, steps: seq<Step>)
    requires WellFormed(env) && AlwaysLeader(steps)
    ensures Sound(env, Exec(env, INITIAL, steps))
  {
    if steps == [] {
      InitialSound(env);
    } else {
      LeaderPrefix(steps);
      RunsSound(env, steps[..|steps| - 1]);
      NextSound(env, Exec(env, INITIAL, steps[..|steps| - 1]), steps[|steps| - 1]);
    }
  }

  /**
   * Atomicity: over any log and through any crashes, whatever reaches the sinks is a committed record. In
   * particular no mutation of a transaction that was rolled back, or is still open, is ever sent.
   */
  lemma OnlyCommittedSent(env: Env, steps: seq<Step>, i: nat)
    requires WellFormed(env) && AlwaysLeader(steps)
    requires Sent(env, Exec(env, INITIAL, steps), i)
    ensures Committed(env, i) && Valid(env, i)
  {
    RunsSound(env, steps);
    var s := Exec(env, INITIAL, steps);
    var x := env.transform(env.log[i]).value;
    var j: nat :| j < |env.log| && Sendable(env, j) && env.transform(env.log[j]) == Some(x);
    SameOffsetSameRecord(env, i, j);
  }

  /** Whatever is dead-lettered is a record that failed validation or a committed one the transformer refused. */
  ghost predicate OnlyRefused(env: Env, s: State) {
    forall x :: x in s.dead ==>
      exists i: nat :: i < |env.log| && env.log[i] == x
        && (!Valid(env, i) || (Committed(env, i) && env.transform(x).None?))
  }

  lemma PullRefuses(env: Env, s: State)
    requires WellFormed(env) && InSession(env, s) && OnlyRefused(env, s)
    requires s.outbox == [] && s.unsaved.None? && s.pos < |env.log|
    ensures OnlyRefused(env, Next(env, s, Pull(true)))
  {
    hide Next, InSession, CommitPoint, WellFormed, Valid;
    PullKeepsSession(env, s);
  }

  lemma DeliverRefuses(env: Env, s: State)
    requires WellFormed(env) && InSession(env, s) && OnlyRefused(env, s)
    requires s.outbox != [] && s.unsaved.None?
    ensures OnlyRefused(env, Next(env, s, Deliver))
  {
    hide Next, CommitPoint, WellFormed, SessionHistory, Valid, At, Ids;
    DeliverKeepsSession(env, s);
    var b := Batch(env, s)[Handed(env, s)];
    assert b < |env.log| && Committed(env, b);
  }

  lemma NextRefuses(env: Env, s: State, step: Step)
    requires WellFormed(env) && InSession(env, s) && OnlyRefused(env, s) && step != Pull(false)
    ensures OnlyRefused(env, Next(env, s, step))
  {
    hide InSession, WellFormed, Valid, CommitPoint, Receive;
    match step {
      case Pull(_) =>
        if s.outbox == [] && s.unsaved.None? && s.pos < |env.log| {
          PullRefuses(env, s);
        }
      case Deliver =>
        if s.outbox != [] && s.unsaved.None? {
          DeliverRefuses(env, s);
        }
      case Save =>
      case Crash =>
    }
  }

  lemma {:induction false} OnlyRefusedDead(env: Env, steps: seq<Step>)
    requires WellFormed(env) && AlwaysLeader(steps)
    ensures OnlyRefused(env, Exec(env, INITIAL, steps))
  {
    hide Next, OnlyRefused, Sound, WellFormed;
    if steps == [] {
      NothingRefused(env);
    } else {
      LeaderPrefix(steps);
      var front := steps[..|steps| - 1];
      OnlyRefusedDead(env, front);
      RunInSession(env, front);
      NextRefuses(env, Exec(env, INITIAL, front), steps[|steps| - 1]);
    }
  }

  lemma NothingRefused(env: Env)
    ensures OnlyRefused(env, INITIAL)
  {
  }

  lemma RunInSession(env: Env, steps: seq<Step>)
    requires WellFormed(env) && AlwaysLeader(steps)
    ensures InSession(env, Exec(env, INITIAL, steps))
  {
    RunsSound(env, steps);
  }

  lemma SameOffsetSameRecord(env: Env, i: nat, j: nat)
    requires WellFormed(env) && i < |env.log| && j < |env.log|
    requires env.transform(env.log[i]).Some? && env.transform(env.log[i]) == env.transform(env.log[j])
    ensures i == j
  {
    OffsetResumes(env, i);
    OffsetResumes(env, j);
    assert env.log[i].offset == env.log[j].offset;
  }
}
