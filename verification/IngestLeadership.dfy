/**
 * What leadership gaps cost. An event pulled while not leader is discarded, so a session with gaps is a fully led
 * session over the log with the discarded records blanked out.
 */
module IngestLeadership {
  import opened Wrappers
  import opened Events
  import opened Decimal
  import opened Deduplication
  import opened TransactionBuffers
  import opened SchemaRegistry
  import opened PostgresSource
  import opened IngestModel
  import opened IngestSession
  import opened IngestSoundness
  import opened IngestTheorems

  /** A run without crashes that is leader exactly at the pulls of the positions `leads` names. */
  predicate Follows(env: Env, steps: seq<Step>, leads: nat -> bool) {
    forall i :: 0 <= i < |steps| ==>
      && steps[i] != Crash
      && (steps[i].Pull? ==> steps[i].leader == leads(Exec(env, INITIAL, steps[..i]).pos))
  }

  /** The first record at or after `from` that closes the transaction and is pulled as leader. */
  function LedClose(log: seq<ChangeEvent>, leads: nat -> bool, tx: string, from: nat): (r: Option<nat>)
    ensures r.Some? ==> from <= r.value < |log|
    decreases |log| - from
  {
    if from >= |log| then None
    else if leads(from) && ClosesInLog(log[from], tx) then Some(from)
    else LedClose(log, leads, tx, from + 1)
  }

  /**
   * Record `i` was pulled as leader and, unless it is invalid, so was a close of its transaction, the first such
   * being a commit.
   */
  predicate LedThrough(env: Env, leads: nat -> bool, i: nat)
    requires i < |env.log|
  {
    && leads(i)
    && (Valid(env, i) && env.log[i].transactionId.Some? ==>
          var close := LedClose(env.log, leads, env.log[i].transactionId.value, i + 1);
          close.Some? && env.log[close.value].operation == Commit)
  }

  // The log as the session sees it.

  function Blank(e: ChangeEvent): (b: ChangeEvent)
    ensures IsWatermark(b)
  {
    e.(table := WATERMARK_TABLE, operation := Snapshot)
  }

  function Seen(env: Env, leads: nat -> bool): Env {
    env.(log := seq(|env.log|, i requires 0 <= i < |env.log| => if leads(i) then env.log[i] else Blank(env.log[i])))
  }

  lemma SeenWellFormed(env: Env, leads: nat -> bool)
    requires WellFormed(env)
    ensures WellFormed(Seen(env, leads))
  {
    hide ToText;
    var log := Seen(env, leads).log;
    forall i: nat | i < |log|
      ensures log[i].id == env.log[i].id && log[i].offset == env.log[i].offset
    {
      assert log[i] == if leads(i) then env.log[i] else Blank(env.log[i]);
    }
  }

  lemma {:induction false} SeenClose(env: Env, leads: nat -> bool, tx: string, from: nat)
    ensures NextClose(Seen(env, leads).log, tx, from) == LedClose(env.log, leads, tx, from)
    decreases |env.log| - from
  {
    if from < |env.log| {
      SeenClose(env, leads, tx, from + 1);
    }
  }

  /** A committed record is seen through to its commit exactly when it is committed in the log as seen. */
  lemma SeenThrough(env: Env, leads: nat -> bool, i: nat)
    requires Committed(env, i)
    ensures Valid(Seen(env, leads), i) && leads(i) ==> Valid(env, i)
    ensures LedThrough(env, leads, i) <==>
            leads(i) && (Valid(Seen(env, leads), i) ==> Committed(Seen(env, leads), i))
    ensures !leads(i) ==> !Committed(Seen(env, leads), i)
  {
    hide ValidateEvent;
    if env.log[i].transactionId.Some? {
      SeenClose(env, leads, env.log[i].transactionId.value, i + 1);
    }
  }

  function LedStep(step: Step): Step {
    if step.Pull? then Pull(true) else step
  }

  function Led(steps: seq<Step>): seq<Step> {
    seq(|steps|, i requires 0 <= i < |steps| => LedStep(steps[i]))
  }

  /** `t` is `s` but for what only the blanks leave behind: their ids, and dead letters of the watermark table. */
  ghost predicate Matches(env: Env, s: State, t: State) {
    && s == t.(accepted := s.accepted, dead := s.dead)
    && s.start == 0 && s.pos <= |env.log|
    && (forall id :: id in s.accepted ==> exists j :: 0 <= j < s.pos && env.log[j].id == id)
    && (forall x :: !IsWatermark(x) ==> (x in s.dead <==> x in t.dead))
  }

  lemma NewIdAccepted(env: Env, s: State)
    requires WellFormed(env) && s.pos < |env.log|
    requires forall id :: id in s.accepted ==> exists j :: 0 <= j < s.pos && env.log[j].id == id
    ensures env.log[s.pos].id !in Last(s.accepted, DEDUP_CAPACITY)
  {
    if env.log[s.pos].id in Last(s.accepted, DEDUP_CAPACITY) {
      LastIsPart(s.accepted, DEDUP_CAPACITY, env.log[s.pos].id);
    }
  }

  lemma PullMatches(env: Env, leads: nat -> bool, s: State, t: State)
    requires WellFormed(env) && Matches(env, s, t) && InSession(Seen(env, leads), t)
    requires s.outbox == [] && s.unsaved.None? && s.pos < |env.log|
    ensures Matches(env, Next(env, s, Pull(leads(s.pos))), Next(Seen(env, leads), t, Pull(true)))
  {
    hide Last, ValidateEvent, Emitted, CommitPoint, Sendable, SessionHistory;
    SeenWellFormed(env, leads);
    NotDuplicate(Seen(env, leads).log, t.start, t.pos);
    NewIdAccepted(env, s);
    var e := env.log[s.pos];
    forall id | id in s.accepted + [e.id]
      ensures exists j :: 0 <= j < s.pos + 1 && env.log[j].id == id
    {
      if id in s.accepted {
        var j :| 0 <= j < s.pos && env.log[j].id == id;
      } else {
        assert env.log[s.pos].id == id;
      }
    }
  }

  lemma OtherMatches(env: Env, leads: nat -> bool, s: State, t: State, step: Step)
    requires Matches(env, s, t) && (step == Deliver || step == Save)
    ensures Matches(env, Next(env, s, step), Next(Seen(env, leads), t, step))
  {
    hide Receive, StartSequence;
    assert Seen(env, leads).transform == env.transform;
  }

  lemma IdlePullMatches(env: Env, leads: nat -> bool, s: State, t: State)
    requires Matches(env, s, t) && (s.outbox != [] || s.unsaved.Some? || s.pos >= |env.log|)
    ensures Matches(env, Next(env, s, Pull(leads(s.pos))), Next(Seen(env, leads), t, Pull(true)))
  {
    hide Receive, StartSequence, Blank;
  }

  lemma StepMatches(env: Env, leads: nat -> bool, s: State, t: State, step: Step)
    requires WellFormed(env) && Matches(env, s, t) && InSession(Seen(env, leads), t)
    requires step != Crash && (step.Pull? ==> step.leader == leads(s.pos))
    ensures Matches(env, Next(env, s, step), Next(Seen(env, leads), t, LedStep(step)))
  {
    hide Matches, Next, Seen, InSession, WellFormed;
    match step {
      case Pull(_) =>
        if s.outbox == [] && s.unsaved.None? && s.pos < |env.log| {
          PullMatches(env, leads, s, t);
        } else {
          IdlePullMatches(env, leads, s, t);
        }
      case Deliver =>
        OtherMatches(env, leads, s, t, step);
      case Save =>
        OtherMatches(env, leads, s, t, step);
    }
  }

  lemma FollowsFront(env: Env, steps: seq<Step>, leads: nat -> bool)
    requires Follows(env, steps, leads) && steps != []
    ensures
      var front, last := steps[..|steps| - 1], steps[|steps| - 1];
      && Follows(env, front, leads)
      && last != Crash && (last.Pull? ==> last.leader == leads(Exec(env, INITIAL, front).pos))
      && Led(steps) != [] && Led(steps)[..|steps| - 1] == Led(front) && Led(steps)[|steps| - 1] == LedStep(last)
  {
    hide Exec;
    var front := steps[..|steps| - 1];
    assert forall i :: 0 <= i < |front| ==> front[i] == steps[i] && front[..i] == steps[..i];
  }

  lemma LedLeads(steps: seq<Step>)
    ensures AlwaysLeader(Led(steps)) && |Led(steps)| == |steps|
  {
  }

  lemma InitialMatches(env: Env)
    ensures Matches(env, INITIAL, INITIAL)
  {
  }

  lemma {:induction false} RunMatches(env: Env, leads: nat -> bool, steps: seq<Step>)
    requires WellFormed(env) && Follows(env, steps, leads)
    ensures AlwaysLeader(Led(steps))
    ensures Matches(env, Exec(env, INITIAL, steps), Exec(Seen(env, leads), INITIAL, Led(steps)))
  {
    hide Next, WellFormed, InSession, Matches, Follows, Led, Seen, AlwaysLeader;
    LedLeads(steps);
    if steps == [] {
      InitialMatches(env);
    } else {
      FollowsFront(env, steps, leads);
      var front := steps[..|steps| - 1];
      RunMatches(env, leads, front);
      SeenWellFormed(env, leads);
      RunInSession(Seen(env, leads), Led(front));
      var s, t := Exec(env, INITIAL, front), Exec(Seen(env, leads), INITIAL, Led(front));
      StepMatches(env, leads, s, t, steps[|steps| - 1]);
    }
  }

  /** What a matching state of the fully led session over the log as seen says about record `i`. */
  lemma DoneSeen(env: Env, leads: nat -> bool, s: State, t: State, i: nat)
    requires WellFormed(env) && WellFormed(Seen(env, leads)) && Matches(env, s, t)
    requires Sound(Seen(env, leads), t) && OnlyRefused(Seen(env, leads), t)
    requires Committed(env, i) && Done(env, s, i)
    ensures leads(i) && (Valid(Seen(env, leads), i) ==> Committed(Seen(env, leads), i))
  {
    hide InSession, Settled, ValidateEvent, CommitPoint;
    var seen := Seen(env, leads);
    SeenThrough(env, leads, i);
    if Sent(env, s, i) {
      var x := env.transform(env.log[i]).value;
      var j: nat :| j < |seen.log| && Sendable(seen, j) && seen.transform(seen.log[j]) == Some(x);
      SameOffset(env, i, j);
    } else {
      NotWatermark(env, i);
      var j: nat :| j < |seen.log| && seen.log[j] == env.log[i]
                    && (!Valid(seen, j) || (Committed(seen, j) && seen.transform(seen.log[j]).None?));
      SameOffset(env, i, j);
    }
  }

  lemma NotWatermark(env: Env, i: nat)
    requires Committed(env, i)
    ensures !IsWatermark(env.log[i])
  {
  }

  lemma SameOffset(env: Env, i: nat, j: nat)
    requires WellFormed(env) && i < |env.log| && j < |env.log| && env.log[i].offset == env.log[j].offset
    ensures i == j
  {
    ToTextInjective(i + 1, j + 1);
  }

  lemma SeenDone(env: Env, leads: nat -> bool, s: State, t: State, i: nat)
    requires WellFormed(env) && WellFormed(Seen(env, leads)) && Matches(env, s, t)
    requires Sound(Seen(env, leads), t) && Finished(Seen(env, leads), t)
    requires Committed(env, i) && leads(i) && (Valid(Seen(env, leads), i) ==> Committed(Seen(env, leads), i))
    ensures Done(env, s, i)
  {
    NotWatermark(env, i);
    var seen := Seen(env, leads);
    hide CommitPoint, ValidateEvent, WellFormed;
    if Valid(seen, i) {
      FinishedDone(seen, t, i);
    } else {
      assert seen.log[i] in t.dead;
    }
  }

  /**
   * Leadership, exactly: a session without crashes that has consumed the log has sent or dead-lettered a committed
   * record if and only if it was leader when it pulled the record and, for a valid one, the first close of its
   * transaction that it pulled as leader is a commit.
   */
  lemma DoneExactlyWhenLed(env: Env, leads: nat -> bool, steps: seq<Step>, i: nat)
    requires WellFormed(env) && Follows(env, steps, leads) && Finished(env, Exec(env, INITIAL, steps))
    requires Committed(env, i)
    ensures Done(env, Exec(env, INITIAL, steps), i) <==> LedThrough(env, leads, i)
  {
    hide Exec, CommitPoint, Done, LedThrough, WellFormed, Sound, OnlyRefused, Follows, Valid;
    var seen := Seen(env, leads);
    RunMatches(env, leads, steps);
    SeenWellFormed(env, leads);
    RunsSound(seen, Led(steps));
    OnlyRefusedDead(seen, Led(steps));
    SeenThrough(env, leads, i);
    var s, t := Exec(env, INITIAL, steps), Exec(seen, INITIAL, Led(steps));
    if Done(env, s, i) {
      DoneSeen(env, leads, s, t, i);
    } else if LedThrough(env, leads, i) {
      SeenDone(env, leads, s, t, i);
    }
  }

  /**
   * Record `i` was pulled as leader, is valid and accepted by the transformer, and belongs to no transaction or to
   * one whose first later close pulled as leader is a commit; it need not be committed in the log.
   */
  predicate SendableLed(env: Env, leads: nat -> bool, i: nat)
    requires i < |env.log|
  {
    && leads(i) && Valid(env, i) && !IsWatermark(env.log[i]) && env.transform(env.log[i]).Some?
    && match env.log[i].transactionId
       case None => true
       case Some(tx) =>
         var close := LedClose(env.log, leads, tx, i + 1);
         !env.log[i].IsControl() && close.Some? && env.log[close.value].operation == Commit
  }

  lemma SeenSendable(env: Env, leads: nat -> bool, i: nat)
    requires i < |env.log|
    ensures Sendable(Seen(env, leads), i) <==> SendableLed(env, leads, i)
  {
    hide ValidateEvent, NextClose;
    if env.log[i].transactionId.Some? {
      LedCloseCloses(env.log, leads, env.log[i].transactionId.value, i + 1);
      SeenClose(env, leads, env.log[i].transactionId.value, i + 1);
    }
  }

  lemma {:induction false} LedCloseCloses(log: seq<ChangeEvent>, leads: nat -> bool, tx: string, from: nat)
    ensures
      var r := LedClose(log, leads, tx, from);
      r.Some? ==> leads(r.value) && ClosesInLog(log[r.value], tx)
    decreases |log| - from
  {
    if from < |log| && !(leads(from) && ClosesInLog(log[from], tx)) {
      LedCloseCloses(log, leads, tx, from + 1);
    }
  }

  /** The same record is sent, under its own offset, in the session and in the one over the log as seen. */
  lemma SentSeen(env: Env, leads: nat -> bool, s: State, t: State, i: nat)
    requires WellFormed(env) && WellFormed(Seen(env, leads)) && i < |env.log| && s.sent == t.sent
    requires OnlySendable(Seen(env, leads), t) && Sent(env, s, i)
    ensures Sendable(Seen(env, leads), i)
  {
    hide Sendable, ValidateEvent;
    var seen := Seen(env, leads);
    var x := env.transform(env.log[i]).value;
    var j: nat :| j < |seen.log| && Sendable(seen, j) && seen.transform(seen.log[j]) == Some(x);
    SameOffset(env, i, j);
  }

  lemma SendableSeen(env: Env, leads: nat -> bool, t: State, i: nat)
    requires WellFormed(Seen(env, leads)) && i < |env.log|
    requires Sound(Seen(env, leads), t) && OnlyRefused(Seen(env, leads), t) && Finished(Seen(env, leads), t)
    requires t.start == 0 && Sendable(Seen(env, leads), i)
    ensures Sent(Seen(env, leads), t, i)
  {
    hide CommitPoint, ValidateEvent, Settled, InSession, OnlyRefused, WellFormed;
    FinishedDone(Seen(env, leads), t, i);
    SendableNotDead(Seen(env, leads), t, i);
  }

  /**
   * The same for sending, and for every record of the log, committed or not: a complete session without crashes
   * has sent a record if and only if it was led through it to a commit.
   */
  lemma SentExactlyWhenLed(env: Env, leads: nat -> bool, steps: seq<Step>, i: nat)
    requires WellFormed(env) && Follows(env, steps, leads) && Finished(env, Exec(env, INITIAL, steps))
    requires i < |env.log|
    ensures Sent(env, Exec(env, INITIAL, steps), i) <==> SendableLed(env, leads, i)
  {
    hide Exec, Sendable, SendableLed, WellFormed, OnlyRefused, Follows, InSession, Settled, OnlySendable;
    var seen := Seen(env, leads);
    RunMatches(env, leads, steps);
    SeenWellFormed(env, leads);
    RunsSound(seen, Led(steps));
    OnlyRefusedDead(seen, Led(steps));
    SeenSendable(env, leads, i);
    var s, t := Exec(env, INITIAL, steps), Exec(seen, INITIAL, Led(steps));
    if Sent(env, s, i) {
      SentSeen(env, leads, s, t, i);
    } else if SendableLed(env, leads, i) {
      SendableSeen(env, leads, t, i);
      LedRecordSeen(env, leads, i);
    }
  }

  lemma LedRecordSeen(env: Env, leads: nat -> bool, i: nat)
    requires i < |env.log| && SendableLed(env, leads, i)
    ensures Seen(env, leads).log[i] == env.log[i]
  {
  }

  lemma AllDoneExactlyWhenLed(env: Env, leads: nat -> bool, steps: seq<Step>)
    requires WellFormed(env) && Follows(env, steps, leads) && Finished(env, Exec(env, INITIAL, steps))
    ensures AllDone(env, Exec(env, INITIAL, steps)) <==>
            forall i :: 0 <= i < |env.log| && Committed(env, i) ==> LedThrough(env, leads, i)
  {
    hide Exec, CommitPoint, Done, LedThrough, WellFormed, Follows, Finished;
    forall i: nat | i < |env.log| && Committed(env, i)
      ensures Done(env, Exec(env, INITIAL, steps), i) <==> LedThrough(env, leads, i)
    {
      DoneExactlyWhenLed(env, leads, steps, i);
    }
  }

  // Such sessions exist for every pattern.

  predicate OnlyDeliveries(steps: seq<Step>) {
    forall i :: 0 <= i < |steps| ==> steps[i] == Deliver || steps[i] == Save
  }

  lemma FollowsDeliveries(env: Env, before: seq<Step>, deliveries: seq<Step>, leads: nat -> bool)
    requires Follows(env, before, leads) && OnlyDeliveries(deliveries)
    ensures Follows(env, before + deliveries, leads)
  {
    hide Exec;
    assert forall i :: 0 <= i < |before| ==> (before + deliveries)[..i] == before[..i];
  }

  lemma FollowsPull(env: Env, before: seq<Step>, leads: nat -> bool)
    requires Follows(env, before, leads)
    ensures Follows(env, before + [Pull(leads(Exec(env, INITIAL, before).pos))], leads)
  {
    hide Exec;
    var steps := before + [Pull(leads(Exec(env, INITIAL, before).pos))];
    assert forall i :: 0 <= i <= |before| ==> steps[..i] == before[..i];
    assert before[..|before|] == before;
  }

  lemma {:induction false} Drain(env: Env, s: State) returns (steps: seq<Step>)
    requires s.unsaved.None?
    ensures OnlyDeliveries(steps)
    ensures
      var t := Exec(env, s, steps);
      t.outbox == [] && t.unsaved.None? && t.pos == s.pos
    decreases |s.outbox|
  {
    if s.outbox == [] {
      steps := [];
    } else {
      ExecTwo(env, s, Deliver, Save);
      var rest := Drain(env, Next(env, Next(env, s, Deliver), Save));
      steps := [Deliver, Save] + rest;
      ExecConcat(env, s, [Deliver, Save], rest);
    }
  }

  lemma {:induction false} SessionTo(env: Env, leads: nat -> bool, p: nat) returns (steps: seq<Step>)
    requires p <= |env.log|
    ensures Follows(env, steps, leads)
    ensures
      var s := Exec(env, INITIAL, steps);
      s.pos == p && s.outbox == [] && s.unsaved.None?
  {
    if p == 0 {
      steps := [];
    } else {
      var before := SessionTo(env, leads, p - 1);
      var s := Exec(env, INITIAL, before);
      FollowsPull(env, before, leads);
      var pulled := before + [Pull(leads(s.pos))];
      ExecConcat(env, INITIAL, before, [Pull(leads(s.pos))]);
      ExecOne(env, s, Pull(leads(s.pos)));
      PullMoves(env, s, leads(s.pos));
      var rest := Drain(env, Next(env, s, Pull(leads(s.pos))));
      FollowsDeliveries(env, pulled, rest, leads);
      steps := pulled + rest;
      ExecConcat(env, INITIAL, pulled, rest);
    }
  }

  lemma PullMoves(env: Env, s: State, leader: bool)
    requires s.outbox == [] && s.unsaved.None? && s.pos < |env.log|
    ensures Next(env, s, Pull(leader)).pos == s.pos + 1 && Next(env, s, Pull(leader)).unsaved.None?
  {
  }

  /**
   * So the premise of leadership cannot be dropped for a single record of any log: not being leader at the one
   * pull of a committed record finishes the log without it.
   */
  lemma LeadershipGapLoses(env: Env, a: nat) returns (steps: seq<Step>)
    requires WellFormed(env) && Committed(env, a)
    ensures Follows(env, steps, p => p != a)
    ensures
      var s := Exec(env, INITIAL, steps);
      Finished(env, s) && !Done(env, s, a)
  {
    hide Exec, WellFormed, Follows;
    steps := SessionTo(env, p => p != a, |env.log|);
    DoneExactlyWhenLed(env, p => p != a, steps, a);
  }
}
