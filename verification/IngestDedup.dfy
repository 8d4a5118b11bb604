/** Deduplication in the ingest loop, over logs that repeat ids at will. */
module IngestDedup {
  import opened Wrappers
  import opened Events
  import opened Deduplication
  import opened TransactionBuffers
  import opened SchemaRegistry
  import opened IngestModel
  import opened IngestSession
  import opened IngestSoundness
  import opened IngestTheorems

  /** The ids the current session has pulled, in order. */
  function PulledIds(env: Env, s: State): seq<string> {
    if s.start <= s.pos <= |env.log| then Ids(env.log[s.start..s.pos]) else []
  }

  /** The session accepts the ids it pulls as the filter specification says, over a window of a thousand. */
  predicate TracksIds(env: Env, s: State) {
    && s.start <= s.pos && (s.pos <= |env.log| || s.pos == s.start)
    && s.accepted == Accepted(PulledIds(env, s), 1000)
  }

  predicate Pullable(env: Env, s: State) {
    s.outbox == [] && s.unsaved.None? && s.pos < |env.log|
  }

  /**
   * One pull as leader, on every branch: an id among the last thousand accepted is skipped and nothing but the
   * position changes; otherwise the id is accepted, and the event is dead-lettered if it is invalid, dropped if it
   * is a watermark row, and else fed to the buffer.
   */
  lemma PullExactly(env: Env, s: State)
    requires Pullable(env, s)
    ensures
      var e := env.log[s.pos];
      var t := Next(env, s, Pull(true));
      var moved := s.(pos := s.pos + 1);
      if e.id in Last(s.accepted, 1000) then t == moved
      else
        var seen := moved.(accepted := s.accepted + [e.id]);
        if !Accepts(env.schema, e) then t == seen.(dead := s.dead + [e])
        else if IsWatermark(e) then t == seen
        else t == seen.(history := s.history + [Feed(e)], outbox := Emitted(s.history, e))
  {
    hide Last, Emitted;
  }

  lemma AcceptedExtends(ids: seq<string>, id: string)
    ensures
      var before := Accepted(ids, 1000);
      Accepted(ids + [id], 1000) == if id in Last(before, 1000) then before else before + [id]
  {
    hide Last;
    assert (ids + [id])[..|ids|] == ids;
  }

  lemma PulledIdsExtend(env: Env, s: State, t: State)
    requires s.start <= s.pos < |env.log| && t.start == s.start && t.pos == s.pos + 1
    ensures PulledIds(env, t) == PulledIds(env, s) + [env.log[s.pos].id]
  {
    hide Ids;
    IdsExtend(env.log, s.start, s.pos);
  }

  lemma PullTracksIds(env: Env, s: State)
    requires TracksIds(env, s) && Pullable(env, s)
    ensures TracksIds(env, Next(env, s, Pull(true)))
  {
    hide Next, Accepted, Last, PulledIds, Accepts, Emitted;
    PullExactly(env, s);
    PulledIdsExtend(env, s, Next(env, s, Pull(true)));
    AcceptedExtends(PulledIds(env, s), env.log[s.pos].id);
  }

  /** Only a pull as leader touches what the session pulled and accepted, and only a crash forgets it. */
  lemma OtherSteps(env: Env, s: State, step: Step)
    requires step != Pull(false) && !(step.Pull? && Pullable(env, s))
    ensures
      var t := Next(env, s, step);
      if step == Crash then t.start == t.pos && t.accepted == [] && t.history == [] && t.outbox == []
      else t.start == s.start && t.pos == s.pos && t.accepted == s.accepted && t.history == s.history
  {
    hide Receive;
  }

  lemma StepTracksIds(env: Env, s: State, step: Step)
    requires TracksIds(env, s) && step != Pull(false)
    ensures TracksIds(env, Next(env, s, step))
  {
    hide Next, Accepted;
    if step.Pull? && Pullable(env, s) {
      PullTracksIds(env, s);
    } else {
      OtherSteps(env, s, step);
      NoneAccepted(env, Next(env, s, step));
    }
  }

  lemma NoneAccepted(env: Env, s: State)
    ensures Accepted([], 1000) == []
    ensures s.start == s.pos ==> PulledIds(env, s) == []
  {
  }

  /** In every led run over any log at all, what a session has accepted is what the filter accepts of its ids. */
  lemma {:induction false} RunsTrackIds(env: Env, steps: seq<Step>)
    requires AlwaysLeader(steps)
    ensures TracksIds(env, Exec(env, INITIAL, steps))
  {
    hide Next, TracksIds;
    if steps == [] {
      assert TracksIds(env, INITIAL) by { InitialTracksIds(env); }
    } else {
      LeaderPrefix(steps);
      RunsTrackIds(env, steps[..|steps| - 1]);
      StepTracksIds(env, Exec(env, INITIAL, steps[..|steps| - 1]), steps[|steps| - 1]);
    }
  }

  lemma InitialTracksIds(env: Env)
    ensures TracksIds(env, INITIAL)
  {
  }

  /**
   * So a led run skips a pulled event exactly when its id is among the last thousand ids the session accepted, and
   * skipping it leaves no trace but the position.
   */
  lemma DuplicatesSkipped(env: Env, steps: seq<Step>)
    requires AlwaysLeader(steps) && Pullable(env, Exec(env, INITIAL, steps))
    ensures
      var s := Exec(env, INITIAL, steps);
      var t := Exec(env, INITIAL, steps + [Pull(true)]);
      && s.start <= s.pos
      && (t == s.(pos := s.pos + 1) <==>
          env.log[s.pos].id in Last(Accepted(Ids(env.log[s.start..s.pos]), 1000), 1000))
  {
    var s := Exec(env, INITIAL, steps);
    hide Exec, Next, Last, Accepted, Ids;
    RunsTrackIds(env, steps);
    ExecConcat(env, INITIAL, steps, [Pull(true)]);
    ExecOne(env, s, Pull(true));
    PullExactly(env, s);
  }

  // How often one id can be sent.

  /** A delivery takes the head of the outbox. */
  predicate Delivers(s: State, step: Step) {
    step == Deliver && s.outbox != [] && s.unsaved.None?
  }

  /** The records taken from the outbox since the last crash. */
  function DeliveredNow(env: Env, steps: seq<Step>): seq<ChangeEvent> {
    if steps == [] then []
    else
      var front, last := steps[..|steps| - 1], steps[|steps| - 1];
      var s := Exec(env, INITIAL, front);
      if last == Crash then []
      else if Delivers(s, last) then DeliveredNow(env, front) + [s.outbox[0]]
      else DeliveredNow(env, front)
  }

  /** The records whose transformed forms a run has sent, in order. */
  function SentRecords(env: Env, steps: seq<Step>): seq<ChangeEvent> {
    if steps == [] then []
    else
      var front, last := steps[..|steps| - 1], steps[|steps| - 1];
      var s := Exec(env, INITIAL, front);
      if Delivers(s, last) && env.transform(s.outbox[0]).Some? then SentRecords(env, front) + [s.outbox[0]]
      else SentRecords(env, front)
  }

  lemma {:induction false} SentRecordsAreSent(env: Env, steps: seq<Step>)
    ensures
      var s, r := Exec(env, INITIAL, steps), SentRecords(env, steps);
      && |s.sent| == |r|
      && forall k :: 0 <= k < |r| ==> env.transform(r[k]) == Some(s.sent[k])
  {
    if steps != [] {
      SentRecordsAreSent(env, steps[..|steps| - 1]);
    }
  }

  function CountId(es: seq<ChangeEvent>, id: string): nat {
    if es == [] then 0 else CountId(es[..|es| - 1], id) + if es[|es| - 1].id == id then 1 else 0
  }

  lemma CountIdExtends(es: seq<ChangeEvent>, e: ChangeEvent, id: string)
    ensures CountId(es + [e], id) == CountId(es, id) + if e.id == id then 1 else 0
  {
    assert (es + [e])[..|es|] == es;
  }

  lemma {:induction false} CountDistinct(es: seq<ChangeEvent>, id: string)
    requires DistinctIdsOf(es)
    ensures CountId(es, id) <= 1
    ensures CountId(es, id) == 1 ==> exists i :: 0 <= i < |es| && es[i].id == id
  {
    if es != [] {
      var front := es[..|es| - 1];
      CountDistinct(front, id);
      if CountId(front, id) == 1 {
        var i :| 0 <= i < |front| && front[i].id == id;
        assert es[i].id == id;
      }
    }
  }

  /** Whenever an id recurs, in a session from anywhere, it is among the last thousand ids accepted. */
  predicate RecursInWindow(log: seq<ChangeEvent>) {
    forall k, j :: 0 <= k <= j < |log| && log[j].id in Ids(log[k..j]) ==>
      log[j].id in Last(Accepted(Ids(log[k..j]), 1000), 1000)
  }

  /** That is so in any log in which no id recurs more than a thousand records later. */
  lemma CloseRecurrence(log: seq<ChangeEvent>)
    requires forall i, j :: 0 <= i < j < |log| && log[i].id == log[j].id ==> j - i <= 1000
    ensures RecursInWindow(log)
  {
    hide Last, Accepted, Ids;
    forall k: nat, j: nat | k <= j < |log| && log[j].id in Ids(log[k..j])
      ensures log[j].id in Last(Accepted(Ids(log[k..j]), 1000), 1000)
    {
      CloseRecurrenceAt(log, k, j);
    }
  }

  lemma CloseRecurrenceAt(log: seq<ChangeEvent>, k: nat, j: nat)
    requires k <= j < |log| && log[j].id in Ids(log[k..j])
    requires forall i :: 0 <= i < j && log[i].id == log[j].id ==> j - i <= 1000
    ensures log[j].id in Last(Accepted(Ids(log[k..j]), 1000), 1000)
  {
    hide Last, Accepted;
    var ids := Ids(log[k..j]);
    var p := AcceptedRecently(ids, 1000, log[j].id);
    assert log[k + p].id == log[j].id;
    RecentWidens(Accepted(ids, 1000), |ids| - p, 1000, log[j].id);
  }

  /** What the current session has released it has delivered or is about to, and it was fed no id twice. */
  predicate ReleasesOnce(env: Env, s: State, delivered: seq<ChangeEvent>) {
    && delivered + s.outbox == ReleasedAll(s.history)
    && DistinctFeeds(s.history)
    && (forall i :: 0 <= i < |s.history| && s.history[i].Feed? ==> s.history[i].event.id in s.accepted)
  }

  lemma FreshIsNew(env: Env, s: State)
    requires RecursInWindow(env.log) && TracksIds(env, s) && Pullable(env, s)
    requires env.log[s.pos].id !in Last(s.accepted, 1000)
    ensures env.log[s.pos].id !in s.accepted
  {
    hide Last, Accepted;
    EveryIdAccepted(PulledIds(env, s), 1000, env.log[s.pos].id);
  }

  lemma ReleasedAllExtends(h: History, e: ChangeEvent)
    ensures ReleasedAll(h + [Feed(e)]) == ReleasedAll(h) + Emitted(h, e)
  {
    assert Front(h + [Feed(e)]) == h;
  }

  lemma PullReleasesOnce(env: Env, s: State, delivered: seq<ChangeEvent>)
    requires RecursInWindow(env.log) && TracksIds(env, s) && Pullable(env, s)
    requires ReleasesOnce(env, s, delivered)
    ensures ReleasesOnce(env, Next(env, s, Pull(true)), delivered)
  {
    hide Next, Last, Accepted, Emitted, ReleasedAll, TracksIds, RecursInWindow, Accepts;
    PullExactly(env, s);
    ReleasedAllExtends(s.history, env.log[s.pos]);
    if env.log[s.pos].id !in Last(s.accepted, 1000) {
      FreshIsNew(env, s);
    }
  }

  lemma StepReleasesOnce(env: Env, s: State, delivered: seq<ChangeEvent>, step: Step)
    requires RecursInWindow(env.log) && TracksIds(env, s) && step != Pull(false)
    requires ReleasesOnce(env, s, delivered)
    ensures ReleasesOnce(env, Next(env, s, step),
              if step == Crash then [] else if Delivers(s, step) then delivered + [s.outbox[0]] else delivered)
  {
    hide Receive, ReleasedAll, TracksIds, RecursInWindow;
    match step {
      case Pull(_) =>
        if Pullable(env, s) {
          PullReleasesOnce(env, s, delivered);
        }
      case Deliver =>
        if Delivers(s, step) {
          assert s.outbox == [s.outbox[0]] + s.outbox[1..];
          assert delivered + [s.outbox[0]] + s.outbox[1..] == delivered + s.outbox;
        }
      case Save =>
      case Crash =>
        NothingReleased(env, Next(env, s, Crash));
    }
  }

  lemma NothingReleased(env: Env, s: State)
    requires s.history == [] && s.outbox == []
    ensures ReleasesOnce(env, s, [])
  {
  }

  lemma {:induction false} RunsReleaseOnce(env: Env, steps: seq<Step>)
    requires RecursInWindow(env.log) && AlwaysLeader(steps)
    ensures ReleasesOnce(env, Exec(env, INITIAL, steps), DeliveredNow(env, steps))
  {
    hide Next, ReleasesOnce, RecursInWindow, TracksIds;
    if steps == [] {
      NothingReleased(env, INITIAL);
    } else {
      LeaderPrefix(steps);
      var front := steps[..|steps| - 1];
      RunsReleaseOnce(env, front);
      RunsTrackIds(env, front);
      StepReleasesOnce(env, Exec(env, INITIAL, front), DeliveredNow(env, front), steps[|steps| - 1]);
    }
  }

  lemma DeliveredOnce(env: Env, steps: seq<Step>, id: string)
    requires RecursInWindow(env.log) && AlwaysLeader(steps)
    ensures CountId(DeliveredNow(env, steps), id) <= 1
  {
    hide Exec, DeliveredNow, RecursInWindow, ReleasedAll;
    RunsReleaseOnce(env, steps);
    var s, d := Exec(env, INITIAL, steps), DeliveredNow(env, steps);
    ReleasedOnce(s.history);
    var r := ReleasedAll(s.history);
    assert forall i :: 0 <= i < |d| ==> d[i] == r[i];
    CountDistinct(d, id);
  }

  /** Beyond the first, every send of a record with a given id has a crash before it. */
  lemma {:induction false} SendsWithinSessions(env: Env, steps: seq<Step>, id: string)
    requires RecursInWindow(env.log) && AlwaysLeader(steps)
    ensures CountId(SentRecords(env, steps), id) <= Crashes(steps) + CountId(DeliveredNow(env, steps), id)
  {
    hide Exec, RecursInWindow;
    if steps != [] {
      LeaderPrefix(steps);
      var front := steps[..|steps| - 1];
      var s := Exec(env, INITIAL, front);
      SendsWithinSessions(env, front, id);
      DeliveredOnce(env, front, id);
      if Delivers(s, steps[|steps| - 1]) {
        CountIdExtends(SentRecords(env, front), s.outbox[0], id);
        CountIdExtends(DeliveredNow(env, front), s.outbox[0], id);
      }
    }
  }

  /**
   * Deduplication at the sinks: over any log whose ids recur within the window only, in any led run, the sends of
   * records carrying one id are at most one more than the crashes.
   */
  lemma SendsPerId(env: Env, steps: seq<Step>, id: string)
    requires RecursInWindow(env.log) && AlwaysLeader(steps)
    ensures CountId(SentRecords(env, steps), id) <= 1 + Crashes(steps)
  {
    hide SentRecords, DeliveredNow, RecursInWindow;
    SendsWithinSessions(env, steps, id);
    DeliveredOnce(env, steps, id);
  }
}
