/** The ingest task itself: the loop body over its filters, buffer and store, proved to be a run of the model. */
module IngestTasks {
  import opened Wrappers
  import opened Events
  import opened Deduplication
  import opened TransactionBuffers
  import opened SchemaRegistry
  import opened StateStores
  import opened PostgresSource
  import opened Watermarks
  import opened IngestModel
  import opened IngestSession
  import opened IngestSoundness
  import opened IngestTheorems
  import opened IngestLeadership

  const SOURCE_ID := "postgres_users"

  /** The failover controller's view of where to resume: the stored offset, if any. */
  function ResumeCheckpointOffset(store: StateStore, sourceId: string): Option<string>
    requires store.Valid()
    reads store
  {
    store.GetOffset(sourceId)
  }

  lemma StepAfter(env: Env, trace: seq<Step>, step: Step)
    ensures Exec(env, INITIAL, trace + [step]) == Next(env, Exec(env, INITIAL, trace), step)
  {
    hide Next, Exec;
    ExecConcat(env, INITIAL, trace, [step]);
    ExecOne(env, Exec(env, INITIAL, trace), step);
  }

  lemma NoSteps(env: Env)
    ensures Exec(env, INITIAL, []) == INITIAL
    ensures StartSequence(None) == 0
  {
  }

  lemma PositionBounded(env: Env, trace: seq<Step>)
    requires WellFormed(env) && AlwaysLeader(trace)
    ensures Exec(env, INITIAL, trace).pos <= |env.log|
  {
    RunsSound(env, trace);
  }

  lemma PullReceives(env: Env, s: State, leader: bool)
    requires s.outbox == [] && s.unsaved.None? && s.pos < |env.log|
    ensures
      var t := s.(pos := s.pos + 1);
      Next(env, s, Pull(leader)) == if leader then Receive(env, t, env.log[s.pos]) else t
  {
  }

  lemma CrashBoots(env: Env, trace: seq<Step>)
    ensures
      var s := Exec(env, INITIAL, trace);
      Exec(env, INITIAL, trace + [Crash])
      == IngestModel.State.State(
           s.checkpoint, s.sent, s.dead, s.crashes + 1, s.checkpoint, s.checkpoint, [], [], [], None)
  {
    hide Exec;
    StepAfter(env, trace, Crash);
  }

  /** Delivering the head of the outbox and saving at once. */
  function DeliverHead(env: Env, s: State): State
    requires s.outbox != []
  {
    match env.transform(s.outbox[0])
    case Some(x) => s.(checkpoint := StartSequence(Some(x.offset)), sent := s.sent + [x], outbox := s.outbox[1..])
    case None => s.(dead := s.dead + [s.outbox[0]], outbox := s.outbox[1..])
  }

  lemma DeliverAfter(env: Env, trace: seq<Step>)
    requires Exec(env, INITIAL, trace).outbox != [] && Exec(env, INITIAL, trace).unsaved.None?
    ensures Exec(env, INITIAL, trace + [Deliver, Save]) == DeliverHead(env, Exec(env, INITIAL, trace))
  {
    hide Exec, StartSequence;
    ExecConcat(env, INITIAL, trace, [Deliver, Save]);
    ExecTwo(env, Exec(env, INITIAL, trace), Deliver, Save);
  }

  class IngestTask {
    const env: Env
    const store: StateStore
    var dedupFilter: DeduplicationFilter
    var watermarkEngine: WatermarkSnapshotter
    var txBuffer: TransactionBuffer
    var position: nat
    var sent: seq<ChangeEvent>
    var dead: seq<ChangeEvent>
    ghost var start: nat
    ghost var crashes: nat
    /** The run of the model this task has performed so far. */
    ghost var trace: seq<Step>

    ghost predicate Consistent()
      reads this, store, dedupFilter, watermarkEngine, txBuffer
    {
      && store.Valid() && dedupFilter.Valid() && watermarkEngine.Valid() && txBuffer.Valid()
      && store.GetSchema(SOURCE_ID) == env.schema
      && dedupFilter.maxCapacity == DEDUP_CAPACITY
    }

    ghost function State(outbox: seq<ChangeEvent>): State
      requires store.Valid()
      reads this, store, dedupFilter, txBuffer
    {
      IngestModel.State.State(
        StartSequence(store.GetOffset(SOURCE_ID)), sent, dead, crashes,
        start, position, dedupFilter.accepted, txBuffer.history, outbox, None)
    }

    ghost predicate Valid()
      reads this, store, dedupFilter, watermarkEngine, txBuffer
    {
      Consistent() && State([]) == Exec(env, INITIAL, trace)
    }

    /** The first start, on a store that has no offset for this source yet. */
    constructor (env: Env, store: StateStore)
      requires store.Valid() && store.GetOffset(SOURCE_ID) == None && store.GetSchema(SOURCE_ID) == env.schema
      ensures Valid() && trace == [] && this.env == env && this.store == store
      ensures fresh(dedupFilter) && fresh(watermarkEngine) && fresh(txBuffer)
    {
      hide StartSequence, Exec;
      hide StateStore.Valid, DeduplicationFilter.Valid, WatermarkSnapshotter.Valid, TransactionBuffer.Valid;
      this.env := env;
      this.store := store;
      dedupFilter := new DeduplicationFilter(DEDUP_CAPACITY);
      watermarkEngine := new WatermarkSnapshotter();
      txBuffer := new TransactionBuffer();
      position, sent, dead, start, crashes, trace := 0, [], [], 0, 0, [];
      new;
      NoSteps(env);
    }

    /** The filters and buffers a session starts with. */
    method NewComponents()
      modifies this`dedupFilter, this`watermarkEngine, this`txBuffer
      ensures dedupFilter.Valid() && watermarkEngine.Valid() && txBuffer.Valid()
      ensures dedupFilter.maxCapacity == DEDUP_CAPACITY && dedupFilter.accepted == [] && txBuffer.history == []
      ensures fresh(dedupFilter) && fresh(watermarkEngine) && fresh(txBuffer)
    {
      hide DeduplicationFilter.Valid, WatermarkSnapshotter.Valid, TransactionBuffer.Valid;
      dedupFilter := new DeduplicationFilter(DEDUP_CAPACITY);
      watermarkEngine := new WatermarkSnapshotter();
      txBuffer := new TransactionBuffer();
    }

    /** A restart: new filters and buffers, and the position read back from the store. */
    method Restart()
      requires Valid()
      modifies this
      ensures Valid() && trace == old(trace) + [Crash]
      ensures fresh(dedupFilter) && fresh(watermarkEngine) && fresh(txBuffer)
    {
      hide StartSequence, Exec, Next, Boot, StateStore.GetOffset, StateStore.GetSchema;
      hide StateStore.Valid, DeduplicationFilter.Valid, WatermarkSnapshotter.Valid, TransactionBuffer.Valid;
      CrashBoots(env, trace);
      NewComponents();
      var lastOffset := ResumeCheckpointOffset(store, SOURCE_ID);
      if lastOffset.None? {
        lastOffset := store.GetOffset(SOURCE_ID);
      }
      position := StartSequence(lastOffset);
      start, crashes, trace := position, crashes + 1, trace + [Crash];
    }

    /** Deduplicates, validates, filters and buffers one event; what the buffer releases is to be delivered. */
    method ReceiveEvent(event: ChangeEvent) returns (released: seq<ChangeEvent>)
      requires Consistent()
      modifies this`dead, dedupFilter, watermarkEngine, txBuffer
      ensures Consistent() && State(released) == Receive(env, old(State([])), event)
      ensures watermarkEngine.State()
           == if event.id in Last(old(dedupFilter.accepted), DEDUP_CAPACITY) || ValidateEvent(env.schema, event).Err?
              then old(watermarkEngine.State())
              else Observe(old(watermarkEngine.State()), event)
    {
      hide StartSequence, ValidateEvent, Emitted, Last, StateStore.GetOffset;
      hide StateStore.Valid, DeduplicationFilter.Valid, WatermarkSnapshotter.Valid, TransactionBuffer.Valid;
      released := [];
      var duplicate := dedupFilter.CheckAndTrack(event.id);
      if duplicate {
        return;
      }
      var verdict := ValidateEvent(store.GetSchema(SOURCE_ID), event);
      if verdict.Err? {
        dead := dead + [event];
        return;
      }
      var forwarded := watermarkEngine.ProcessReplicationEvent(event);
      if forwarded.None? {
        return;
      }
      released := txBuffer.Process(forwarded.value);
    }

    /** The body of the loop for one pulled event, up to and including the delivery of what it releases. */
    method HandleNext(leader: bool) returns (ghost steps: seq<Step>)
      requires Valid() && position < |env.log|
      modifies this`position, this`sent, this`dead, this`trace, store, dedupFilter, watermarkEngine, txBuffer
      ensures Valid() && position == old(position) + 1
      ensures trace == old(trace) + [Pull(leader)] + steps && OnlyDeliveries(steps)
    {
      hide StartSequence, Exec, Next, Receive, StateStore.GetOffset;
      hide StateStore.Valid, DeduplicationFilter.Valid, WatermarkSnapshotter.Valid, TransactionBuffer.Valid;
      var event := env.log[position];
      ghost var before := State([]);
      StepAfter(env, trace, Pull(leader));
      PullReceives(env, before, leader);
      position := position + 1;
      trace := trace + [Pull(leader)];
      steps := [];
      if leader {
        var released := ReceiveEvent(event);
        steps := DeliverAll(released);
      }
    }

    /** Transforms and sends each mutation and saves its offset, or dead-letters it. */
    method DeliverAll(mutations: seq<ChangeEvent>) returns (ghost steps: seq<Step>)
      requires Consistent() && State(mutations) == Exec(env, INITIAL, trace)
      modifies this`sent, this`dead, this`trace, store
      ensures Valid()
      ensures trace == old(trace) + steps && OnlyDeliveries(steps)
    {
      hide StartSequence, Exec, StateStore.GetOffset, StateStore.GetSchema;
      hide StateStore.Valid, DeduplicationFilter.Valid, WatermarkSnapshotter.Valid, TransactionBuffer.Valid;
      steps := [];
      assert mutations[0..] == mutations;
      assert trace == trace + steps;
      for i := 0 to |mutations|
        invariant Consistent()
        invariant State(mutations[i..]) == Exec(env, INITIAL, trace)
        invariant trace == old(trace) + steps && OnlyDeliveries(steps)
      {
        var e := mutations[i];
        ghost var s := State(mutations[i..]);
        assert mutations[i..][1..] == mutations[i + 1..];
        match env.transform(e) {
          case Some(transformed) =>
            sent := sent + [transformed];
            store.SaveOffset(SOURCE_ID, transformed.offset);
          case None =>
            dead := dead + [e];
        }
        DeliverAfter(env, trace);
        steps := steps + [Deliver, Save];
        assert trace + [Deliver, Save] == old(trace) + steps;
        trace := trace + [Deliver, Save];
      }
      assert mutations[|mutations|..] == [];
    }

    /** One session from the current position to the end of the log. */
    method Run(leads: nat -> bool)
      requires Valid()
      modifies this`position, this`sent, this`dead, this`trace, store, dedupFilter, watermarkEngine, txBuffer
      ensures Valid() && position >= |env.log|
      ensures AlwaysLeader(old(trace)) && (forall n :: leads(n)) ==> AlwaysLeader(trace)
      ensures WellFormed(env) && CommitsInLogOrder(env) && AlwaysLeader(trace) ==> AllDone(env, State([]))
      ensures WellFormed(env) && Follows(env, old(trace), leads) ==>
                forall i :: 0 <= i < |env.log| && Committed(env, i) ==>
                  (Done(env, State([]), i) <==> LedThrough(env, leads, i))
    {
      hide StartSequence, Exec, WellFormed, CommitsInLogOrder, AllDone, CheckpointSafe, Sound, Follows;
      hide StateStore.Valid, DeduplicationFilter.Valid, WatermarkSnapshotter.Valid, TransactionBuffer.Valid;
      while position < |env.log|
        invariant Valid()
        invariant AlwaysLeader(old(trace)) && (forall n :: leads(n)) ==> AlwaysLeader(trace)
        invariant Follows(env, old(trace), leads) ==> Follows(env, trace, leads)
        decreases |env.log| - position
      {
        ghost var before := trace;
        ghost var steps := HandleNext(leads(position));
        if Follows(env, before, leads) {
          FollowsPull(env, before, leads);
          FollowsDeliveries(env, before + [Pull(leads(position - 1))], steps, leads);
        }
      }
      if WellFormed(env) && CommitsInLogOrder(env) && AlwaysLeader(trace) {
        PositionBounded(env, trace);
        InOrderRunSafe(env, trace);
      }
      if WellFormed(env) && Follows(env, trace, leads) {
        SessionDone(env, leads, trace);
      }
    }
  }

  lemma SessionDone(env: Env, leads: nat -> bool, trace: seq<Step>)
    requires WellFormed(env) && Follows(env, trace, leads)
    requires
      var s := Exec(env, INITIAL, trace);
      s.pos >= |env.log| && s.outbox == [] && s.unsaved.None?
    ensures forall i :: 0 <= i < |env.log| && Committed(env, i) ==>
              (Done(env, Exec(env, INITIAL, trace), i) <==> LedThrough(env, leads, i))
  {
    hide Exec, WellFormed, Follows, CommitPoint, LedThrough, Done;
    RunMatches(env, leads, trace);
    forall i: nat | i < |env.log| && Committed(env, i)
      ensures Done(env, Exec(env, INITIAL, trace), i) <==> LedThrough(env, leads, i)
    {
      DoneExactlyWhenLed(env, leads, trace, i);
    }
  }
}
