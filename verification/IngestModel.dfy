/**
 * The ingest loop as a state machine over an offset-numbered log. Sinks, dead letters and the checkpoint
 * survive a crash; everything else belongs to one session and is lost with it.
 */
module IngestModel {
  import opened Wrappers
  import opened Events
  import opened Decimal
  import opened Deduplication
  import opened TransactionBuffers
  import opened SchemaRegistry
  import opened PostgresSource

  const DEDUP_CAPACITY: nat := 1000

  /** What a run cannot change: the log, the schema in force and the transformer, which may fail. */
  datatype Env = Env(
    log: seq<ChangeEvent>,
    schema: Option<Json>,
    transform: ChangeEvent -> Option<ChangeEvent>)

  /** `checkpoint` is the sequence number that the saved offset denotes, 0 before any save. */
  datatype State = State(
    checkpoint: nat,
    sent: seq<ChangeEvent>,
    dead: seq<ChangeEvent>,
    crashes: nat,
    // of the current session
    start: nat,
    pos: nat,
    accepted: seq<string>,
    history: History,
    outbox: seq<ChangeEvent>,
    unsaved: Option<string>)

  const INITIAL := State(0, [], [], 0, 0, 0, [], [], [], None)

  /** A task starting up: it reads the checkpoint and begins with empty filters and buffers. */
  function Boot(s: State): State {
    s.(start := s.checkpoint, pos := s.checkpoint, accepted := [], history := [], outbox := [], unsaved := None)
  }

  /** One pulled event: deduplicate, validate or dead-letter, drop watermark rows, buffer. */
  function Receive(env: Env, s: State, e: ChangeEvent): State {
    if e.id in Last(s.accepted, DEDUP_CAPACITY) then s
    else
      var t := s.(accepted := s.accepted + [e.id]);
      if ValidateEvent(env.schema, e).Err? then t.(dead := t.dead + [e])
      else if IsWatermark(e) then t
      else t.(history := t.history + [Feed(e)], outbox := Emitted(t.history, e))
  }

  /** A pull made while not leader discards its event. */
  datatype Step = Pull(leader: bool) | Deliver | Save | Crash

  /** A step that is not enabled changes nothing. */
  function Next(env: Env, s: State, step: Step): State {
    match step
    case Pull(leader) =>
      if s.outbox != [] || s.unsaved.Some? || s.pos >= |env.log| then s
      else
        var t := s.(pos := s.pos + 1);
        if leader then Receive(env, t, env.log[s.pos]) else t
    case Deliver =>
      if s.outbox == [] || s.unsaved.Some? then s
      else
        var e := s.outbox[0];
        (match env.transform(e)
         case None => s.(dead := s.dead + [e], outbox := s.outbox[1..])
         case Some(x) => s.(sent := s.sent + [x], outbox := s.outbox[1..], unsaved := Some(x.offset)))
    case Save =>
      if s.unsaved.None? then s else s.(checkpoint := StartSequence(s.unsaved), unsaved := None)
    case Crash =>
      Boot(s.(crashes := s.crashes + 1))
  }

  /** Any sequence of steps is a run. */
  function Exec(env: Env, s: State, steps: seq<Step>): State {
    if steps == [] then s else Next(env, Exec(env, s, steps[..|steps| - 1]), steps[|steps| - 1])
  }

  lemma {:induction false} ExecConcat(env: Env, s: State, a: seq<Step>, b: seq<Step>)
    ensures Exec(env, s, a + b) == Exec(env, Exec(env, s, a), b)
  {
    if b == [] {
      assert a + b == a;
    } else {
      ExecConcat(env, s, a, b[..|b| - 1]);
      assert (a + b)[..|a + b| - 1] == a + b[..|b| - 1];
    }
  }

  predicate AlwaysLeader(steps: seq<Step>) {
    forall i :: 0 <= i < |steps| ==> steps[i] != Pull(false)
  }

  /** Nothing left to pull, deliver or save. */
  predicate Finished(env: Env, s: State) {
    s.pos == |env.log| && s.outbox == [] && s.unsaved == None
  }

  // The premises about the log and the transformer.

  predicate DistinctIds(log: seq<ChangeEvent>) {
    forall i, j :: 0 <= i < j < |log| ==> log[i].id != log[j].id
  }

  ghost predicate WellFormed(env: Env) {
    && |env.log| < U64_LIMIT
    && (forall i :: 0 <= i < |env.log| ==> env.log[i].offset == ToText(i + 1))
    && DistinctIds(env.log)
    && (forall e :: env.transform(e).Some? ==> env.transform(e).value.offset == e.offset)
  }

  // What the log itself says about each of its records.

  predicate ClosesInLog(e: ChangeEvent, tx: string) {
    !IsWatermark(e) && Closes(e, tx)
  }

  /** The first record at or after `from` that commits or rolls back the transaction. */
  function NextClose(log: seq<ChangeEvent>, tx: string, from: nat): (r: Option<nat>)
    ensures r.Some? ==>
              && from <= r.value < |log| && ClosesInLog(log[r.value], tx)
              && forall q :: from <= q < r.value ==> !ClosesInLog(log[q], tx)
    ensures r.None? ==> forall q :: from <= q < |log| ==> !ClosesInLog(log[q], tx)
    decreases |log| - from
  {
    if from >= |log| then None
    else if ClosesInLog(log[from], tx) then Some(from)
    else NextClose(log, tx, from + 1)
  }

  /**
   * Where record `i` is committed: at once without a transaction, at its transaction's next control record if
   * that is a commit, nowhere if it is rolled back, still open, or no mutation of a table at all.
   */
  function CommitPoint(log: seq<ChangeEvent>, i: nat): Option<nat>
    requires i < |log|
  {
    if IsWatermark(log[i]) then None
    else
      match log[i].transactionId
      case None => Some(i)
      case Some(tx) =>
        if log[i].IsControl() then None
        else
          match NextClose(log, tx, i + 1)
          case None => None
          case Some(p) => if log[p].operation == Commit then Some(p) else None
  }

  predicate Committed(env: Env, i: nat) {
    i < |env.log| && CommitPoint(env.log, i).Some?
  }

  predicate Valid(env: Env, i: nat) {
    i < |env.log| && ValidateEvent(env.schema, env.log[i]).Ok?
  }

  /** Record `i` can reach the sinks: committed, valid and accepted by the transformer. */
  predicate Sendable(env: Env, i: nat) {
    Committed(env, i) && Valid(env, i) && env.transform(env.log[i]).Some?
  }

  /**
   * Commit order agrees with log order: no valid record is committed later than a sendable record that
   * follows it in the log.
   */
  predicate CommitsInLogOrder(env: Env) {
    forall a, b :: 0 <= a < b < |env.log| && Committed(env, a) && Valid(env, a) && Sendable(env, b) ==>
      CommitPoint(env.log, a).value <= CommitPoint(env.log, b).value
  }

  /** The same of sendable records among themselves only. */
  predicate SendablesInLogOrder(env: Env) {
    forall a, b :: 0 <= a < b < |env.log| && Sendable(env, a) && Sendable(env, b) ==>
      CommitPoint(env.log, a).value <= CommitPoint(env.log, b).value
  }

  // What a run has achieved.

  predicate Sent(env: Env, s: State, i: nat) {
    && i < |env.log|
    && env.transform(env.log[i]).Some?
    && env.transform(env.log[i]).value in s.sent
  }

  predicate Done(env: Env, s: State, i: nat) {
    i < |env.log| && (Sent(env, s, i) || env.log[i] in s.dead)
  }

  /** Every committed record at or below the checkpoint has been sent or dead-lettered. */
  predicate CheckpointSafe(env: Env, s: State) {
    forall i :: 0 <= i < |env.log| && i < s.checkpoint && Committed(env, i) ==> Done(env, s, i)
  }

  predicate AllDone(env: Env, s: State) {
    forall i :: 0 <= i < |env.log| && Committed(env, i) ==> Done(env, s, i)
  }

  /** No run, however often it crashes, loses a committed record. */
  ghost predicate NoLoss(env: Env) {
    forall steps :: AlwaysLeader(steps) ==>
      var s := Exec(env, INITIAL, steps);
      CheckpointSafe(env, s) && (Finished(env, s) ==> AllDone(env, s))
  }
}
