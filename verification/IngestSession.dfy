/** What every session of the ingest loop keeps, whatever the order of commits in the log. */
module IngestSession {
  import opened Wrappers
  import opened Events
  import opened Decimal
  import opened Deduplication
  import opened TransactionBuffers
  import opened SchemaRegistry
  import opened PostgresSource
  import opened IngestModel

  /** The indices from `k` up to `m` with a property, in order. */
  ghost function Indices(k: nat, m: nat, p: nat -> bool): (r: seq<nat>)
    ensures forall n :: 0 <= n < |r| ==> k <= r[n] < m && p(r[n])
    ensures forall a, b :: 0 <= a < b < |r| ==> r[a] < r[b]
    ensures forall i :: k <= i < m && p(i) ==> i in r
  {
    if m <= k then []
    else if p(m - 1) then Indices(k, m - 1, p) + [m - 1]
    else Indices(k, m - 1, p)
  }

  lemma {:induction false} IndicesAgree(k: nat, m: nat, p: nat -> bool, q: nat -> bool)
    requires forall i: nat :: k <= i < m ==> p(i) == q(i)
    ensures Indices(k, m, p) == Indices(k, m, q)
  {
    if m > k {
      IndicesAgree(k, m - 1, p, q);
    }
  }

  ghost function At(log: seq<ChangeEvent>, indices: seq<nat>): seq<ChangeEvent>
    requires forall n :: 0 <= n < |indices| ==> indices[n] < |log|
  {
    seq(|indices|, n requires 0 <= n < |indices| => log[indices[n]])
  }

  /** Record `i` gets as far as the transaction buffer. */
  predicate Enters(env: Env, i: nat) {
    Valid(env, i) && !IsWatermark(env.log[i])
  }

  ghost function SessionHistory(env: Env, k: nat, p: nat): History
    requires p <= |env.log|
  {
    if p <= k then []
    else
      var h := SessionHistory(env, k, p - 1);
      if Enters(env, p - 1) then h + [Feed(env.log[p - 1])] else h
  }

  /** Record `i` is released by the commit at `p`. */
  predicate FlushedAt(env: Env, i: nat, p: nat) {
    Enters(env, i) && CommitPoint(env.log, i) == Some(p)
  }

  ghost function Flushing(env: Env, p: nat): nat -> bool {
    (i: nat) => FlushedAt(env, i, p)
  }

  /** What the event at `p` releases in a session started at `k`. */
  ghost function FlushIndices(env: Env, k: nat, p: nat): seq<nat> {
    Indices(k, p + 1, Flushing(env, p))
  }

  /** In the buffer of transaction `tx` when the session stands at `q`. */
  predicate OpenUntil(env: Env, i: nat, q: nat, tx: string) {
    && Enters(env, i) && Opens(env.log[i], tx)
    && (NextClose(env.log, tx, i + 1).None? || NextClose(env.log, tx, i + 1).value >= q)
  }

  ghost function Holding(env: Env, q: nat, tx: string): nat -> bool {
    (i: nat) => OpenUntil(env, i, q, tx)
  }

  ghost function Never(): nat -> bool {
    (i: nat) => false
  }

  /** If any event of a session is valid then so is every control record. */
  lemma ControlsEnter(env: Env, i: nat, p: nat)
    requires Valid(env, i) && p < |env.log| && env.log[p].IsControl() && !IsWatermark(env.log[p])
    ensures Enters(env, p)
  {
  }

  lemma {:induction false} PendingIsOpenIndices(env: Env, k: nat, q: nat, tx: string)
    requires q <= |env.log|
    ensures Pending(SessionHistory(env, k, q), tx) == At(env.log, Indices(k, q, Holding(env, q, tx)))
  {
    hide OpenUntil, Enters, Pending, At, Indices, SessionHistory;
    if q <= k {
      NothingHeldAtStart(env, k, q, tx);
    } else {
      PendingIsOpenIndices(env, k, q - 1, tx);
      if ClosesInLog(env.log[q - 1], tx) {
        NoneHeldAfterClose(env, k, q - 1, tx);
        ClosedBuffer(env, k, q - 1, tx);
      } else {
        OpenBuffer(env, k, q - 1, tx);
      }
    }
  }

  lemma NothingHeldAtStart(env: Env, k: nat, q: nat, tx: string)
    requires q <= k && q <= |env.log|
    ensures Pending(SessionHistory(env, k, q), tx) == [] == At(env.log, Indices(k, q, Holding(env, q, tx)))
  {
    hide Enters, OpenUntil;
  }

  lemma NoneHeldAfterClose(env: Env, k: nat, p: nat, tx: string)
    requires k <= p < |env.log| && ClosesInLog(env.log[p], tx)
    ensures At(env.log, Indices(k, p + 1, Holding(env, p + 1, tx))) == []
  {
    hide Enters;
    IndicesAgree(k, p + 1, Holding(env, p + 1, tx), Never());
    NoIndices(k, p + 1);
  }

  lemma ClosedBuffer(env: Env, k: nat, p: nat, tx: string)
    requires k <= p < |env.log| && ClosesInLog(env.log[p], tx)
    requires Pending(SessionHistory(env, k, p), tx) == At(env.log, Indices(k, p, Holding(env, p, tx)))
    ensures Pending(SessionHistory(env, k, p + 1), tx) == []
  {
    hide OpenTransactions, NextClose;
    var before := Indices(k, p, Holding(env, p, tx));
    if before != [] {
      ControlsEnter(env, before[0], p);
    }
    var h := SessionHistory(env, k, p);
    assert Front(h + [Feed(env.log[p])]) == h;
  }

  /** Record `p` closing nothing of the transaction, what it held before it still holds. */
  lemma OpenAcross(env: Env, k: nat, p: nat, tx: string)
    requires k <= p < |env.log| && !ClosesInLog(env.log[p], tx)
    ensures Indices(k, p, Holding(env, p, tx)) == Indices(k, p, Holding(env, p + 1, tx))
    ensures OpenUntil(env, p, p + 1, tx) <==> Enters(env, p) && Opens(env.log[p], tx)
  {
    hide Indices, Enters;
    forall i: nat | k <= i < p
      ensures Holding(env, p, tx)(i) == Holding(env, p + 1, tx)(i)
    {
      assert NextClose(env.log, tx, i + 1) != Some(p);
    }
    IndicesAgree(k, p, Holding(env, p, tx), Holding(env, p + 1, tx));
  }

  lemma AtExtends(log: seq<ChangeEvent>, indices: seq<nat>, p: nat)
    requires p < |log| && forall n :: 0 <= n < |indices| ==> indices[n] < |log|
    ensures At(log, indices + [p]) == At(log, indices) + [log[p]]
  {
  }

  lemma OpenBuffer(env: Env, k: nat, p: nat, tx: string)
    requires k <= p < |env.log| && !ClosesInLog(env.log[p], tx)
    requires Pending(SessionHistory(env, k, p), tx) == At(env.log, Indices(k, p, Holding(env, p, tx)))
    ensures Pending(SessionHistory(env, k, p + 1), tx)
         == At(env.log, Indices(k, p + 1, Holding(env, p + 1, tx)))
  {
    hide Pending, At, OpenUntil, Valid, Opens;
    OpenAcross(env, k, p, tx);
    PendingAfterFeed(SessionHistory(env, k, p), env.log[p], tx);
    AtExtends(env.log, Indices(k, p, Holding(env, p, tx)), p);
    assert Enters(env, p) ==> !Closes(env.log[p], tx);
    assert Holding(env, p + 1, tx)(p) == OpenUntil(env, p, p + 1, tx);
  }

  lemma FlushedOnlyAt(env: Env, k: nat, p: nat)
    requires k <= p < |env.log| && env.log[p].transactionId.None?
    ensures FlushIndices(env, k, p) == if FlushedAt(env, p, p) then [p] else []
  {
    hide Enters;
    IndicesAgree(k, p, Flushing(env, p), Never());
    NoIndices(k, p);
  }

  lemma FlushedByCommit(env: Env, k: nat, p: nat, tx: string)
    requires k <= p < |env.log| && Enters(env, p)
    requires env.log[p].transactionId == Some(tx) && env.log[p].operation == Commit
    ensures FlushIndices(env, k, p) == Indices(k, p, Holding(env, p, tx))
  {
    hide Valid, Indices;
    forall i: nat | k <= i < p
      ensures Flushing(env, p)(i) == Holding(env, p, tx)(i)
    {
      if OpenUntil(env, i, p, tx) {
        assert ClosesInLog(env.log[p], tx);
        assert NextClose(env.log, tx, i + 1) == Some(p);
      }
    }
    IndicesAgree(k, p, Flushing(env, p), Holding(env, p, tx));
    assert !Flushing(env, p)(p);
    IndicesStep(k, p, Flushing(env, p));
  }

  lemma IndicesStep(k: nat, p: nat, f: nat -> bool)
    requires k <= p
    ensures Indices(k, p + 1, f) == if f(p) then Indices(k, p, f) + [p] else Indices(k, p, f)
  {
  }

  lemma NothingFlushed(env: Env, k: nat, p: nat)
    requires k <= p < |env.log|
    requires env.log[p].transactionId.Some? && env.log[p].operation != Commit
    ensures FlushIndices(env, k, p) == []
  {
    hide Enters, Indices;
    forall i: nat | k <= i <= p
      ensures !Flushing(env, p)(i)
    {
    }
    IndicesAgree(k, p + 1, Flushing(env, p), Never());
    NoIndices(k, p + 1);
  }

  /** The buffer releases at `p` exactly the session's records that the log commits there, in log order. */
  lemma ReleasedIsFlushIndices(env: Env, k: nat, p: nat)
    requires k <= p < |env.log| && Enters(env, p)
    ensures Emitted(SessionHistory(env, k, p), env.log[p]) == At(env.log, FlushIndices(env, k, p))
  {
    hide Valid, Pending, SessionHistory, FlushIndices, NextClose;
    var e := env.log[p];
    match e.transactionId {
      case None =>
        FlushedOnlyAt(env, k, p);
      case Some(tx) =>
        if e.operation == Commit {
          PendingIsOpenIndices(env, k, p, tx);
          FlushedByCommit(env, k, p, tx);
        } else {
          NothingFlushed(env, k, p);
        }
    }
  }

  lemma {:induction false} NoIndices(k: nat, m: nat)
    ensures Indices(k, m, Never()) == []
  {
    if m > k {
      NoIndices(k, m - 1);
    }
  }

  lemma NothingReleased(env: Env, k: nat, p: nat)
    requires p < |env.log| && !Enters(env, p)
    ensures FlushIndices(env, k, p) == []
  {
    var r := FlushIndices(env, k, p);
    if r != [] {
      var i := r[0];
      assert FlushedAt(env, i, p);
      if i != p {
        ControlsEnter(env, i, p);
      }
      assert false;
    }
  }

  // The session invariant.

  function Ids(es: seq<ChangeEvent>): seq<string> {
    seq(|es|, i requires 0 <= i < |es| => es[i].id)
  }

  /** The records released by the last event pulled. */
  ghost function Batch(env: Env, s: State): seq<nat> {
    if s.pos <= s.start then [] else FlushIndices(env, s.start, s.pos - 1)
  }

  /** How many of them have been delivered already. */
  ghost function Handed(env: Env, s: State): nat
    requires |s.outbox| <= |Batch(env, s)|
  {
    |Batch(env, s)| - |s.outbox|
  }

  ghost predicate InSession(env: Env, s: State) {
    && s.start <= s.pos <= |env.log|
    && s.start <= s.checkpoint <= |env.log|
    && s.accepted == Ids(env.log[s.start..s.pos])
    && s.history == SessionHistory(env, s.start, s.pos)
    && |s.outbox| <= |Batch(env, s)|
    && s.outbox == At(env.log, Batch(env, s)[Handed(env, s)..])
    && (s.unsaved.Some? ==>
          && 0 < Handed(env, s)
          && Sendable(env, Batch(env, s)[Handed(env, s) - 1])
          && s.unsaved.value == env.log[Batch(env, s)[Handed(env, s) - 1]].offset)
  }

  /** Record `i` was released and delivered in the current session. */
  ghost predicate Passed(env: Env, s: State, i: nat)
    requires |s.outbox| <= |Batch(env, s)|
  {
    && s.start <= i && Enters(env, i) && Committed(env, i)
    && CommitPoint(env.log, i).value < s.pos
    && (CommitPoint(env.log, i).value == s.pos - 1 ==> i !in Batch(env, s)[Handed(env, s)..])
  }

  /** The batch holds exactly the session's records that are committed by the last event pulled, in log order. */
  lemma BatchExactly(env: Env, s: State)
    ensures forall x :: x in Batch(env, s) <==> s.start <= x < s.pos && FlushedAt(env, x, s.pos - 1)
    ensures forall m, n :: 0 <= m < n < |Batch(env, s)| ==> Batch(env, s)[m] < Batch(env, s)[n]
  {
    hide Indices, FlushedAt;
    if s.pos > s.start {
      var r := Indices(s.start, s.pos, Flushing(env, s.pos - 1));
      forall x: nat
        ensures x in r <==> s.start <= x < s.pos && Flushing(env, s.pos - 1)(x)
      {
      }
    }
  }

  lemma BatchRecord(env: Env, s: State, n: nat)
    requires n < |Batch(env, s)|
    ensures
      var b := Batch(env, s)[n];
      s.start <= b < s.pos && FlushedAt(env, b, s.pos - 1)
  {
    hide Batch, FlushedAt;
    BatchExactly(env, s);
    assert Batch(env, s)[n] in Batch(env, s);
  }

  /** The batch and what of it has been passed on depend on the position and the outbox alone. */
  lemma SameBatch(env: Env, s: State, t: State)
    requires s.start == t.start && s.pos == t.pos && s.outbox == t.outbox
    ensures Batch(env, t) == Batch(env, s)
    ensures |s.outbox| <= |Batch(env, s)| ==>
              Handed(env, t) == Handed(env, s) && forall i :: Passed(env, t, i) == Passed(env, s, i)
  {
    hide FlushIndices, Enters, Committed, CommitPoint;
  }

  lemma OutboxFits(env: Env, s: State)
    requires InSession(env, s)
    ensures |s.outbox| <= |Batch(env, s)|
  {
    hide SessionHistory, Batch, At, Ids, Sendable;
  }

  /** Invalid records are dead-lettered when pulled, released ones sent or dead-lettered when delivered. */
  ghost predicate Settled(env: Env, s: State)
    requires InSession(env, s)
  {
    && (forall i :: s.start <= i < s.pos && !Valid(env, i) ==> env.log[i] in s.dead)
    && (forall i :: Passed(env, s, i) ==> Done(env, s, i))
  }

  /** Nothing is ever sent but the transformed form of a valid committed record. */
  ghost predicate OnlySendable(env: Env, s: State) {
    forall x :: x in s.sent ==>
      exists i: nat :: i < |env.log| && Sendable(env, i) && env.transform(env.log[i]) == Some(x)
  }

  ghost predicate Sound(env: Env, s: State) {
    InSession(env, s) && Settled(env, s) && OnlySendable(env, s)
  }

  lemma NotDuplicate(log: seq<ChangeEvent>, start: nat, pos: nat)
    requires DistinctIds(log) && start <= pos < |log|
    ensures log[pos].id !in Last(Ids(log[start..pos]), DEDUP_CAPACITY)
  {
    var ids := Ids(log[start..pos]);
    forall n | 0 <= n < |ids|
      ensures ids[n] != log[pos].id
    {
      assert ids[n] == log[start + n].id;
    }
  }

  /** What pulling record `s.pos` as leader does, in terms of the log. */
  lemma ReceiveInSession(env: Env, s: State)
    requires WellFormed(env) && InSession(env, s) && s.outbox == [] && s.pos < |env.log|
    ensures
      var t := Receive(env, s, env.log[s.pos]);
      && t.accepted == s.accepted + [env.log[s.pos].id]
      && t.history == SessionHistory(env, s.start, s.pos + 1)
      && t.outbox == At(env.log, FlushIndices(env, s.start, s.pos))
      && t.dead == (if Valid(env, s.pos) then s.dead else s.dead + [env.log[s.pos]])
      && t == s.(accepted := t.accepted, history := t.history, outbox := t.outbox, dead := t.dead)
  {
    NotDuplicate(env.log, s.start, s.pos);
    hide Last, CommitPoint, Ids, At, FlushIndices;
    if Enters(env, s.pos) {
      ReleasedIsFlushIndices(env, s.start, s.pos);
    } else {
      NothingReleased(env, s.start, s.pos);
    }
  }

  lemma IdsExtend(log: seq<ChangeEvent>, start: nat, pos: nat)
    requires start <= pos < |log|
    ensures Ids(log[start..pos + 1]) == Ids(log[start..pos]) + [log[pos].id]
  {
  }

  ghost function Pulled(env: Env, s: State, dead: seq<ChangeEvent>): State
    requires s.start <= s.pos < |env.log|
  {
    s.(pos := s.pos + 1,
       accepted := Ids(env.log[s.start..s.pos + 1]),
       history := SessionHistory(env, s.start, s.pos + 1),
       outbox := At(env.log, FlushIndices(env, s.start, s.pos)),
       dead := dead)
  }

  lemma PullEffect(env: Env, s: State)
    requires WellFormed(env) && InSession(env, s)
    requires s.outbox == [] && s.unsaved.None? && s.pos < |env.log|
    ensures Next(env, s, Pull(true)) == Pulled(env, s, if Valid(env, s.pos) then s.dead else s.dead + [env.log[s.pos]])
  {
    hide SessionHistory, CommitPoint, Receive, WellFormed, At, Ids, FlushIndices, Valid, Batch;
    ReceiveInSession(env, s);
    IdsExtend(env.log, s.start, s.pos);
    ReceiveAnywhere(env, s);
  }

  lemma ReceiveAnywhere(env: Env, s: State)
    requires s.pos < |env.log|
    ensures Receive(env, s.(pos := s.pos + 1), env.log[s.pos]) == Receive(env, s, env.log[s.pos]).(pos := s.pos + 1)
  {
    hide Last, ValidateEvent, Emitted;
  }

  lemma PulledInSession(env: Env, s: State, dead: seq<ChangeEvent>)
    requires InSession(env, s) && s.unsaved.None? && s.pos < |env.log|
    ensures InSession(env, Pulled(env, s, dead)) && Handed(env, Pulled(env, s, dead)) == 0
  {
    hide SessionHistory, CommitPoint, Ids, FlushIndices, Sendable;
    var batch := FlushIndices(env, s.start, s.pos);
    assert batch[0..] == batch;
  }

  /** The state just after a leader's pull. */
  lemma PullKeepsSession(env: Env, s: State)
    requires WellFormed(env) && InSession(env, s)
    requires s.outbox == [] && s.unsaved.None? && s.pos < |env.log|
    ensures
      var t := Next(env, s, Pull(true));
      && InSession(env, t)
      && t.start == s.start && t.pos == s.pos + 1
      && t.sent == s.sent && t.checkpoint == s.checkpoint && t.crashes == s.crashes
      && t.unsaved.None? && Handed(env, t) == 0
      && t.dead == (if Valid(env, s.pos) then s.dead else s.dead + [env.log[s.pos]])
  {
    hide SessionHistory, CommitPoint, WellFormed, At, Ids, Next, Valid, Sendable, FlushIndices, Batch, Handed;
    PullEffect(env, s);
    var dead := if Valid(env, s.pos) then s.dead else s.dead + [env.log[s.pos]];
    PulledInSession(env, s, dead);
    assert Next(env, s, Pull(true)) == Pulled(env, s, dead);
  }

  lemma AtSuffix(log: seq<ChangeEvent>, indices: seq<nat>)
    requires indices != [] && forall n :: 0 <= n < |indices| ==> indices[n] < |log|
    ensures At(log, indices)[0] == log[indices[0]] && At(log, indices)[1..] == At(log, indices[1..])
  {
  }

  lemma HeadOfOutbox(env: Env, s: State)
    requires InSession(env, s) && s.outbox != []
    ensures
      var b := Batch(env, s)[Handed(env, s)];
      && FlushedAt(env, b, s.pos - 1) && s.start <= b < |env.log|
      && s.outbox[0] == env.log[b]
      && s.outbox[1..] == At(env.log, Batch(env, s)[Handed(env, s) + 1..])
  {
    hide SessionHistory, CommitPoint, Sendable, Batch, At, FlushedAt;
    var batch := Batch(env, s);
    var h := Handed(env, s);
    BatchRecord(env, s, h);
    BatchInLog(env, s);
    AtSuffix(env.log, batch[h..]);
    assert batch[h..][1..] == batch[h + 1..];
  }

  lemma BatchInLog(env: Env, s: State)
    ensures forall n :: 0 <= n < |Batch(env, s)| ==> Batch(env, s)[n] < |env.log|
  {
    hide Batch, CommitPoint;
    BatchExactly(env, s);
    assert forall n :: 0 <= n < |Batch(env, s)| ==> Batch(env, s)[n] in Batch(env, s);
  }

  lemma DeliverEffect(env: Env, s: State)
    requires WellFormed(env) && InSession(env, s) && s.outbox != [] && s.unsaved.None?
    ensures
      var t := Next(env, s, Deliver);
      var b := Batch(env, s)[Handed(env, s)];
      && t == s.(sent := t.sent, dead := t.dead, outbox := s.outbox[1..], unsaved := t.unsaved)
      && (if Sendable(env, b)
          then t.sent == s.sent + [env.transform(env.log[b]).value] && t.dead == s.dead
               && t.unsaved == Some(env.log[b].offset)
          else t.sent == s.sent && t.dead == s.dead + [env.log[b]] && t.unsaved.None?)
  {
    hide SessionHistory, CommitPoint, At, Batch;
    HeadOfOutbox(env, s);
  }

  lemma DeliverKeepsSession(env: Env, s: State)
    requires WellFormed(env) && InSession(env, s) && s.outbox != [] && s.unsaved.None?
    ensures
      var t := Next(env, s, Deliver);
      var b := Batch(env, s)[Handed(env, s)];
      && InSession(env, t)
      && t.start == s.start && t.pos == s.pos && t.checkpoint == s.checkpoint && t.crashes == s.crashes
      && FlushedAt(env, b, s.pos - 1) && s.start <= b && s.outbox[0] == env.log[b]
      && Batch(env, t) == Batch(env, s) && Handed(env, t) == Handed(env, s) + 1
      && (if Sendable(env, b)
          then t.sent == s.sent + [env.transform(env.log[b]).value] && t.dead == s.dead
               && t.unsaved == Some(env.log[b].offset)
          else t.sent == s.sent && t.dead == s.dead + [env.log[b]] && t.unsaved.None?)
  {
    hide SessionHistory, CommitPoint, At, Ids, Next, Sendable, FlushIndices, FlushedAt, WellFormed;
    HeadOfOutbox(env, s);
    DeliverEffect(env, s);
    assert Batch(env, Next(env, s, Deliver)) == Batch(env, s);
  }

  /** A stream resumed from the offset of record `b` continues with the record after it. */
  lemma OffsetResumes(env: Env, b: nat)
    requires WellFormed(env) && b < |env.log|
    ensures StartSequence(Some(env.log[b].offset)) == b + 1
  {
    assert env.log[b].offset == ToText(b + 1);
    ParseToText(b + 1);
  }

  lemma SaveEffect(env: Env, s: State)
    requires WellFormed(env) && InSession(env, s) && s.unsaved.Some?
    ensures Next(env, s, Save) == s.(checkpoint := Batch(env, s)[Handed(env, s) - 1] + 1, unsaved := None)
    ensures s.start <= Batch(env, s)[Handed(env, s) - 1] < |env.log|
  {
    hide SessionHistory, CommitPoint, At, Ids, StartSequence, WellFormed;
    OffsetResumes(env, Batch(env, s)[Handed(env, s) - 1]);
  }

  lemma SaveKeepsSession(env: Env, s: State)
    requires WellFormed(env) && InSession(env, s) && s.unsaved.Some?
    ensures
      var t := Next(env, s, Save);
      && InSession(env, t)
      && t == s.(checkpoint := Batch(env, s)[Handed(env, s) - 1] + 1, unsaved := None)
      && Batch(env, t) == Batch(env, s) && Handed(env, t) == Handed(env, s)
      && forall i :: Passed(env, t, i) == Passed(env, s, i)
  {
    hide SessionHistory, At, Ids, WellFormed, Next, Sendable, Batch, Passed;
    SaveEffect(env, s);
    SameBatch(env, s, Next(env, s, Save));
  }

  lemma CrashKeepsSession(env: Env, s: State)
    requires InSession(env, s)
    ensures
      var t := Next(env, s, Crash);
      && InSession(env, t) && t.start == t.pos == t.checkpoint == s.checkpoint
      && Batch(env, t) == [] && t.sent == s.sent && t.dead == s.dead
      && t.unsaved.None? && t.crashes == s.crashes + 1
  {
    hide FlushIndices, Sendable;
    CheckpointInLog(env, s);
    var t := Next(env, s, Crash);
    assert t == Boot(s.(crashes := s.crashes + 1));
    BootedSession(env, t);
  }

  lemma CheckpointInLog(env: Env, s: State)
    requires InSession(env, s)
    ensures s.checkpoint <= |env.log|
  {
    hide SessionHistory, Batch, At, Ids, Sendable;
  }

  lemma BootedSession(env: Env, s: State)
    requires s.start == s.pos == s.checkpoint <= |env.log|
    requires s.accepted == [] && s.history == [] && s.outbox == [] && s.unsaved.None?
    ensures InSession(env, s) && Batch(env, s) == []
  {
    hide FlushIndices, Sendable;
  }
}
