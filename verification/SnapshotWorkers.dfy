/**
 * The snapshot workers as interleaved steps, one step per lock section: a worker claims a chunk or exits, then
 * completes the chunk or dies inside the processing function.
 */
module SnapshotWorkers {
  import opened Wrappers
  import opened Decimal
  import opened StateStores
  import opened ParallelSnapshots

  type Chunks = seq<ChunkRange>

  datatype Worker = Idle | Holding(chunk: ChunkRange) | Exited | Died(chunk: ChunkRange)
  {
    predicate Bound() {
      Holding? || Died?
    }
  }

  /** `handed` lists the chunks passed to the processing function, in order. */
  datatype Pool = Pool(chunks: Chunks, workers: seq<Worker>, handed: seq<ChunkRange>)

  function FirstPending(chunks: Chunks): (r: Option<nat>)
    ensures r.Some? ==>
              && r.value < |chunks| && chunks[r.value].status == Pending
              && forall i :: 0 <= i < r.value ==> chunks[i].status != Pending
    ensures r.None? ==> forall i :: 0 <= i < |chunks| ==> chunks[i].status != Pending
  {
    if exists i :: 0 <= i < |chunks| && chunks[i].status == Pending
    then Some(LeastPending(chunks, 0))
    else None
  }

  function LeastPending(chunks: Chunks, from: nat): (i: nat)
    requires exists j :: from <= j < |chunks| && chunks[j].status == Pending
    ensures from <= i < |chunks| && chunks[i].status == Pending
    ensures forall j :: from <= j < i ==> chunks[j].status != Pending
    decreases |chunks| - from
  {
    if chunks[from].status == Pending then from else LeastPending(chunks, from + 1)
  }

  function Mark(chunks: Chunks, i: nat, status: ChunkStatus): Chunks
    requires i < |chunks|
  {
    chunks[i := chunks[i].(status := status)]
  }

  datatype Act = Claim(worker: nat) | Complete(worker: nat) | Panic(worker: nat)

  predicate Enabled(p: Pool, a: Act) {
    a.worker < |p.workers| &&
    match a
    case Claim(w) => p.workers[w].Idle?
    case Complete(w) => p.workers[w].Holding? && p.workers[w].chunk.chunkId < |p.chunks|
    case Panic(w) => p.workers[w].Holding?
  }

  function Step(p: Pool, a: Act): Pool
    requires Enabled(p, a)
  {
    match a
    case Claim(w) =>
      (match FirstPending(p.chunks)
       case None => p.(workers := p.workers[w := Exited])
       case Some(i) =>
         var marked := Mark(p.chunks, i, InProgress);
         Pool(marked, p.workers[w := Holding(marked[i])], p.handed + [marked[i]]))
    case Complete(w) =>
      Pool(Mark(p.chunks, p.workers[w].chunk.chunkId, Completed), p.workers[w := Idle], p.handed)
    case Panic(w) =>
      p.(workers := p.workers[w := Died(p.workers[w].chunk)])
  }

  /** A sequence of steps each of which is possible when taken. */
  predicate Runs(p: Pool, acts: seq<Act>)
    decreases |acts|, 0
  {
    acts == [] || (Runs(p, acts[..|acts| - 1]) && Enabled(After(p, acts[..|acts| - 1]), acts[|acts| - 1]))
  }

  function After(p: Pool, acts: seq<Act>): Pool
    requires Runs(p, acts)
    decreases |acts|, 1
  {
    if acts == [] then p else Step(After(p, acts[..|acts| - 1]), acts[|acts| - 1])
  }

  function Start(chunks: Chunks, workerCount: nat): Pool {
    Pool(chunks, seq(workerCount, _ => Idle), [])
  }

  // Counting.

  function Count<T>(s: seq<T>, p: T -> bool): nat {
    if s == [] then 0 else Count(s[..|s| - 1], p) + if p(s[|s| - 1]) then 1 else 0
  }

  lemma {:induction false} CountUpdate<T>(s: seq<T>, i: nat, x: T, p: T -> bool)
    requires i < |s|
    ensures Count(s[i := x], p) == Count(s, p) - (if p(s[i]) then 1 else 0) + (if p(x) then 1 else 0)
  {
    var t := s[i := x];
    if i < |s| - 1 {
      CountUpdate(s[..|s| - 1], i, x, p);
      assert t[..|t| - 1] == s[..|s| - 1][i := x];
    } else {
      assert t[..|t| - 1] == s[..|s| - 1];
    }
  }

  lemma {:induction false} CountZero<T>(s: seq<T>, p: T -> bool)
    ensures Count(s, p) == 0 <==> forall i :: 0 <= i < |s| ==> !p(s[i])
  {
    if s != [] {
      var front := s[..|s| - 1];
      CountZero(front, p);
      assert forall i :: 0 <= i < |front| ==> front[i] == s[i];
    }
  }

  function HasStatus(status: ChunkStatus): ChunkRange -> bool {
    (c: ChunkRange) => c.status == status
  }

  function IsBound(): Worker -> bool {
    (w: Worker) => w.Bound()
  }

  function HasDied(): Worker -> bool {
    (w: Worker) => w.Died?
  }

  function IsLive(): Worker -> bool {
    (w: Worker) => w.Idle? || w.Holding?
  }

  function InStatus(p: Pool, status: ChunkStatus): nat {
    Count(p.chunks, HasStatus(status))
  }

  lemma {:induction false} StatusesPartition(chunks: Chunks)
    ensures |chunks| == Count(chunks, HasStatus(Pending)) + Count(chunks, HasStatus(InProgress))
                        + Count(chunks, HasStatus(Completed))
  {
    if chunks != [] {
      StatusesPartition(chunks[..|chunks| - 1]);
    }
  }

  // The invariant.

  predicate Identified(chunks: Chunks) {
    forall i :: 0 <= i < |chunks| ==> chunks[i].chunkId == i
  }

  /** A worker holds its chunk as it stands in the list, in progress, and no two hold the same. */
  predicate Owned(p: Pool) {
    && (forall w :: 0 <= w < |p.workers| && p.workers[w].Bound() ==>
          && p.workers[w].chunk.chunkId < |p.chunks|
          && p.chunks[p.workers[w].chunk.chunkId] == p.workers[w].chunk
          && p.workers[w].chunk.status == InProgress)
    && (forall v, w :: 0 <= v < w < |p.workers| && p.workers[v].Bound() && p.workers[w].Bound() ==>
          p.workers[v].chunk.chunkId != p.workers[w].chunk.chunkId)
  }

  predicate SameRange(a: ChunkRange, b: ChunkRange) {
    a.chunkId == b.chunkId && a.minKey == b.minKey && a.maxKey == b.maxKey
  }

  /** The chunk with this id has been handed out. */
  predicate HandedOut(handed: seq<ChunkRange>, id: nat) {
    exists h :: 0 <= h < |handed| && handed[h].chunkId == id
  }

  /**
   * The chunks handed out are those that were pending at first and no longer are, each handed out once, with its
   * own range.
   */
  ghost predicate HandedOnce(p: Pool, first: Chunks) {
    && |p.chunks| == |first|
    && (forall i :: 0 <= i < |first| ==> SameRange(p.chunks[i], first[i]))
    && (forall i, j :: 0 <= i < j < |p.handed| ==> p.handed[i].chunkId != p.handed[j].chunkId)
    && (forall h :: 0 <= h < |p.handed| ==>
          p.handed[h].chunkId < |first| && SameRange(p.handed[h], first[p.handed[h].chunkId])
          && p.handed[h].status == InProgress)
    && (forall i :: 0 <= i < |first| && p.chunks[i].status == Pending ==> first[i].status == Pending)
    && (forall id :: 0 <= id < |first| ==>
          (HandedOut(p.handed, id) <==> first[id].status == Pending && p.chunks[id].status != Pending))
  }

  /** `first` are the chunks at the start: fresh, or left over from an earlier call. */
  ghost predicate Inv(p: Pool, first: Chunks) {
    && Identified(p.chunks) && Owned(p) && HandedOnce(p, first)
    && InStatus(p, InProgress) == Count(p.workers, IsBound()) + Count(first, HasStatus(InProgress))
    && ((exists w :: 0 <= w < |p.workers| && p.workers[w].Exited?) ==> InStatus(p, Pending) == 0)
  }

  lemma MarkCounts(chunks: Chunks, i: nat, status: ChunkStatus, s: ChunkStatus)
    requires i < |chunks|
    ensures Count(Mark(chunks, i, status), HasStatus(s))
         == Count(chunks, HasStatus(s)) - (if chunks[i].status == s then 1 else 0) + (if status == s then 1 else 0)
  {
    CountUpdate(chunks, i, chunks[i].(status := status), HasStatus(s));
  }

  lemma HandedGrows(handed: seq<ChunkRange>, c: ChunkRange, id: nat)
    ensures HandedOut(handed + [c], id) <==> HandedOut(handed, id) || c.chunkId == id
  {
    var more := handed + [c];
    assert more[|handed|] == c;
    assert forall h :: 0 <= h < |handed| ==> more[h] == handed[h];
  }

  lemma ClaimHands(p: Pool, w: nat, first: Chunks)
    requires Identified(p.chunks) && HandedOnce(p, first) && Enabled(p, Claim(w))
    ensures HandedOnce(Step(p, Claim(w)), first)
  {
    hide HandedOut;
    if FirstPending(p.chunks).Some? {
      var i := FirstPending(p.chunks).value;
      var q := Step(p, Claim(w));
      var c := q.chunks[i];
      forall id: nat
        ensures HandedOut(q.handed, id) <==> HandedOut(p.handed, id) || c.chunkId == id
      {
        HandedGrows(p.handed, c, id);
      }
      forall h | 0 <= h < |p.handed|
        ensures p.handed[h].chunkId != i
      {
        HandedMember(p.handed, h);
      }
    }
  }

  lemma HandedMember(handed: seq<ChunkRange>, h: nat)
    requires h < |handed|
    ensures HandedOut(handed, handed[h].chunkId)
  {
  }

  lemma ClaimKeepsOwnership(p: Pool, w: nat, first: Chunks)
    requires Identified(p.chunks) && Owned(p) && HandedOnce(p, first) && Enabled(p, Claim(w))
    ensures
      var q := Step(p, Claim(w));
      Identified(q.chunks) && Owned(q) && HandedOnce(q, first)
  {
    ClaimHands(p, w, first);
    hide HandedOnce;
  }

  lemma ClaimCounts(p: Pool, w: nat)
    requires Enabled(p, Claim(w))
    ensures
      var q := Step(p, Claim(w));
      && InStatus(q, InProgress) - InStatus(p, InProgress) == Count(q.workers, IsBound()) - Count(p.workers, IsBound())
      && InStatus(q, Pending) <= InStatus(p, Pending)
      && (q.workers[w].Exited? ==> InStatus(q, Pending) == 0)
  {
    hide Count;
    var q := Step(p, Claim(w));
    CountUpdate(p.workers, w, q.workers[w], IsBound());
    if FirstPending(p.chunks).Some? {
      var i := FirstPending(p.chunks).value;
      MarkCounts(p.chunks, i, InProgress, InProgress);
      MarkCounts(p.chunks, i, InProgress, Pending);
    } else {
      CountZero(p.chunks, HasStatus(Pending));
    }
  }

  lemma ClaimKeeps(p: Pool, w: nat, first: Chunks)
    requires Inv(p, first) && Enabled(p, Claim(w))
    ensures Inv(Step(p, Claim(w)), first)
  {
    hide Owned, HandedOnce, Identified, InStatus, Count;
    ClaimKeepsOwnership(p, w, first);
    ClaimCounts(p, w);
  }

  lemma CompleteKeepsOwnership(p: Pool, w: nat, first: Chunks)
    requires Identified(p.chunks) && Owned(p) && HandedOnce(p, first) && Enabled(p, Complete(w))
    ensures
      var q := Step(p, Complete(w));
      Identified(q.chunks) && Owned(q) && HandedOnce(q, first)
  {
  }

  lemma CompleteCounts(p: Pool, w: nat)
    requires Identified(p.chunks) && Owned(p) && Enabled(p, Complete(w))
    ensures
      var q := Step(p, Complete(w));
      && InStatus(q, InProgress) - InStatus(p, InProgress) == Count(q.workers, IsBound()) - Count(p.workers, IsBound())
      && InStatus(q, Pending) == InStatus(p, Pending)
  {
    hide Count;
    var i := p.workers[w].chunk.chunkId;
    CountUpdate(p.workers, w, Idle, IsBound());
    MarkCounts(p.chunks, i, Completed, InProgress);
    MarkCounts(p.chunks, i, Completed, Pending);
  }

  lemma CompleteKeeps(p: Pool, w: nat, first: Chunks)
    requires Inv(p, first) && Enabled(p, Complete(w))
    ensures Inv(Step(p, Complete(w)), first)
  {
    hide Owned, HandedOnce, Identified, InStatus, Count;
    CompleteKeepsOwnership(p, w, first);
    CompleteCounts(p, w);
  }

  lemma PanicKeeps(p: Pool, w: nat, first: Chunks)
    requires Inv(p, first) && Enabled(p, Panic(w))
    ensures Inv(Step(p, Panic(w)), first)
  {
    CountUpdate(p.workers, w, Died(p.workers[w].chunk), IsBound());
  }

  lemma IdleUnbound(n: nat)
    ensures Count(seq(n, _ => Idle), IsBound()) == 0
  {
    CountZero(seq(n, _ => Idle), IsBound());
  }

  lemma {:induction false} RunsKeep(chunks: Chunks, n: nat, acts: seq<Act>)
    requires Identified(chunks) && Runs(Start(chunks, n), acts)
    ensures Inv(After(Start(chunks, n), acts), chunks)
    ensures |After(Start(chunks, n), acts).workers| == n && |After(Start(chunks, n), acts).chunks| == |chunks|
  {
    if acts == [] {
      IdleUnbound(n);
    } else {
      RunsKeep(chunks, n, acts[..|acts| - 1]);
      var p := After(Start(chunks, n), acts[..|acts| - 1]);
      match acts[|acts| - 1] {
        case Claim(w) => ClaimKeeps(p, w, chunks);
        case Complete(w) => CompleteKeeps(p, w, chunks);
        case Panic(w) => PanicKeeps(p, w, chunks);
      }
    }
  }

  /**
   * Exactly-once claiming: in every interleaving no chunk is handed out twice, a chunk has been handed out
   * exactly when it is no longer pending, and no chunk is held by two workers.
   */
  lemma ClaimedAtMostOnce(chunks: Chunks, n: nat, acts: seq<Act>)
    requires Identified(chunks) && Runs(Start(chunks, n), acts)
    ensures
      var p := After(Start(chunks, n), acts);
      HandedOnce(p, chunks) && Owned(p)
  {
    RunsKeep(chunks, n, acts);
  }

  function Rank(s: ChunkStatus): nat {
    match s
    case Pending => 0
    case InProgress => 1
    case Completed => 2
  }

  /** Every step moves at most one chunk, and that one exactly one status forward; key ranges never change. */
  lemma StatusesAdvance(chunks: Chunks, n: nat, acts: seq<Act>, a: Act, i: nat)
    requires Identified(chunks) && Runs(Start(chunks, n), acts) && Enabled(After(Start(chunks, n), acts), a)
    requires i < |chunks|
    ensures
      var p := After(Start(chunks, n), acts);
      var q := Step(p, a);
      && |p.chunks| == |q.chunks| == |chunks|
      && q.chunks[i].(status := Pending) == p.chunks[i].(status := Pending)
      && Rank(p.chunks[i].status) <= Rank(q.chunks[i].status) <= Rank(p.chunks[i].status) + 1
      && (forall j :: 0 <= j < |chunks| && j != i && q.chunks[i] != p.chunks[i] ==> q.chunks[j] == p.chunks[j])
  {
    RunsKeep(chunks, n, acts);
  }

  // Termination and the accounting at join.

  function Measure(p: Pool): nat {
    2 * InStatus(p, Pending) + Count(p.workers, IsLive()) + Count(p.workers, IsHolding())
  }

  function IsHolding(): Worker -> bool {
    (w: Worker) => w.Holding?
  }

  lemma StepDecreases(p: Pool, a: Act, first: Chunks)
    requires Inv(p, first) && Enabled(p, a)
    ensures Measure(Step(p, a)) < Measure(p)
  {
    var q := Step(p, a);
    CountUpdate(p.workers, a.worker, q.workers[a.worker], IsLive());
    CountUpdate(p.workers, a.worker, q.workers[a.worker], IsHolding());
    match a {
      case Claim(w) =>
        if FirstPending(p.chunks).Some? {
          MarkCounts(p.chunks, FirstPending(p.chunks).value, InProgress, Pending);
        }
      case Complete(w) =>
        MarkCounts(p.chunks, p.workers[w].chunk.chunkId, Completed, Pending);
      case Panic(_) =>
    }
  }

  lemma {:induction false} CountAtMost<T>(s: seq<T>, p: T -> bool)
    ensures Count(s, p) <= |s|
  {
    if s != [] {
      CountAtMost(s[..|s| - 1], p);
    }
  }

  lemma {:induction false} RunMeasure(chunks: Chunks, n: nat, acts: seq<Act>)
    requires Identified(chunks) && Runs(Start(chunks, n), acts)
    ensures |acts| + Measure(After(Start(chunks, n), acts)) <= 2 * |chunks| + n
  {
    if acts == [] {
      CountAtMost(chunks, HasStatus(Pending));
      CountAtMost(Start(chunks, n).workers, IsLive());
      CountZero(Start(chunks, n).workers, IsHolding());
    } else {
      var front := acts[..|acts| - 1];
      RunMeasure(chunks, n, front);
      RunsKeep(chunks, n, front);
      StepDecreases(After(Start(chunks, n), front), acts[|acts| - 1], chunks);
    }
  }

  /** Every run ends: it has at most two steps per chunk and one per worker. */
  lemma RunsAreBounded(chunks: Chunks, n: nat, acts: seq<Act>)
    requires Identified(chunks) && Runs(Start(chunks, n), acts)
    ensures |acts| <= 2 * |chunks| + n
  {
    RunMeasure(chunks, n, acts);
  }

  /** All workers have ended, normally or not. */
  predicate Joined(p: Pool) {
    forall w :: 0 <= w < |p.workers| ==> p.workers[w].Exited? || p.workers[w].Died?
  }

  /** A pool in which no step is possible has joined, so a maximal run always reaches the join. */
  lemma StuckMeansJoined(p: Pool, first: Chunks)
    requires Inv(p, first) && forall a :: !Enabled(p, a)
    ensures Joined(p)
  {
    forall w | 0 <= w < |p.workers|
      ensures p.workers[w].Exited? || p.workers[w].Died?
    {
      assert !Enabled(p, Claim(w)) && !Enabled(p, Complete(w));
    }
  }

  lemma {:induction false} BoundAtJoin(workers: seq<Worker>)
    requires forall w :: 0 <= w < |workers| ==> workers[w].Exited? || workers[w].Died?
    ensures Count(workers, IsBound()) == Count(workers, HasDied())
  {
    if workers != [] {
      BoundAtJoin(workers[..|workers| - 1]);
    }
  }

  /**
   * The accounting at join. Chunks not completed are those whose worker died, those already in progress before
   * the call, and those never claimed; none of the latter if any worker exited normally. So progress is full
   * exactly when no worker died, nothing was stuck before, and there was a worker or nothing to do.
   */
  lemma JoinAccounting(chunks: Chunks, n: nat, acts: seq<Act>)
    requires Identified(chunks) && Runs(Start(chunks, n), acts) && Joined(After(Start(chunks, n), acts))
    ensures
      var p := After(Start(chunks, n), acts);
      var died := Count(p.workers, HasDied());
      var stuck := Count(chunks, HasStatus(InProgress));
      && |chunks| - InStatus(p, Completed) == died + stuck + InStatus(p, Pending)
      && (died < n ==> InStatus(p, Pending) == 0)
      && (InStatus(p, Completed) == |chunks| <==>
          died == 0 && stuck == 0 && (n > 0 || Count(chunks, HasStatus(Pending)) == 0))
  {
    RunsKeep(chunks, n, acts);
    var p := After(Start(chunks, n), acts);
    StatusesPartition(p.chunks);
    BoundAtJoin(p.workers);
    SomeoneExited(p.workers);
    CountAtMost(p.workers, HasDied());
    if n == 0 {
      NoWorkersNoSteps(chunks, acts);
    }
  }

  lemma {:induction false} SomeoneExited(workers: seq<Worker>)
    requires forall w :: 0 <= w < |workers| ==> workers[w].Exited? || workers[w].Died?
    ensures Count(workers, HasDied()) < |workers| ==> exists w :: 0 <= w < |workers| && workers[w].Exited?
  {
    if workers != [] && !workers[|workers| - 1].Exited? {
      var front := workers[..|workers| - 1];
      SomeoneExited(front);
      if Count(front, HasDied()) < |front| {
        var w :| 0 <= w < |front| && front[w].Exited?;
        assert workers[w].Exited?;
      }
    }
  }

  lemma {:induction false} NoWorkersNoSteps(chunks: Chunks, acts: seq<Act>)
    requires Runs(Start(chunks, 0), acts)
    ensures acts == []
  {
    if acts != [] {
      NoWorkersNoSteps(chunks, acts[..|acts| - 1]);
    }
  }

  predicate Covers(c: ChunkRange, key: nat) {
    c.minKey <= key <= c.maxKey
  }

  /** Exactly one of the handed-out chunks covers the key. */
  predicate CoveredOnce(handed: seq<ChunkRange>, key: nat) {
    exists h :: 0 <= h < |handed| && Covers(handed[h], key)
      && forall g :: 0 <= g < |handed| && g != h ==> !Covers(handed[g], key)
  }

  lemma DistinctIdsCoverOnce(p: Pool, first: Chunks, rows: nat, size: nat, i: nat, key: nat)
    requires size > 0 && IsPlan(first, rows, size) && |first| == ChunkCount(rows, size)
    requires HandedOnce(p, first)
    requires i < |first| && Covers(first[i], key) && HandedOut(p.handed, i)
    ensures CoveredOnce(p.handed, key)
  {
    hide ChunkCount;
    PlanTiles(first, rows, size, key);
    var h :| 0 <= h < |p.handed| && p.handed[h].chunkId == i;
    forall g | 0 <= g < |p.handed| && g != h
      ensures !Covers(p.handed[g], key)
    {
      assert p.handed[g].chunkId != i;
    }
  }

  /**
   * From plan to coverage: when some worker exits normally, every key of the table has been handed to the
   * processing function in exactly one chunk.
   */
  lemma EveryRowHandedOnce(chunks: Chunks, rows: nat, size: nat, n: nat, acts: seq<Act>, key: nat)
    requires size > 0 && IsPlan(chunks, rows, size) && |chunks| == ChunkCount(rows, size)
    requires Runs(Start(chunks, n), acts) && Joined(After(Start(chunks, n), acts))
    requires Count(After(Start(chunks, n), acts).workers, HasDied()) < n
    requires 1 <= key <= rows
    ensures CoveredOnce(After(Start(chunks, n), acts).handed, key)
  {
    hide After, Runs, Count, Owned, ChunkCount;
    var p := After(Start(chunks, n), acts);
    RunsKeep(chunks, n, acts);
    JoinAccounting(chunks, n, acts);
    CountZero(p.chunks, HasStatus(Pending));
    PlanTiles(chunks, rows, size, key);
    var i :| 0 <= i < |chunks| && chunks[i].minKey <= key <= chunks[i].maxKey;
    assert p.chunks[i].status != Pending;
    DistinctIdsCoverOnce(p, chunks, rows, size, i, key);
  }

  // The snapshotter, its two lock sections and the final report.

  class ParallelSnapshotter {
    const tableName: string
    var chunks: Chunks

    /** Built from a plan that did not overflow. */
    constructor (tableName: string, plan: Chunks)
      ensures this.tableName == tableName && chunks == plan
    {
      this.tableName := tableName;
      chunks := plan;
    }

    /** First lock section of a worker: take the first pending chunk. */
    method ClaimNext() returns (claimed: Option<ChunkRange>)
      modifies this
      ensures
        match FirstPending(old(chunks))
        case None => claimed == None && chunks == old(chunks)
        case Some(i) => chunks == Mark(old(chunks), i, InProgress) && claimed == Some(chunks[i])
    {
      claimed := None;
      for i := 0 to |chunks|
        invariant chunks == old(chunks) && claimed == None
        invariant forall j :: 0 <= j < i ==> chunks[j].status != Pending
      {
        if chunks[i].status == Pending {
          chunks := chunks[i := chunks[i].(status := InProgress)];
          claimed := Some(chunks[i]);
          return;
        }
      }
    }

    /** Second lock section: mark the chunk with this id as completed. */
    method MarkCompleted(id: nat)
      requires Identified(chunks)
      modifies this
      ensures chunks == if id < |old(chunks)| then Mark(old(chunks), id, Completed) else old(chunks)
    {
      for i := 0 to |chunks|
        invariant chunks == old(chunks)
        invariant forall j :: 0 <= j < i ==> chunks[j].chunkId != id
      {
        if chunks[i].chunkId == id {
          chunks := chunks[i := chunks[i].(status := Completed)];
          return;
        }
      }
    }

    method CountCompleted() returns (completed: nat)
      ensures completed == Count(chunks, HasStatus(Completed))
    {
      completed := 0;
      for i := 0 to |chunks|
        invariant completed == Count(chunks[..i], HasStatus(Completed))
      {
        assert chunks[..i + 1][..i] == chunks[..i];
        if chunks[i].status == Completed {
          completed := completed + 1;
        }
      }
      assert chunks[..|chunks|] == chunks;
    }

    /** A whole call under a given schedule of worker steps, ending with the progress report in the store. */
    method ProcessChunks(store: StateStore, workerCount: nat, schedule: seq<Act>)
      returns (workers: seq<Worker>, handed: seq<ChunkRange>)
      requires store.Valid() && Identified(chunks) && Runs(Start(chunks, workerCount), schedule)
      modifies this, store
      ensures store.Valid()
      ensures Pool(chunks, workers, handed) == After(Start(old(chunks), workerCount), schedule)
      ensures store.GetOffset(tableName + "_snapshot_progress")
           == Some(ToText(Count(chunks, HasStatus(Completed))) + "/" + ToText(|chunks|))
    {
      workers, handed := seq(workerCount, _ => Idle), [];
      ghost var first := Start(chunks, workerCount);
      assert schedule[..|schedule|] == schedule;
      for k := 0 to |schedule|
        invariant Runs(first, schedule[..k])
        invariant store.Valid()
        invariant Pool(chunks, workers, handed) == After(first, schedule[..k])
      {
        RunsPrefix(first, schedule, k + 1);
        RunsKeep(old(chunks), workerCount, schedule[..k]);
        assert schedule[..k + 1][..k] == schedule[..k];
        match schedule[k] {
          case Claim(w) =>
            var claimed := ClaimNext();
            if claimed.Some? {
              workers := workers[w := Holding(claimed.value)];
              handed := handed + [claimed.value];
            } else {
              workers := workers[w := Exited];
            }
          case Complete(w) =>
            MarkCompleted(workers[w].chunk.chunkId);
            workers := workers[w := Idle];
          case Panic(w) =>
            workers := workers[w := Died(workers[w].chunk)];
        }
      }
      var completed := CountCompleted();
      store.SaveOffset(tableName + "_snapshot_progress", ToText(completed) + "/" + ToText(|chunks|));
    }
  }

  lemma {:induction false} RunsPrefix(p: Pool, acts: seq<Act>, k: nat)
    requires Runs(p, acts) && k <= |acts|
    ensures Runs(p, acts[..k])
    decreases |acts|
  {
    if k == |acts| {
      assert acts[..k] == acts;
    } else {
      RunsPrefix(p, acts[..|acts| - 1], k);
      assert acts[..|acts| - 1][..k] == acts[..k];
    }
  }
}
