/** Watermark snapshotting: a table chunk reconciled with the replication log between two markers. */
module Watermarks {
  import opened Wrappers
  import opened Events

  type Chunk = map<string, ChangeEvent>

  datatype Snapshotter = Snapshotter(chunk: Chunk, inWindow: bool, activeTx: Option<string>)

  /** A marker opens or closes the window; other rows of the watermark table do neither. */
  predicate IsMarker(e: ChangeEvent) {
    IsWatermark(e) && (e.operation == Create || e.operation == Commit)
  }

  function Keyed(rows: seq<ChangeEvent>): Chunk {
    if rows == [] then map[]
    else Keyed(rows[..|rows| - 1])[rows[|rows| - 1].key := rows[|rows| - 1]]
  }

  function Observe(s: Snapshotter, e: ChangeEvent): Snapshotter {
    if IsMarker(e) then
      s.(inWindow := !s.inWindow, activeTx := if s.inWindow then None else e.transactionId)
    else if IsWatermark(e) || !s.inWindow || e.key !in s.chunk then s
    else
      match e.operation
      case Delete => s.(chunk := s.chunk - {e.key})
      case Create | Update =>
        s.(chunk := s.chunk[e.key := s.chunk[e.key].(after := e.after, timestamp := e.timestamp)])
      case _ => s
  }

  /** A flush emits every row of the chunk once, in any order. */
  ghost predicate IsFlush(chunk: Chunk, flushed: seq<ChangeEvent>) {
    && (forall i :: 0 <= i < |flushed| ==> flushed[i].key in chunk && chunk[flushed[i].key] == flushed[i])
    && (forall i, j :: 0 <= i < j < |flushed| ==> flushed[i].key != flushed[j].key)
    && (forall k :: k in chunk ==> chunk[k] in flushed)
  }

  /** What is left of the chunk and what has been emitted make up the chunk. */
  ghost predicate PartlyFlushed(chunk: Chunk, rest: Chunk, flushed: seq<ChangeEvent>) {
    && (forall k :: k in rest ==> k in chunk && rest[k] == chunk[k])
    && (forall i :: 0 <= i < |flushed| ==>
          flushed[i].key in chunk && flushed[i].key !in rest && chunk[flushed[i].key] == flushed[i])
    && (forall i, j :: 0 <= i < j < |flushed| ==> flushed[i].key != flushed[j].key)
    && (forall k :: k in chunk && k !in rest ==> chunk[k] in flushed)
  }

  lemma FlushOne(chunk: Chunk, rest: Chunk, flushed: seq<ChangeEvent>, k: string)
    requires WellKeyed(chunk) && PartlyFlushed(chunk, rest, flushed) && k in rest
    ensures PartlyFlushed(chunk, rest - {k}, flushed + [rest[k]])
  {
    var more := flushed + [rest[k]];
    assert more[|flushed|] == chunk[k] && chunk[k].key == k;
    forall x | x in chunk && x !in rest - {k}
      ensures chunk[x] in more
    {
      assert x != k ==> chunk[x] in flushed;
    }
  }

  predicate WellKeyed(chunk: Chunk) {
    forall k :: k in chunk ==> chunk[k].key == k
  }

  class WatermarkSnapshotter {
    var activeChunk: Chunk
    var inWatermarkWindow: bool
    var activeTx: Option<string>

    ghost predicate Valid()
      reads this
    {
      WellKeyed(activeChunk)
    }

    function State(): Snapshotter
      reads this
    {
      Snapshotter(activeChunk, inWatermarkWindow, activeTx)
    }

    constructor ()
      ensures Valid() && State() == Snapshotter(map[], false, None)
    {
      activeChunk, inWatermarkWindow, activeTx := map[], false, None;
    }

    /** Replaces the chunk; of two rows with one key the later wins. */
    method LoadChunk(rows: seq<ChangeEvent>)
      modifies this
      ensures Valid() && State() == old(State()).(chunk := Keyed(rows))
    {
      activeChunk := map[];
      for i := 0 to |rows|
        invariant activeChunk == Keyed(rows[..i]) && WellKeyed(activeChunk)
        invariant inWatermarkWindow == old(inWatermarkWindow) && activeTx == old(activeTx)
      {
        activeChunk := activeChunk[rows[i].key := rows[i]];
        assert rows[..i + 1][..i] == rows[..i];
      }
      assert rows[..|rows|] == rows;
    }

    /** Watermark rows are swallowed; every other event is forwarded as it is. */
    method ProcessReplicationEvent(event: ChangeEvent) returns (forwarded: Option<ChangeEvent>)
      requires Valid()
      modifies this
      ensures Valid() && State() == Observe(old(State()), event)
      ensures forwarded == if IsWatermark(event) then None else Some(event)
    {
      if event.table == WATERMARK_TABLE {
        if event.operation == Create || event.operation == Commit {
          if !inWatermarkWindow {
            inWatermarkWindow := true;
            activeTx := event.transactionId;
          } else {
            inWatermarkWindow := false;
            activeTx := None;
          }
        }
        return None;
      }
      if inWatermarkWindow && event.key in activeChunk {
        match event.operation {
          case Delete =>
            activeChunk := activeChunk - {event.key};
          case Create | Update =>
            var row := activeChunk[event.key];
            activeChunk := activeChunk[event.key := row.(after := event.after, timestamp := event.timestamp)];
          case _ =>
        }
      }
      return Some(event);
    }

    method FlushChunk() returns (flushed: seq<ChangeEvent>)
      requires Valid()
      modifies this
      ensures Valid() && State() == old(State()).(chunk := map[])
      ensures IsFlush(old(activeChunk), flushed)
    {
      flushed := [];
      var rest := activeChunk;
      while rest != map[]
        invariant State() == old(State()) && PartlyFlushed(activeChunk, rest, flushed)
        decreases |rest|
      {
        var k :| k in rest;
        FlushOne(activeChunk, rest, flushed, k);
        flushed := flushed + [rest[k]];
        rest := rest - {k};
      }
      activeChunk := map[];
    }
  }

  predicate Odd(es: seq<ChangeEvent>) {
    if es == [] then false
    else if IsMarker(es[|es| - 1]) then !Odd(es[..|es| - 1]) else Odd(es[..|es| - 1])
  }

  function ObserveAll(s: Snapshotter, es: seq<ChangeEvent>): Snapshotter {
    if es == [] then s else Observe(ObserveAll(s, es[..|es| - 1]), es[|es| - 1])
  }

  /** What toggles the window: a create or commit of the watermark table, whatever its transaction, and nothing else. */
  lemma TogglesExactly(s: Snapshotter, e: ChangeEvent)
    ensures Observe(s, e).inWindow != s.inWindow <==>
            e.table == "caminus_watermarks" && e.operation in {Create, Commit}
  {
  }

  /** The window is open exactly after an odd number of markers, whatever transaction they belong to. */
  lemma {:induction false} WindowIsMarkerParity(s: Snapshotter, es: seq<ChangeEvent>)
    ensures ObserveAll(s, es).inWindow == (s.inWindow != Odd(es))
  {
    if es != [] {
      WindowIsMarkerParity(s, es[..|es| - 1]);
    }
  }

  /** While the window is open the engine remembers the transaction of the marker that opened it, and else none. */
  lemma {:induction false} ActiveTransaction(es: seq<ChangeEvent>) returns (i: nat)
    ensures
      var s := ObserveAll(Snapshotter(map[], false, None), es);
      if !s.inWindow then s.activeTx == None
      else
        && i < |es| && IsMarker(es[i]) && s.activeTx == es[i].transactionId
        && forall j :: i < j < |es| ==> !IsMarker(es[j])
  {
    i := 0;
    if es != [] {
      var front := es[..|es| - 1];
      i := ActiveTransaction(front);
      if IsMarker(es[|es| - 1]) {
        i := |es| - 1;
      }
    }
  }

  /** Of two rows loaded under one key the later one counts. */
  lemma {:induction false} LastRowWins(rows: seq<ChangeEvent>, i: nat)
    requires i < |rows| && forall j :: i < j < |rows| ==> rows[j].key != rows[i].key
    ensures rows[i].key in Keyed(rows) && Keyed(rows)[rows[i].key] == rows[i]
  {
    if i < |rows| - 1 {
      LastRowWins(rows[..|rows| - 1], i);
    }
  }

  // The source table, its downstream replica and the snapshotter between them.

  type Table = map<string, Json>

  datatype World = World(table: string, source: Table, replica: Table, snap: Snapshotter)

  function Effect(t: Table, e: ChangeEvent): Table {
    match e.operation
    case Create | Update | Snapshot => if e.after.Some? then t[e.key := e.after.value] else t
    case Delete => t - {e.key}
    case _ => t
  }

  /** A log event takes effect at the source and is then observed and forwarded; other tables are not this table. */
  function Log(w: World, e: ChangeEvent): World {
    var ours := e.table == w.table && !IsWatermark(e);
    w.(source := if ours then Effect(w.source, e) else w.source,
       replica := if ours then Effect(w.replica, e) else w.replica,
       snap := Observe(w.snap, e))
  }

  function LogAll(w: World, es: seq<ChangeEvent>): World {
    if es == [] then w else Log(LogAll(w, es[..|es| - 1]), es[|es| - 1])
  }

  function Load(w: World, rows: seq<ChangeEvent>): World {
    w.(snap := w.snap.(chunk := Keyed(rows)))
  }

  function EffectAll(t: Table, es: seq<ChangeEvent>): Table {
    if es == [] then t else Effect(EffectAll(t, es[..|es| - 1]), es[|es| - 1])
  }

  function Flush(w: World, flushed: seq<ChangeEvent>): World {
    w.(replica := EffectAll(w.replica, flushed), snap := w.snap.(chunk := map[]))
  }

  /** An ordinary log event: not a marker, and a committed row change carrying its new row. */
  predicate RowEvent(e: ChangeEvent) {
    && !IsMarker(e)
    && e.operation != Snapshot
    && (e.operation == Create || e.operation == Update ==> e.after.Some?)
  }

  predicate RowEvents(es: seq<ChangeEvent>) {
    forall i :: 0 <= i < |es| ==> RowEvent(es[i])
  }

  /** No event of another table has a key in the range: the chunk is looked up by key alone. */
  ghost predicate NoForeignKeys(es: seq<ChangeEvent>, table: string, range: iset<string>) {
    forall i :: 0 <= i < |es| && es[i].table != table && !IsWatermark(es[i]) ==> es[i].key !in range
  }

  /** The rows are the result of selecting the range from the source. */
  ghost predicate ChunkRead(rows: seq<ChangeEvent>, source: Table, range: iset<string>) {
    && (forall i :: 0 <= i < |rows| ==>
          && rows[i].operation == Snapshot
          && rows[i].key in range && rows[i].key in source
          && rows[i].after == Some(source[rows[i].key]))
    && (forall k :: k in range && k in source ==> exists i :: 0 <= i < |rows| && rows[i].key == k)
  }

  /** Whatever the replica holds is current. */
  predicate PartialCopy(w: World) {
    forall k :: k in w.replica ==> k in w.source && w.replica[k] == w.source[k]
  }

  /** Every source row among `keys` has reached the replica. */
  ghost predicate Covered(w: World, keys: iset<string>) {
    forall k :: k in keys && k in w.source ==> k in w.replica
  }

  /** The replica equals the source on the range. */
  ghost predicate Converged(w: World, range: iset<string>) {
    forall k :: k in range ==> Row(w.replica, k) == Row(w.source, k)
  }

  // One key at a time: what a stretch of the log does to its row.

  function Row(t: Table, k: string): Option<Json> {
    if k in t then Some(t[k]) else None
  }

  predicate Touches(e: ChangeEvent, table: string, k: string) {
    && e.table == table && e.key == k
    && (e.operation == Create || e.operation == Update || e.operation == Delete)
  }

  predicate Touched(es: seq<ChangeEvent>, table: string, k: string) {
    exists i :: 0 <= i < |es| && Touches(es[i], table, k)
  }

  /** The row the events leave at `k` in their table, given the row before them. */
  function RowAfter(es: seq<ChangeEvent>, table: string, k: string, row: Option<Json>): Option<Json> {
    if es == [] then row
    else
      var e := es[|es| - 1];
      if !Touches(e, table, k) then RowAfter(es[..|es| - 1], table, k, row)
      else if e.operation == Delete then None else e.after
  }

  /** What events of any table leave of a chunk row: the last write, unless a delete removed it for good. */
  function KeptRow(es: seq<ChangeEvent>, k: string, row: Option<Json>): Option<Json> {
    if es == [] then row
    else
      var e := es[|es| - 1];
      var kept := KeptRow(es[..|es| - 1], k, row);
      if IsWatermark(e) || !Touches(e, e.table, k) || kept.None? then kept
      else if e.operation == Delete then None else e.after
  }

  lemma {:induction false} RowsFollowLog(w: World, es: seq<ChangeEvent>, k: string)
    requires RowEvents(es) && w.table != WATERMARK_TABLE
    ensures
      var r := LogAll(w, es);
      && r.table == w.table
      && Row(r.source, k) == RowAfter(es, w.table, k, Row(w.source, k))
      && Row(r.replica, k) == RowAfter(es, w.table, k, Row(w.replica, k))
  {
    hide Observe;
    if es != [] {
      RowsFollowLog(w, es[..|es| - 1], k);
    }
  }

  lemma TouchedExtends(es: seq<ChangeEvent>, table: string, k: string)
    requires es != []
    ensures Touched(es, table, k) <==> Touched(es[..|es| - 1], table, k) || Touches(es[|es| - 1], table, k)
  {
    assert forall i :: 0 <= i < |es| - 1 ==> es[..|es| - 1][i] == es[i];
    assert Touched(es[..|es| - 1], table, k) ==> Touched(es, table, k);
  }

  /** The last event to touch a row decides it; if none does it stays. */
  lemma {:induction false} TouchedDecides(
      es: seq<ChangeEvent>, table: string, k: string, a: Option<Json>, b: Option<Json>)
    ensures Touched(es, table, k) ==> RowAfter(es, table, k, a) == RowAfter(es, table, k, b)
    ensures !Touched(es, table, k) ==> RowAfter(es, table, k, a) == a
  {
    if es != [] {
      TouchedExtends(es, table, k);
      TouchedDecides(es[..|es| - 1], table, k, a, b);
    }
  }

  lemma {:induction false} RowAfterConcat(
      a: seq<ChangeEvent>, b: seq<ChangeEvent>, table: string, k: string, row: Option<Json>)
    ensures RowAfter(a + b, table, k, row) == RowAfter(b, table, k, RowAfter(a, table, k, row))
  {
    if b == [] {
      assert a + b == a;
    } else {
      RowAfterConcat(a, b[..|b| - 1], table, k, row);
      assert (a + b)[..|a + b| - 1] == a + b[..|b| - 1];
    }
  }

  /** Rows of the chunk come from a select: they carry a row and stand under their own key. */
  predicate ChunkSound(chunk: Chunk) {
    forall k :: k in chunk ==> chunk[k].key == k && chunk[k].operation == Snapshot && chunk[k].after.Some?
  }

  function ChunkRow(chunk: Chunk, k: string): Option<Json> {
    if k in chunk then chunk[k].after else None
  }

  lemma ChunkObserves(s: Snapshotter, e: ChangeEvent, k: string)
    requires RowEvent(e) && ChunkSound(s.chunk) && s.inWindow
    ensures
      var r := Observe(s, e);
      && r.inWindow && ChunkSound(r.chunk)
      && ChunkRow(r.chunk, k)
         == if IsWatermark(e) || !Touches(e, e.table, k) || ChunkRow(s.chunk, k).None? then ChunkRow(s.chunk, k)
            else if e.operation == Delete then None else e.after
  {
  }

  lemma {:induction false} ChunkFollowsLog(w: World, es: seq<ChangeEvent>, k: string)
    requires RowEvents(es) && ChunkSound(w.snap.chunk) && w.snap.inWindow
    ensures
      var r := LogAll(w, es);
      && r.snap.inWindow && ChunkSound(r.snap.chunk)
      && ChunkRow(r.snap.chunk, k) == KeptRow(es, k, ChunkRow(w.snap.chunk, k))
  {
    hide Observe, ChunkSound, ChunkRow, RowEvent, Touches;
    if es != [] {
      ChunkFollowsLog(w, es[..|es| - 1], k);
      ChunkObserves(LogAll(w, es[..|es| - 1]).snap, es[|es| - 1], k);
    }
  }

  /** An event of any table that writes a row under this key. */
  predicate Writes(e: ChangeEvent, k: string) {
    !IsWatermark(e) && e.key == k && (e.operation == Create || e.operation == Update)
  }

  lemma WriteObserved(s: Snapshotter, e: ChangeEvent, k: string)
    requires RowEvent(e) && s.inWindow && k in Observe(s, e).chunk
    ensures k in s.chunk
    ensures Observe(s, e).chunk[k]
         == if Writes(e, k) then s.chunk[k].(after := e.after, timestamp := e.timestamp) else s.chunk[k]
  {
  }

  /**
   * A row still in the chunk is the loaded one as it was, or with the row and the time of the last event that
   * wrote it, and nothing else of that event.
   */
  lemma {:induction false} ReconciledWhole(w: World, es: seq<ChangeEvent>, k: string) returns (i: nat)
    requires RowEvents(es) && w.snap.inWindow && k in LogAll(w, es).snap.chunk
    ensures k in w.snap.chunk
    ensures
      var kept := LogAll(w, es).snap.chunk[k];
      if forall j :: 0 <= j < |es| ==> !Writes(es[j], k) then kept == w.snap.chunk[k]
      else
        && i < |es| && Writes(es[i], k) && (forall j :: i < j < |es| ==> !Writes(es[j], k))
        && kept == w.snap.chunk[k].(after := es[i].after, timestamp := es[i].timestamp)
  {
    hide Observe, Writes, RowEvent;
    i := 0;
    if es != [] {
      var front, last := es[..|es| - 1], es[|es| - 1];
      WindowStays(w, front);
      WriteObserved(LogAll(w, front).snap, last, k);
      i := ReconciledWhole(w, front, k);
      if Writes(last, k) {
        i := |es| - 1;
      }
    }
  }

  lemma {:induction false} WindowStays(w: World, es: seq<ChangeEvent>)
    requires RowEvents(es)
    ensures LogAll(w, es).snap.inWindow == w.snap.inWindow
    ensures w.snap.chunk == map[] ==> LogAll(w, es).snap == w.snap
  {
    if es != [] {
      WindowStays(w, es[..|es| - 1]);
    }
  }

  /** The log keeps a partial copy partial and covered keys covered. */
  lemma LogKeepsCopy(w: World, es: seq<ChangeEvent>, keys: iset<string>)
    requires RowEvents(es) && w.table != WATERMARK_TABLE && PartialCopy(w) && Covered(w, keys)
    ensures PartialCopy(LogAll(w, es)) && Covered(LogAll(w, es), keys)
  {
    var r := LogAll(w, es);
    forall k
      ensures k in r.replica ==> k in r.source && r.replica[k] == r.source[k]
      ensures k in keys && k in r.source ==> k in r.replica
    {
      RowsFollowLog(w, es, k);
      TouchedDecides(es, w.table, k, Row(w.source, k), Row(w.replica, k));
      TouchedDecides(es, w.table, k, Row(w.replica, k), Row(w.source, k));
    }
  }

  lemma {:induction false} KeyedRows(rows: seq<ChangeEvent>, k: string)
    ensures k in Keyed(rows) <==> exists i :: 0 <= i < |rows| && rows[i].key == k
    ensures k in Keyed(rows) ==> Keyed(rows)[k] in rows && Keyed(rows)[k].key == k
  {
    if rows != [] {
      var front := rows[..|rows| - 1];
      KeyedRows(front, k);
      if exists i :: 0 <= i < |rows| && rows[i].key == k {
        var i :| 0 <= i < |rows| && rows[i].key == k;
        assert i < |front| ==> front[i].key == k;
      }
      if rows[|rows| - 1].key != k && k in Keyed(front) {
        var i :| 0 <= i < |front| && front[i] == Keyed(front)[k];
        assert rows[i] == front[i];
      }
    }
  }

  lemma {:induction false} FlushKeeps(t: Table, flushed: seq<ChangeEvent>, k: string)
    requires forall i :: 0 <= i < |flushed| ==> flushed[i].key != k
    ensures Row(EffectAll(t, flushed), k) == Row(t, k)
  {
    if flushed != [] {
      FlushKeeps(t, flushed[..|flushed| - 1], k);
    }
  }

  lemma {:induction false} FlushSets(t: Table, flushed: seq<ChangeEvent>, i: nat)
    requires i < |flushed| && flushed[i].operation == Snapshot && flushed[i].after.Some?
    requires forall j :: i < j < |flushed| ==> flushed[j].key != flushed[i].key
    ensures Row(EffectAll(t, flushed), flushed[i].key) == flushed[i].after
  {
    if i < |flushed| - 1 {
      var front := flushed[..|flushed| - 1];
      assert front[i] == flushed[i];
      FlushSets(t, front, i);
    }
  }

  /** After a flush a key holds the chunk's row if the chunk had one, and is as before otherwise. */
  lemma FlushedRow(t: Table, chunk: Chunk, flushed: seq<ChangeEvent>, k: string)
    requires IsFlush(chunk, flushed) && ChunkSound(chunk)
    ensures Row(EffectAll(t, flushed), k) == if k in chunk then chunk[k].after else Row(t, k)
  {
    hide EffectAll;
    if k in chunk {
      var i :| 0 <= i < |flushed| && flushed[i] == chunk[k];
      FlushSets(t, flushed, i);
    } else {
      FlushKeeps(t, flushed, k);
    }
  }

  /**
   * One snapshot window: log events before it, the low marker, the events of the window, the high marker, the
   * flush. The chunk is loaded when the log has been processed up to event `load` of the window. Its rows show
   * the source as of event `read`, counted over the gap and the window, which may lie ahead of what has been
   * processed.
   */
  datatype Window = Window(
    gap: seq<ChangeEvent>,
    low: ChangeEvent,
    events: seq<ChangeEvent>,
    load: nat,
    read: nat,
    range: iset<string>,
    rows: seq<ChangeEvent>,
    high: ChangeEvent,
    flushed: seq<ChangeEvent>)
  {
    function Events(): seq<ChangeEvent> {
      gap + events
    }

    /** The load point, counted like the read point. */
    function LoadPoint(): nat {
      |gap| + load
    }

    predicate Placed() {
      load <= |events| && read <= |gap| + |events|
    }

    function Late(): seq<ChangeEvent>
      requires Placed()
    {
      events[load..]
    }
  }

  ghost function AtLoad(w: World, n: Window): World
    requires n.Placed()
  {
    LogAll(Log(LogAll(w, n.gap), n.low), n.events[..n.load])
  }

  ghost function AtHigh(w: World, n: Window): World
    requires n.Placed()
  {
    Log(LogAll(Load(AtLoad(w, n), n.rows), n.Late()), n.high)
  }

  ghost function RunWindow(w: World, n: Window): World
    requires n.Placed()
  {
    Flush(AtHigh(w, n), n.flushed)
  }

  /** The source as it was read. */
  ghost function SourceRead(w: World, n: Window): Table
    requires n.Placed()
  {
    LogAll(w, n.Events()[..n.read]).source
  }

  ghost predicate WindowShape(w: World, n: Window) {
    && RowEvents(n.gap) && RowEvents(n.events)
    && IsMarker(n.low) && IsMarker(n.high)
    && n.Placed()
    && ChunkRead(n.rows, SourceRead(w, n), n.range)
    && IsFlush(AtHigh(w, n).snap.chunk, n.flushed)
  }

  /** Between windows: no chunk, window closed, and the replica a current copy of part of the source. */
  predicate Resting(w: World) {
    && w.table != WATERMARK_TABLE
    && w.snap.chunk == map[] && !w.snap.inWindow
    && PartialCopy(w)
  }

  lemma RowEventsParts(n: Window)
    requires n.Placed() && RowEvents(n.gap) && RowEvents(n.events)
    ensures RowEvents(n.events[..n.load]) && RowEvents(n.Late())
    ensures forall p :: 0 <= p <= |n.Events()| ==> RowEvents(n.Events()[..p])
  {
  }

  lemma LoadedChunk(w: World, n: Window, k: string)
    requires Resting(w) && WindowShape(w, n)
    ensures ChunkSound(Keyed(n.rows))
    ensures k in Keyed(n.rows) <==> k in n.range && k in SourceRead(w, n)
    ensures ChunkRow(Keyed(n.rows), k) == if k in n.range then Row(SourceRead(w, n), k) else None
  {
    forall x {
      KeyedRows(n.rows, x);
    }
  }

  /** The rows of source and replica at the load point and at the read point, from those before the window. */
  lemma RowsAtLoad(w: World, n: Window, k: string)
    requires Resting(w) && WindowShape(w, n)
    ensures
      var before := n.Events()[..n.LoadPoint()];
      var at := AtLoad(w, n);
      && at.table == w.table && at.snap.inWindow
      && Row(at.source, k) == RowAfter(before, w.table, k, Row(w.source, k))
      && Row(at.replica, k) == RowAfter(before, w.table, k, Row(w.replica, k))
    ensures Row(SourceRead(w, n), k) == RowAfter(n.Events()[..n.read], w.table, k, Row(w.source, k))
  {
    RowEventsParts(n);
    var gapped := LogAll(w, n.gap);
    RowsFollowLog(w, n.gap, k);
    RowsFollowLog(Log(gapped, n.low), n.events[..n.load], k);
    WindowStays(w, n.gap);
    WindowStays(Log(gapped, n.low), n.events[..n.load]);
    assert n.Events()[..n.LoadPoint()] == n.gap + n.events[..n.load];
    RowAfterConcat(n.gap, n.events[..n.load], w.table, k, Row(w.source, k));
    RowAfterConcat(n.gap, n.events[..n.load], w.table, k, Row(w.replica, k));
    RowsFollowLog(w, n.Events()[..n.read], k);
  }

  /** Source, replica and chunk at the high marker. */
  lemma RowsAtHigh(w: World, n: Window, k: string)
    requires Resting(w) && WindowShape(w, n)
    ensures
      var at := AtLoad(w, n);
      var h := AtHigh(w, n);
      && h.table == w.table && !h.snap.inWindow && ChunkSound(h.snap.chunk)
      && Row(h.source, k) == RowAfter(n.Late(), w.table, k, Row(at.source, k))
      && Row(h.replica, k) == RowAfter(n.Late(), w.table, k, Row(at.replica, k))
      && ChunkRow(h.snap.chunk, k) == KeptRow(n.Late(), k, ChunkRow(Keyed(n.rows), k))
  {
    RowEventsParts(n);
    RowsAtLoad(w, n, k);
    LoadedChunk(w, n, k);
    var loaded := Load(AtLoad(w, n), n.rows);
    RowsFollowLog(loaded, n.Late(), k);
    ChunkFollowsLog(loaded, n.Late(), k);
  }

  /** A row the chunk never had stays out of it. */
  lemma {:induction false} KeptNone(es: seq<ChangeEvent>, k: string)
    ensures KeptRow(es, k, None) == None
  {
    if es != [] {
      KeptNone(es[..|es| - 1], k);
    }
  }

  /**
   * A row of the loaded chunk ends right: if it is still there at the high marker it is the source's row; if an
   * event removed it, its own table touched the key since, or had no row, or the replica had it all along.
   */
  ghost predicate Reconciled(w: World, n: Window, k: string)
    requires n.Placed() && k in Keyed(n.rows)
  {
    var at := AtLoad(w, n);
    match KeptRow(n.Late(), k, Keyed(n.rows)[k].after)
    case Some(v) => RowAfter(n.Late(), w.table, k, Row(at.source, k)) == Some(v)
    case None => Touched(n.Late(), w.table, k) || (k in at.source ==> k in at.replica)
  }

  lemma CopyAtLoad(w: World, n: Window, k: string)
    requires Resting(w) && WindowShape(w, n)
    ensures
      var at := AtLoad(w, n);
      k in at.replica ==> k in at.source && at.replica[k] == at.source[k]
  {
    RowsAtLoad(w, n, k);
    var before := n.Events()[..n.LoadPoint()];
    TouchedDecides(before, w.table, k, Row(w.source, k), Row(w.replica, k));
    TouchedDecides(before, w.table, k, Row(w.replica, k), Row(w.source, k));
  }

  lemma ReconciledRow(w: World, n: Window, k: string)
    requires Resting(w) && WindowShape(w, n) && k in Keyed(n.rows)
    ensures
      var r := RunWindow(w, n);
      Row(r.replica, k) == Row(r.source, k) <==> Reconciled(w, n, k)
  {
    var at, h, late := AtLoad(w, n), AtHigh(w, n), n.Late();
    RowsAtHigh(w, n, k);
    CopyAtLoad(w, n, k);
    FlushedRow(h.replica, h.snap.chunk, n.flushed, k);
    TouchedDecides(late, w.table, k, Row(at.source, k), Row(at.replica, k));
    TouchedDecides(late, w.table, k, Row(at.replica, k), Row(at.source, k));
  }

  /** A row read early, carried to the load point by the events in between. */
  lemma ReadBeforeLoad(w: World, n: Window, k: string)
    requires Resting(w) && WindowShape(w, n) && n.read < n.LoadPoint()
    ensures Row(AtLoad(w, n).source, k)
         == RowAfter(n.Events()[n.read..n.LoadPoint()], w.table, k, Row(SourceRead(w, n), k))
  {
    hide RowAfter, AtLoad, AtHigh, SourceRead, ChunkRead, IsFlush, RowEvents, Resting;
    RowsAtLoad(w, n, k);
    var es, l := n.Events(), n.LoadPoint();
    assert es[..l] == es[..n.read] + es[n.read..l];
    RowAfterConcat(es[..n.read], es[n.read..l], w.table, k, Row(w.source, k));
  }

  /** A row read ahead, which no event since the load touched, is the row at the load point. */
  lemma ReadAfterLoad(w: World, n: Window, k: string)
    requires Resting(w) && WindowShape(w, n) && n.read >= n.LoadPoint() && !Touched(n.Late(), w.table, k)
    ensures Row(AtLoad(w, n).source, k) == Row(SourceRead(w, n), k)
  {
    hide RowAfter, AtLoad, AtHigh, SourceRead, ChunkRead, IsFlush, RowEvents, Resting;
    RowsAtLoad(w, n, k);
    var es, l := n.Events(), n.LoadPoint();
    assert es[..n.read] == es[..l] + es[l..n.read];
    RowAfterConcat(es[..l], es[l..n.read], w.table, k, Row(w.source, k));
    UntouchedPrefix(n.Late(), n.read - l, w.table, k);
    assert es[l..n.read] == n.Late()[..n.read - l];
    TouchedDecides(es[l..n.read], w.table, k, RowAfter(es[..l], w.table, k, Row(w.source, k)), None);
  }

  lemma UntouchedPrefix(es: seq<ChangeEvent>, m: nat, table: string, k: string)
    requires m <= |es| && !Touched(es, table, k)
    ensures !Touched(es[..m], table, k)
  {
    assert forall i :: 0 <= i < m ==> es[..m][i] == es[i];
  }

  /** A key of the range that the select did not return ends right by itself. */
  lemma AbsentRow(w: World, n: Window, k: string)
    requires Resting(w) && WindowShape(w, n) && k in n.range && k !in Keyed(n.rows)
    ensures Row(RunWindow(w, n).replica, k) == Row(RunWindow(w, n).source, k)
  {
    var at, h, late := AtLoad(w, n), AtHigh(w, n), n.Late();
    RowsAtHigh(w, n, k);
    CopyAtLoad(w, n, k);
    LoadedChunk(w, n, k);
    KeptNone(late, k);
    FlushedRow(h.replica, h.snap.chunk, n.flushed, k);
    TouchedDecides(late, w.table, k, Row(at.source, k), Row(at.replica, k));
    if n.read < n.LoadPoint() {
      AbsentAtRead(w, n, k);
    } else if !Touched(late, w.table, k) {
      ReadAfterLoad(w, n, k);
    }
  }

  lemma CopyBefore(w: World, k: string)
    requires PartialCopy(w)
    ensures Row(w.replica, k) == None || Row(w.replica, k) == Row(w.source, k)
  {
  }

  lemma AbsentAtRead(w: World, n: Window, k: string)
    requires Resting(w) && WindowShape(w, n) && n.read < n.LoadPoint() && k !in SourceRead(w, n)
    ensures Row(AtLoad(w, n).source, k) == Row(AtLoad(w, n).replica, k)
  {
    hide RowAfter, AtLoad, AtHigh, SourceRead, ChunkRead, IsFlush, RowEvents;
    RowsAtLoad(w, n, k);
    CopyBefore(w, k);
    var es, l := n.Events(), n.LoadPoint();
    var source, replica := Row(w.source, k), Row(w.replica, k);
    assert es[..l] == es[..n.read] + es[n.read..l];
    RowAfterConcat(es[..n.read], es[n.read..l], w.table, k, source);
    RowAfterConcat(es[..n.read], es[n.read..l], w.table, k, replica);
    TouchedDecides(es[..n.read], w.table, k, source, replica);
    TouchedDecides(es[..n.read], w.table, k, replica, source);
  }

  /**
   * Exactness of one window, whenever the chunk is read and whatever tables the events belong to: the replica
   * ends equal to the source on the range if and only if every row of the loaded chunk is reconciled.
   */
  lemma WindowExact(w: World, n: Window)
    requires Resting(w) && WindowShape(w, n)
    ensures Converged(RunWindow(w, n), n.range) <==> forall k :: k in Keyed(n.rows) ==> Reconciled(w, n, k)
  {
    hide Reconciled, RunWindow, Keyed, Row, ChunkRead, IsFlush, RowEvents, AtHigh, SourceRead;
    forall k
      ensures k in n.range && k !in Keyed(n.rows) ==> Row(RunWindow(w, n).replica, k) == Row(RunWindow(w, n).source, k)
      ensures k in Keyed(n.rows) ==>
                && k in n.range
                && (Row(RunWindow(w, n).replica, k) == Row(RunWindow(w, n).source, k) <==> Reconciled(w, n, k))
    {
      LoadedChunk(w, n, k);
      if k in Keyed(n.rows) {
        ReconciledRow(w, n, k);
      } else if k in n.range {
        AbsentRow(w, n, k);
      }
    }
  }

  /** With no event of another table under the key, a chunk row follows its own table. */
  lemma {:induction false} KeptWithoutForeign(
      es: seq<ChangeEvent>, table: string, range: iset<string>, k: string, row: Option<Json>, any: Option<Json>)
    requires NoForeignKeys(es, table, range) && k in range && table != WATERMARK_TABLE
    ensures KeptRow(es, k, row) == None ||
            KeptRow(es, k, row) == if Touched(es, table, k) then RowAfter(es, table, k, any) else row
    ensures !Touched(es, table, k) ==> KeptRow(es, k, row) == row
  {
    if es != [] {
      var front := es[..|es| - 1];
      assert forall i :: 0 <= i < |front| ==> front[i] == es[i];
      TouchedExtends(es, table, k);
      KeptWithoutForeign(front, table, range, k, row, any);
    }
  }

  /** A row of a chunk read too early is stale unless the window touches it again or it was last rewritten as it was. */
  ghost predicate ReadInTime(w: World, n: Window, k: string)
    requires n.Placed() && k in Keyed(n.rows)
  {
    || n.read >= n.LoadPoint()
    || Touched(n.Late(), w.table, k)
    || RowAfter(n.Events()[n.read..n.LoadPoint()], w.table, k, Keyed(n.rows)[k].after) == Keyed(n.rows)[k].after
  }

  lemma ReconciledInTime(w: World, n: Window, k: string)
    requires Resting(w) && WindowShape(w, n) && NoForeignKeys(n.Late(), w.table, n.range)
    requires k in Keyed(n.rows)
    ensures Reconciled(w, n, k) <==> ReadInTime(w, n, k)
  {
    LoadedChunk(w, n, k);
    var at, row := AtLoad(w, n), Keyed(n.rows)[k].after;
    KeptWithoutForeign(n.Late(), w.table, n.range, k, row, Row(at.source, k));
    TouchedDecides(n.Late(), w.table, k, Row(at.source, k), None);
    if n.read < n.LoadPoint() {
      ReadBeforeLoad(w, n, k);
    } else if !Touched(n.Late(), w.table, k) {
      ReadAfterLoad(w, n, k);
    }
  }

  /**
   * When the chunk may be read: with no foreign keys in the range the window converges if and only if every
   * chunk row was read at or after the load point in the log, or was touched again after it, or was left as read
   * by the events in between.
   */
  lemma ReadPointExact(w: World, n: Window)
    requires Resting(w) && WindowShape(w, n) && NoForeignKeys(n.Late(), w.table, n.range)
    ensures Converged(RunWindow(w, n), n.range) <==> forall k :: k in Keyed(n.rows) ==> ReadInTime(w, n, k)
  {
    hide Reconciled, ReadInTime, RunWindow, Keyed, Converged, ChunkRead, IsFlush, RowEvents, AtHigh, SourceRead;
    WindowExact(w, n);
    forall k | k in Keyed(n.rows)
      ensures Reconciled(w, n, k) <==> ReadInTime(w, n, k)
    {
      ReconciledInTime(w, n, k);
    }
  }

  /** The chunk is read when its source is at or ahead of the log processed, and no foreign key is in its range. */
  ghost predicate WindowOk(w: World, n: Window) {
    && WindowShape(w, n)
    && n.read >= n.LoadPoint()
    && NoForeignKeys(n.Late(), w.table, n.range)
  }

  ghost predicate ChunkFresh(w: World, range: iset<string>) {
    forall k :: k in w.snap.chunk ==>
      && k in range && k in w.source
      && w.snap.chunk[k].key == k
      && w.snap.chunk[k].operation == Snapshot
      && w.snap.chunk[k].after == Some(w.source[k])
  }

  lemma HighMarkerRow(w: World, n: Window, k: string)
    requires Resting(w) && WindowOk(w, n)
    ensures
      var h := AtHigh(w, n);
      && h.table == w.table && !h.snap.inWindow && ChunkSound(h.snap.chunk)
      && (k in h.replica ==> k in h.source && h.replica[k] == h.source[k])
      && (k in h.snap.chunk ==> k in n.range && k in h.source && h.snap.chunk[k].after == Some(h.source[k]))
  {
    hide RowAfter, KeptRow, AtLoad, AtHigh, SourceRead, ChunkRead, IsFlush, RowEvents, PartialCopy;
    var at, h, late := AtLoad(w, n), AtHigh(w, n), n.Late();
    RowsAtHigh(w, n, k);
    CopyAtLoad(w, n, k);
    LoadedChunk(w, n, k);
    KeptNone(late, k);
    TouchedDecides(late, w.table, k, Row(at.source, k), Row(at.replica, k));
    TouchedDecides(late, w.table, k, Row(at.replica, k), Row(at.source, k));
    if k in Keyed(n.rows) {
      ReconciledInTime(w, n, k);
    }
  }

  /** However far the read ran ahead, at the high marker every row left in the chunk is the source's current one. */
  lemma HighMarkerReached(w: World, n: Window)
    requires Resting(w) && WindowOk(w, n)
    ensures
      var h := AtHigh(w, n);
      h.table == w.table && !h.snap.inWindow && PartialCopy(h) && ChunkFresh(h, n.range)
  {
    hide WindowOk, AtHigh;
    HighMarkerRow(w, n, "");
    forall k {
      HighMarkerRow(w, n, k);
    }
  }

  /**
   * Convergence of one window: whatever the log does before and after the chunk is loaded, however far ahead of
   * it the chunk is read, and in whatever order it is flushed, the replica ends equal to the source on the whole
   * range and current elsewhere, and keeps every key it already had covered.
   */
  lemma WindowConverges(w: World, n: Window, keys: iset<string>)
    requires Resting(w) && Covered(w, keys) && WindowOk(w, n)
    ensures Converged(RunWindow(w, n), n.range)
    ensures Resting(RunWindow(w, n)) && Covered(RunWindow(w, n), keys + n.range)
  {
    ReadPointExact(w, n);
    HighMarkerReached(w, n);
    var h, r := AtHigh(w, n), RunWindow(w, n);
    forall k
      ensures k in r.replica ==> k in r.source && r.replica[k] == r.source[k]
      ensures k in keys + n.range && k in r.source ==> k in r.replica
    {
      FlushedRow(h.replica, h.snap.chunk, n.flushed, k);
      if k in n.range {
        assert Row(r.replica, k) == Row(r.source, k);
      } else if k in keys {
        CoveredAtHigh(w, n, keys, k);
      }
    }
  }

  lemma CoveredAtHigh(w: World, n: Window, keys: iset<string>, k: string)
    requires Resting(w) && Covered(w, keys) && WindowOk(w, n) && k in keys
    ensures Row(AtHigh(w, n).replica, k) == Row(AtHigh(w, n).source, k)
  {
    RowsAtLoad(w, n, k);
    RowsAtHigh(w, n, k);
  }

  // Loading before the low marker.

  /** Loading just before the low marker is the same as loading just after it. */
  lemma LoadCommutesWithMarker(w: World, rows: seq<ChangeEvent>, low: ChangeEvent)
    requires IsMarker(low)
    ensures Log(Load(w, rows), low) == Load(Log(w, low), rows)
  {
  }

  /** Outside a window the log leaves a loaded chunk alone, so that it does not matter when it was loaded. */
  lemma {:induction false} LoadCommutesWithLog(w: World, rows: seq<ChangeEvent>, es: seq<ChangeEvent>)
    requires RowEvents(es) && !w.snap.inWindow
    ensures LogAll(Load(w, rows), es) == Load(LogAll(w, es), rows)
  {
    if es != [] {
      var front := es[..|es| - 1];
      LoadCommutesWithLog(w, rows, front);
      WindowStays(w, front);
    }
  }

  lemma {:induction false} LogAllConcat(w: World, a: seq<ChangeEvent>, b: seq<ChangeEvent>)
    ensures LogAll(w, a + b) == LogAll(LogAll(w, a), b)
  {
    if b == [] {
      assert a + b == a;
    } else {
      LogAllConcat(w, a, b[..|b| - 1]);
      assert (a + b)[..|a + b| - 1] == a + b[..|b| - 1];
    }
  }

  /** The same window with the chunk loaded in the gap, when its first `p` events have been processed. */
  ghost function AtHighLoadedInGap(w: World, n: Window, p: nat): World
    requires p <= |n.gap|
  {
    var atLow := LogAll(Load(LogAll(w, n.gap[..p]), n.rows), n.gap[p..]);
    Log(LogAll(Log(atLow, n.low), n.events), n.high)
  }

  /** Loading anywhere in the gap is loading at the low marker. */
  lemma GapLoadIsLowLoad(w: World, n: Window, p: nat)
    requires n.Placed() && n.load == 0 && p <= |n.gap|
    requires !w.snap.inWindow && RowEvents(n.gap) && IsMarker(n.low)
    ensures AtHighLoadedInGap(w, n, p) == AtHigh(w, n)
  {
    hide Log, Load, RowEvents;
    var a, b := n.gap[..p], n.gap[p..];
    assert RowEvents(a) && RowEvents(b) by { GapParts(n.gap, p); }
    assert n.gap == a + b && n.events[..0] == [] && n.Late() == n.events;
    WindowStays(w, a);
    LogAllConcat(w, a, b);
    LoadCommutesWithLog(LogAll(w, a), n.rows, b);
    LoadCommutesWithMarker(LogAll(w, n.gap), n.rows, n.low);
  }

  lemma GapParts(es: seq<ChangeEvent>, p: nat)
    requires RowEvents(es) && p <= |es|
    ensures RowEvents(es[..p]) && RowEvents(es[p..])
  {
  }

  /**
   * So for a chunk loaded anywhere before the low marker the window converges if and only if every row was read
   * at or ahead of the low marker in the log, or was touched after it, or was left as read by the events between.
   */
  lemma GapLoadExact(w: World, n: Window, p: nat)
    requires Resting(w) && WindowShape(w, n) && n.load == 0 && p <= |n.gap|
    requires NoForeignKeys(n.events, w.table, n.range)
    ensures Converged(Flush(AtHighLoadedInGap(w, n, p), n.flushed), n.range) <==>
            forall k :: k in Keyed(n.rows) ==> ReadInTime(w, n, k)
  {
    hide AtHigh, AtHighLoadedInGap, Converged, ReadInTime, Keyed, ChunkRead, IsFlush, SourceRead;
    assert n.Late() == n.events;
    GapLoadIsLowLoad(w, n, p);
    ReadPointExact(w, n);
  }

  ghost predicate WindowsOk(w: World, ns: seq<Window>)
    decreases |ns|, 0
  {
    ns == [] ||
    (WindowsOk(w, ns[..|ns| - 1]) && WindowOk(RunWindows(w, ns[..|ns| - 1]), ns[|ns| - 1]))
  }

  ghost function RunWindows(w: World, ns: seq<Window>): World
    requires WindowsOk(w, ns)
    decreases |ns|, 1
  {
    if ns == [] then w else RunWindow(RunWindows(w, ns[..|ns| - 1]), ns[|ns| - 1])
  }

  ghost function Ranges(ns: seq<Window>): iset<string> {
    if ns == [] then iset{} else Ranges(ns[..|ns| - 1]) + ns[|ns| - 1].range
  }

  lemma {:induction false} WindowsConverge(w: World, ns: seq<Window>)
    requires Resting(w) && WindowsOk(w, ns)
    ensures Resting(RunWindows(w, ns)) && Covered(RunWindows(w, ns), Ranges(ns))
  {
    if ns != [] {
      var front := ns[..|ns| - 1];
      WindowsConverge(w, front);
      WindowConverges(RunWindows(w, front), ns[|ns| - 1], Ranges(front));
    }
  }

  /**
   * Backfill: from any current partial copy, an empty one included, successive windows with arbitrary events
   * inside, between and after them end with the replica equal to the source once the ranges cover its keys.
   */
  lemma BackfillComplete(w: World, ns: seq<Window>, tail: seq<ChangeEvent>)
    requires Resting(w) && WindowsOk(w, ns) && RowEvents(tail)
    requires forall k :: k in LogAll(RunWindows(w, ns), tail).source ==> k in Ranges(ns)
    ensures LogAll(RunWindows(w, ns), tail).replica == LogAll(RunWindows(w, ns), tail).source
  {
    WindowsConverge(w, ns);
    LogKeepsCopy(RunWindows(w, ns), tail, Ranges(ns));
  }

  // Why the premises are needed: one table to a chunk, and the flush at the high marker.

  function Plain(table: string, operation: Operation, key: string, after: Option<Json>): ChangeEvent {
    ChangeEvent("", "db", table, operation, 0, key, None, after, None, "")
  }

  lemma SingleEvent(e: ChangeEvent, table: string, k: string, row: Option<Json>)
    requires !Touches(e, table, k) && !IsWatermark(e) && row.Some?
    ensures RowAfter([e], table, k, row) == row && !Touched([e], table, k)
    ensures KeptRow([e], k, row)
         == if !Touches(e, e.table, k) then row else if e.operation == Delete then None else e.after
  {
    assert [e][..0] == [];
  }

  lemma LoneForeignEvent(w: World, n: Window, x: string)
    requires Resting(w) && WindowShape(w, n) && n.read >= n.LoadPoint()
    requires |n.Late()| == 1 && n.Late()[0].table != w.table && !IsWatermark(n.Late()[0])
    requires x in Keyed(n.rows)
    ensures
      var e := n.Late()[0];
      Reconciled(w, n, x) <==>
      (Touches(e, e.table, x) ==>
         if e.operation == Delete then x in AtLoad(w, n).replica else e.after == Keyed(n.rows)[x].after)
  {
    hide AtLoad, AtHigh, SourceRead, ChunkRead, IsFlush, KeptRow, RowAfter, Touched;
    var e := n.Late()[0];
    assert n.Late() == [e] && RowEvent(n.events[n.load]);
    LoadedChunk(w, n, x);
    SingleEvent(e, w.table, x, Keyed(n.rows)[x].after);
    ReadAfterLoad(w, n, x);
  }

  /**
   * One event of another table under the key of a loaded row: a write is harmless only if it carries the same
   * row, for its value reaches the replica, and a delete only if the replica had the row already, for it never
   * does otherwise.
   */
  lemma ForeignEventExact(w: World, n: Window, k: string)
    requires Resting(w) && WindowShape(w, n) && n.read >= n.LoadPoint()
    requires |n.Late()| == 1 && n.Late()[0].table != w.table && !IsWatermark(n.Late()[0])
    requires k in Keyed(n.rows) && Touches(n.Late()[0], n.Late()[0].table, k)
    ensures
      var e := n.Late()[0];
      Converged(RunWindow(w, n), n.range) <==>
      if e.operation == Delete then k in AtLoad(w, n).replica else e.after == Keyed(n.rows)[k].after
  {
    hide AtLoad, RunWindow, SourceRead, ChunkRead, IsFlush, RowEvents, Reconciled, Converged, Keyed;
    WindowExact(w, n);
    forall x | x in Keyed(n.rows)
      ensures Reconciled(w, n, x) <==>
              (x == k ==> if n.Late()[0].operation == Delete then x in AtLoad(w, n).replica
                          else n.Late()[0].after == Keyed(n.rows)[x].after)
    {
      LoneForeignEvent(w, n, x);
    }
  }

  // A window like that, for every operation.

  const MARKER := Plain(WATERMARK_TABLE, Create, "", None)

  const LONE_ROW := Plain("t", Snapshot, "k", Some(Null))

  const LONE_ROW_WORLD := World("t", map["k" := Null], map[], Snapshotter(map[], false, None))

  function ForeignEvent(operation: Operation): ChangeEvent {
    Plain("u", operation, "k", Some(Bool(true)))
  }

  function ForeignWindow(operation: Operation): Window {
    Window([], MARKER, [ForeignEvent(operation)], 0, 0, iset{"k"}, [LONE_ROW], MARKER,
           if operation == Delete then [] else [LONE_ROW.(after := Some(Bool(true)))])
  }

  lemma TablesDiffer()
    ensures "t" != WATERMARK_TABLE && "u" != WATERMARK_TABLE && "t" != "u"
  {
    assert "t"[0] != WATERMARK_TABLE[0] && "u"[0] != WATERMARK_TABLE[0] && "u"[0] != "t"[0];
  }

  lemma ForeignWindowStates(operation: Operation)
    ensures
      var w, n := LONE_ROW_WORLD, ForeignWindow(operation);
      && n.Late() == [ForeignEvent(operation)]
      && Keyed(n.rows) == map["k" := LONE_ROW]
      && SourceRead(w, n) == w.source
      && AtLoad(w, n) == Log(w, MARKER)
      && AtHigh(w, n) == Log(Log(Load(Log(w, MARKER), n.rows), ForeignEvent(operation)), MARKER)
  {
    var n := ForeignWindow(operation);
    hide Log;
    assert [LONE_ROW][..0] == [] && [ForeignEvent(operation)][..0] == [] && n.Events()[..0] == [];
    assert n.Late() == [ForeignEvent(operation)];
    OneEvent(Load(AtLoad(LONE_ROW_WORLD, n), n.rows), ForeignEvent(operation));
  }

  lemma OneEvent(w: World, e: ChangeEvent)
    ensures LogAll(w, [e]) == Log(w, e)
  {
    assert [e][..0] == [];
  }

  lemma ForeignWindowShape(operation: Operation)
    requires operation == Create || operation == Update || operation == Delete
    ensures Resting(LONE_ROW_WORLD) && WindowShape(LONE_ROW_WORLD, ForeignWindow(operation))
  {
    hide AtHigh, SourceRead, Keyed;
    TablesDiffer();
    ForeignWindowStates(operation);
    var w, n := LONE_ROW_WORLD, ForeignWindow(operation);
    assert n.rows[0].key == "k";
    assert AtHigh(w, n).snap.chunk == if operation == Delete then map[] else map["k" := n.flushed[0]];
  }

  /** An event of another table spoils a window whatever its operation: the replica ends stale. */
  lemma ForeignEventSpoils(operation: Operation)
    requires operation == Create || operation == Update || operation == Delete
    ensures
      var w, n := LONE_ROW_WORLD, ForeignWindow(operation);
      && Resting(w) && WindowShape(w, n) && n.read == n.LoadPoint()
      && !Converged(RunWindow(w, n), n.range)
  {
    hide AtHigh, AtLoad, SourceRead, Keyed, WindowShape, Converged, RunWindow;
    TablesDiffer();
    ForeignWindowStates(operation);
    ForeignWindowShape(operation);
    ForeignEventExact(LONE_ROW_WORLD, ForeignWindow(operation), "k");
  }

  function EarlyWindow(): Window {
    Window([], MARKER, [Plain("t", Delete, "k", None)], 1, 0, iset{"k"}, [LONE_ROW], MARKER, [LONE_ROW])
  }

  lemma EarlyWindowStates()
    ensures
      var w, n := LONE_ROW_WORLD, EarlyWindow();
      && n.Late() == [] && n.Events()[n.read..n.LoadPoint()] == n.events
      && Keyed(n.rows) == map["k" := LONE_ROW]
      && SourceRead(w, n) == w.source
      && AtHigh(w, n) == Log(Load(Log(Log(w, MARKER), n.events[0]), n.rows), MARKER)
  {
    hide Log;
    var w, n := LONE_ROW_WORLD, EarlyWindow();
    assert [LONE_ROW][..0] == [] && n.Events() == n.events && n.Events()[..0] == [] && n.Late() == [];
    assert n.events[..1] == [n.events[0]];
    OneEvent(Log(w, MARKER), n.events[0]);
  }

  lemma EarlyWindowShape()
    ensures Resting(LONE_ROW_WORLD) && WindowShape(LONE_ROW_WORLD, EarlyWindow())
  {
    hide AtHigh, SourceRead, Keyed;
    TablesDiffer();
    EarlyWindowStates();
    var w, n := LONE_ROW_WORLD, EarlyWindow();
    assert n.rows[0].key == "k";
    assert AtHigh(w, n).snap.chunk == map["k" := n.flushed[0]];
  }

  /** A chunk read at an earlier point of the log than it is loaded at can bring a deleted row back. */
  lemma EarlyReadSpoils()
    ensures
      var w, n := LONE_ROW_WORLD, EarlyWindow();
      && Resting(w) && WindowShape(w, n) && NoForeignKeys(n.Late(), w.table, n.range)
      && !Converged(RunWindow(w, n), n.range)
  {
    hide AtHigh, SourceRead, Keyed, Converged, RunWindow, RowAfter, WindowShape, Resting;
    EarlyWindowShape();
    EarlyWindowStates();
    var w, n := LONE_ROW_WORLD, EarlyWindow();
    DeletedRow(n.events[0], "t", "k", LONE_ROW.after);
    assert !ReadInTime(w, n, "k");
    ReadPointExact(w, n);
  }

  lemma DeletedRow(e: ChangeEvent, table: string, k: string, row: Option<Json>)
    requires Touches(e, table, k) && e.operation == Delete
    ensures RowAfter([e], table, k, row) == None
  {
  }

  // Events between the high marker and the flush.

  lemma LateEvents(w: World, late: seq<ChangeEvent>, k: string)
    requires RowEvents(late) && !w.snap.inWindow && w.table != WATERMARK_TABLE && PartialCopy(w)
    ensures
      var r := LogAll(w, late);
      && r.snap == w.snap && PartialCopy(r)
      && Row(r.source, k) == RowAfter(late, w.table, k, Row(w.source, k))
  {
    ClosedStays(w, late);
    RowsFollowLog(w, late, k);
    LogKeepsCopy(w, late, iset{});
  }

  lemma {:induction false} ClosedStays(w: World, es: seq<ChangeEvent>)
    requires RowEvents(es) && !w.snap.inWindow
    ensures LogAll(w, es).snap == w.snap
  {
    if es != [] {
      ClosedStays(w, es[..|es| - 1]);
    }
  }

  lemma LateFlushRow(w: World, late: seq<ChangeEvent>, flushed: seq<ChangeEvent>, range: iset<string>, k: string)
    requires w.table != WATERMARK_TABLE && !w.snap.inWindow
    requires PartialCopy(w) && ChunkFresh(w, range)
    requires RowEvents(late) && IsFlush(w.snap.chunk, flushed)
    ensures
      var f := Flush(LogAll(w, late), flushed);
      (k in f.replica ==> k in f.source && f.replica[k] == f.source[k]) <==>
      (k in w.snap.chunk ==> RowAfter(late, w.table, k, w.snap.chunk[k].after) == w.snap.chunk[k].after)
  {
    hide LogAll, EffectAll, IsFlush, RowEvents;
    LateEvents(w, late, k);
    FlushedRow(LogAll(w, late).replica, w.snap.chunk, flushed, k);
  }

  /**
   * Flushing late is harmless exactly when, for every row still in the chunk, the last late event that touched
   * its key wrote that same row back; one late delete or differing write of such a key leaves the replica stale.
   */
  lemma LateFlushExact(w: World, late: seq<ChangeEvent>, flushed: seq<ChangeEvent>, range: iset<string>)
    requires w.table != WATERMARK_TABLE && !w.snap.inWindow
    requires PartialCopy(w) && ChunkFresh(w, range)
    requires RowEvents(late) && IsFlush(w.snap.chunk, flushed)
    ensures PartialCopy(Flush(LogAll(w, late), flushed)) <==>
            forall k :: k in w.snap.chunk ==>
              RowAfter(late, w.table, k, w.snap.chunk[k].after) == w.snap.chunk[k].after
  {
    hide Flush, LogAll, RowAfter, IsFlush, RowEvents, ChunkFresh;
    forall k {
      LateFlushRow(w, late, flushed, range, k);
    }
  }
}
