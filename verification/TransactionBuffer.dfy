/** The transaction buffer, specified by the history of everything it was fed. */
module TransactionBuffers {
  import opened Wrappers
  import opened Events

  datatype Input = Feed(event: ChangeEvent) | Prune(maxSize: nat)

  type History = seq<Input>

  predicate Opens(e: ChangeEvent, tx: string) {
    e.transactionId == Some(tx) && !e.IsControl()
  }

  predicate Closes(e: ChangeEvent, tx: string) {
    e.transactionId == Some(tx) && e.IsControl()
  }

  function Front(h: History): History
    requires h != []
  {
    h[..|h| - 1]
  }

  /** The mutations of one transaction held after a history: nothing of any other transaction enters. */
  function Pending(h: History, tx: string): seq<ChangeEvent>
    decreases |h|, 0
  {
    if h == [] then []
    else
      var earlier := Pending(Front(h), tx);
      match h[|h| - 1]
      case Feed(e) =>
        if Closes(e, tx) then [] else if Opens(e, tx) then earlier + [e] else earlier
      case Prune(maxSize) =>
        if |OpenTransactions(Front(h))| > maxSize then [] else earlier
  }

  function OpenTransactions(h: History): set<string>
    decreases |h|, 1
  {
    set i | 0 <= i < |h| && h[i].Feed? && h[i].event.transactionId.Some?
            && Pending(h, h[i].event.transactionId.value) != [] :: h[i].event.transactionId.value
  }

  /** What feeding `e` after history `h` releases downstream. */
  function Emitted(h: History, e: ChangeEvent): seq<ChangeEvent> {
    match e.transactionId
    case None => [e]
    case Some(tx) => if e.operation == Commit then Pending(h, tx) else []
  }

  lemma {:induction false} PendingIsNamed(h: History, tx: string)
    ensures Pending(h, tx) != [] ==>
              exists i :: 0 <= i < |h| && h[i].Feed? && h[i].event.transactionId == Some(tx)
  {
    if h != [] && Pending(h, tx) != [] {
      var x := h[|h| - 1];
      if x.Feed? && Opens(x.event, tx) {
      } else {
        PendingIsNamed(Front(h), tx);
        var i :| 0 <= i < |Front(h)| && Front(h)[i].Feed? && Front(h)[i].event.transactionId == Some(tx);
        assert h[i] == Front(h)[i];
      }
    }
  }

  lemma OpenTransactionsMember(h: History, tx: string)
    ensures tx in OpenTransactions(h) <==> Pending(h, tx) != []
  {
    PendingIsNamed(h, tx);
    if Pending(h, tx) != [] {
      var i :| 0 <= i < |h| && h[i].Feed? && h[i].event.transactionId == Some(tx);
      assert h[i].event.transactionId.value == tx;
    }
  }

  /** A buffer holds exactly the open transactions, each with its pending mutations. */
  ghost predicate Mirrors(buffer: map<string, seq<ChangeEvent>>, h: History) {
    && (forall tx :: tx in buffer <==> Pending(h, tx) != [])
    && (forall tx :: tx in buffer ==> buffer[tx] == Pending(h, tx))
  }

  lemma HeldIsPending(buffer: map<string, seq<ChangeEvent>>, h: History, tx: string)
    requires Mirrors(buffer, h)
    ensures (if tx in buffer then buffer[tx] else []) == Pending(h, tx)
  {
    hide Pending;
  }

  lemma PendingAfterFeed(h: History, e: ChangeEvent, tx: string)
    ensures Pending(h + [Feed(e)], tx)
         == if Closes(e, tx) then [] else Pending(h, tx) + if Opens(e, tx) then [e] else []
  {
    hide OpenTransactions;
    assert Front(h + [Feed(e)]) == h;
  }

  lemma PassingMirrors(buffer: map<string, seq<ChangeEvent>>, h: History, e: ChangeEvent)
    requires Mirrors(buffer, h) && e.transactionId.None?
    ensures Mirrors(buffer, h + [Feed(e)])
  {
    hide Pending;
    forall tx {
      PendingAfterFeed(h, e, tx);
    }
  }

  lemma AppendingMirrors(buffer: map<string, seq<ChangeEvent>>, h: History, e: ChangeEvent, tx: string)
    requires Mirrors(buffer, h) && Opens(e, tx)
    ensures Mirrors(buffer[tx := Pending(h, tx) + [e]], h + [Feed(e)])
  {
    hide Pending;
    forall u {
      PendingAfterFeed(h, e, u);
    }
  }

  lemma ClosingMirrors(buffer: map<string, seq<ChangeEvent>>, h: History, e: ChangeEvent, tx: string)
    requires Mirrors(buffer, h) && Closes(e, tx)
    ensures Mirrors(buffer - {tx}, h + [Feed(e)])
  {
    hide Pending;
    forall u {
      PendingAfterFeed(h, e, u);
    }
  }

  class TransactionBuffer {
    var buffer: map<string, seq<ChangeEvent>>
    ghost var history: History

    ghost predicate Valid()
      reads this
    {
      Mirrors(buffer, history)
    }

    constructor ()
      ensures Valid() && history == []
    {
      buffer, history := map[], [];
    }

    method Process(event: ChangeEvent) returns (released: seq<ChangeEvent>)
      requires Valid()
      modifies this
      ensures Valid() && history == old(history) + [Feed(event)]
      ensures released == Emitted(old(history), event)
    {
      hide Mirrors, Pending;
      ghost var before := history;
      history := history + [Feed(event)];
      match event.transactionId {
        case None =>
          PassingMirrors(buffer, before, event);
          released := [event];
        case Some(tx) =>
          HeldIsPending(buffer, before, tx);
          match event.operation {
            case Commit =>
              ClosingMirrors(buffer, before, event, tx);
              released := if tx in buffer then buffer[tx] else [];
              buffer := buffer - {tx};
            case Rollback =>
              ClosingMirrors(buffer, before, event, tx);
              buffer := buffer - {tx};
              released := [];
            case _ =>
              AppendingMirrors(buffer, before, event, tx);
              buffer := buffer[tx := (if tx in buffer then buffer[tx] else []) + [event]];
              released := [];
          }
      }
    }

    method Prune(maxSize: nat)
      requires Valid()
      modifies this
      ensures Valid() && history == old(history) + [Input.Prune(maxSize)]
      ensures buffer == if |old(buffer)| > maxSize then map[] else old(buffer)
    {
      ghost var before := history;
      assert buffer.Keys == OpenTransactions(before) by {
        forall tx {
          OpenTransactionsMember(before, tx);
        }
      }
      assert |buffer| == |buffer.Keys|;
      history := history + [Input.Prune(maxSize)];
      assert Front(history) == before;
      if |buffer| > maxSize {
        buffer := map[];
      }
    }
  }

  /** The mutations of one transaction in a stretch of history, in arrival order. */
  function Select(h: History, tx: string): seq<ChangeEvent> {
    if h == [] then []
    else
      var earlier := Select(Front(h), tx);
      match h[|h| - 1]
      case Feed(e) => if Opens(e, tx) then earlier + [e] else earlier
      case Prune(_) => earlier
  }

  predicate Untouched(h: History, tx: string) {
    forall i :: 0 <= i < |h| ==> h[i].Feed? && !Closes(h[i].event, tx)
  }

  lemma {:induction false} PendingSince(before: History, after: History, tx: string)
    requires Pending(before, tx) == [] && Untouched(after, tx)
    ensures Pending(before + after, tx) == Select(after, tx)
  {
    if after == [] {
      assert before + after == before;
    } else {
      assert Untouched(Front(after), tx) by {
        assert forall i | 0 <= i < |Front(after)| :: Front(after)[i] == after[i];
      }
      PendingSince(before, Front(after), tx);
      assert Front(before + after) == before + Front(after);
      assert (before + after)[|before + after| - 1] == after[|after| - 1];
    }
  }

  /**
   * A commit releases exactly its transaction's mutations since that transaction's previous commit or
   * rollback, in arrival order, whatever other transactions did in between.
   */
  lemma CommitReleasesSinceLastClose(
      before: History, close: ChangeEvent, after: History, tx: string, commit: ChangeEvent)
    requires Closes(close, tx) && Untouched(after, tx)
    requires commit.transactionId == Some(tx) && commit.operation == Commit
    ensures Emitted(before + [Feed(close)] + after, commit) == Select(after, tx)
  {
    var reset := before + [Feed(close)];
    assert Pending(reset, tx) == [];
    PendingSince(reset, after, tx);
  }

  /** The same for a transaction that was never closed before. */
  lemma FirstCommitReleasesAll(h: History, tx: string, commit: ChangeEvent)
    requires Untouched(h, tx)
    requires commit.transactionId == Some(tx) && commit.operation == Commit
    ensures Emitted(h, commit) == Select(h, tx)
  {
    assert [] + h == h;
    PendingSince([], h, tx);
  }

  /** The part of a history one transaction can see. */
  function Project(h: History, tx: string): History {
    if h == [] then []
    else
      var earlier := Project(Front(h), tx);
      var x := h[|h| - 1];
      if x.Feed? && x.event.transactionId == Some(tx) then earlier + [x] else earlier
  }

  /** Without pruning, transactions do not interfere: each one's buffer depends on its own events alone. */
  lemma {:induction false} TransactionsIndependent(h: History, tx: string)
    requires forall i :: 0 <= i < |h| ==> h[i].Feed?
    ensures Pending(h, tx) == Pending(Project(h, tx), tx)
  {
    if h != [] {
      TransactionsIndependent(Front(h), tx);
      var x := h[|h| - 1];
      if x.event.transactionId == Some(tx) {
        assert Front(Project(h, tx)) == Project(Front(h), tx);
      }
    }
  }

  // Where every event went. Each count is of one event `x`.

  function Fed(h: History, x: ChangeEvent): nat {
    if h == [] then 0
    else Fed(Front(h), x) +
         match h[|h| - 1]
         case Feed(e) => if e == x && (e.transactionId.None? || !e.IsControl()) then 1 else 0
         case Prune(_) => 0
  }

  function Held(h: History, x: ChangeEvent): nat {
    if x.transactionId.Some? then multiset(Pending(h, x.transactionId.value))[x] else 0
  }

  function Released(h: History, x: ChangeEvent): nat {
    if h == [] then 0
    else Released(Front(h), x) +
         match h[|h| - 1]
         case Feed(e) => multiset(Emitted(Front(h), e))[x]
         case Prune(_) => 0
  }

  function RolledBack(h: History, x: ChangeEvent): nat {
    if h == [] then 0
    else RolledBack(Front(h), x) +
         match h[|h| - 1]
         case Feed(e) =>
           if e.operation == Rollback && e.transactionId.Some? && e.transactionId == x.transactionId
           then Held(Front(h), x) else 0
         case Prune(_) => 0
  }

  function Pruned(h: History, x: ChangeEvent): nat {
    if h == [] then 0
    else Pruned(Front(h), x) +
         match h[|h| - 1]
         case Feed(_) => 0
         case Prune(maxSize) => if |OpenTransactions(Front(h))| > maxSize then Held(Front(h), x) else 0
  }

  lemma {:induction false} PendingOwned(h: History, tx: string, x: ChangeEvent)
    requires x in Pending(h, tx)
    ensures Opens(x, tx)
  {
    var last := h[|h| - 1];
    if last.Feed? && Opens(last.event, tx) && x == last.event {
    } else {
      PendingOwned(Front(h), tx, x);
    }
  }

  lemma {:induction false} PendingFed(h: History, tx: string, x: ChangeEvent)
    requires x in Pending(h, tx)
    ensures Feed(x) in h && Opens(x, tx)
  {
    PendingOwned(h, tx, x);
    var last := h[|h| - 1];
    if !(last.Feed? && Opens(last.event, tx) && x == last.event) {
      PendingFed(Front(h), tx, x);
      var i :| 0 <= i < |Front(h)| && Front(h)[i] == Feed(x);
      assert h[i] == Feed(x);
    }
  }

  /** One more event fed: what it adds on one side it adds on the other. */
  lemma FeedBalances(h: History, e: ChangeEvent, x: ChangeEvent)
    ensures
      var g := h + [Feed(e)];
      Fed(g, x) - Fed(h, x)
      == Released(g, x) - Released(h, x) + RolledBack(g, x) - RolledBack(h, x) + Held(g, x) - Held(h, x)
  {
    hide OpenTransactions;
    assert Front(h + [Feed(e)]) == h;
    if e.transactionId.Some? && x in Pending(h, e.transactionId.value) {
      PendingOwned(h, e.transactionId.value, x);
    }
  }

  /** Conservation: over any history every event fed in was released, rolled back or pruned, or is still held. */
  lemma {:induction false} EveryEventAccountedFor(h: History, x: ChangeEvent)
    ensures Fed(h, x) == Released(h, x) + RolledBack(h, x) + Pruned(h, x) + Held(h, x)
  {
    if h != [] {
      hide OpenTransactions;
      EveryEventAccountedFor(Front(h), x);
      match h[|h| - 1] {
        case Prune(_) =>
        case Feed(e) =>
          assert h == Front(h) + [Feed(e)];
          FeedBalances(Front(h), e, x);
      }
    }
  }

  /** Everything released over a history, in order. */
  function ReleasedAll(h: History): seq<ChangeEvent> {
    if h == [] then []
    else
      ReleasedAll(Front(h)) +
      match h[|h| - 1]
      case Feed(e) => Emitted(Front(h), e)
      case Prune(_) => []
  }

  lemma {:induction false} ReleasedCounts(h: History, x: ChangeEvent)
    ensures multiset(ReleasedAll(h))[x] == Released(h, x)
  {
    hide Emitted;
    if h != [] {
      ReleasedCounts(Front(h), x);
    }
  }

  lemma {:induction false} ReleasedFed(h: History, x: ChangeEvent)
    requires x in ReleasedAll(h)
    ensures Feed(x) in h
  {
    assert h == Front(h) + [h[|h| - 1]];
    if x in ReleasedAll(Front(h)) {
      ReleasedFed(Front(h), x);
    } else {
      var e := h[|h| - 1].event;
      if e.transactionId.Some? {
        PendingFed(Front(h), e.transactionId.value, x);
      }
    }
  }

  predicate DistinctFeeds(h: History) {
    forall i, j :: 0 <= i < j < |h| && h[i].Feed? && h[j].Feed? ==> h[i].event.id != h[j].event.id
  }

  lemma FrontDistinct(h: History)
    requires DistinctFeeds(h) && h != []
    ensures DistinctFeeds(Front(h))
  {
  }

  lemma {:induction false} FedAtMostOnce(h: History, x: ChangeEvent)
    requires DistinctFeeds(h)
    ensures Fed(h, x) <= 1 && (Fed(h, x) == 1 ==> Feed(x) in h)
  {
    if h != [] {
      FrontDistinct(h);
      FedAtMostOnce(Front(h), x);
      assert h == Front(h) + [h[|h| - 1]];
      if Fed(Front(h), x) == 1 {
        var i :| 0 <= i < |Front(h)| && Front(h)[i] == Feed(x);
        assert h[i] == Feed(x);
      }
    }
  }

  predicate DistinctIdsOf(es: seq<ChangeEvent>) {
    forall i, j :: 0 <= i < j < |es| ==> es[i].id != es[j].id
  }

  lemma TwiceCounted(es: seq<ChangeEvent>, i: nat, j: nat)
    requires i < j < |es| && es[i] == es[j]
    ensures multiset(es)[es[i]] >= 2
  {
    var a, b := es[..j], es[j..];
    assert es == a + b && es[i] == a[i] && es[j] == b[0];
    assert es[i] in a && es[i] in b;
  }

  /** A buffer fed no id twice never releases one twice. */
  lemma ReleasedOnce(h: History)
    requires DistinctFeeds(h)
    ensures DistinctIdsOf(ReleasedAll(h))
  {
    hide ReleasedAll, Released, Fed, Held, RolledBack, Pruned;
    var r := ReleasedAll(h);
    forall i, j | 0 <= i < j < |r|
      ensures r[i].id != r[j].id
    {
      ReleasedFed(h, r[i]);
      ReleasedFed(h, r[j]);
      if r[i] == r[j] {
        TwiceCounted(r, i, j);
        ReleasedCounts(h, r[i]);
        EveryEventAccountedFor(h, r[i]);
        FedAtMostOnce(h, r[i]);
      } else {
        FedApart(h, r[i], r[j]);
      }
    }
  }

  lemma FedApart(h: History, x: ChangeEvent, y: ChangeEvent)
    requires DistinctFeeds(h) && Feed(x) in h && Feed(y) in h && x != y
    ensures x.id != y.id
  {
    var i :| 0 <= i < |h| && h[i] == Feed(x);
    var j :| 0 <= j < |h| && h[j] == Feed(y);
  }
}
