/** The resumable Postgres stream: numbered events, three mutations and a commit to a transaction. */
module PostgresSource {
  import opened Wrappers
  import opened Events
  import opened Decimal

  /** The sequence number a stream resumes after; a missing or unreadable offset means the beginning. */
  function StartSequence(offset: Option<string>): nat {
    match offset
    case None => 0
    case Some(text) =>
      match ParseU64(text)
      case None => 0
      case Some(n) => n
  }

  function EventAt(n: nat, now: int): ChangeEvent
    requires n > 0
  {
    var number := ToText(n);
    var operation := if n % 4 == 0 then Commit else if n % 4 == 1 then Create else Update;
    ChangeEvent(
      "pg-evt-" + number,
      "caminus_db",
      "users",
      operation,
      now,
      "{\"id\":" + number + "}",
      None,
      if n % 4 == 0 then None
      else Some(Object(map[
        "id" := Number(n as real),
        "name" := String("User " + number),
        "email" := String("user" + number + "@caminus.io")])),
      Some(TransactionName((n - 1) / 4 + 1000)),
      number)
  }

  /** The stream unfolded from a sequence number, one event per clock reading. */
  function Unfold(sequence: nat, clock: seq<int>): seq<ChangeEvent>
    decreases |clock|
  {
    if clock == [] then []
    else [EventAt(sequence + 1, clock[0])] + Unfold(sequence + 1, clock[1..])
  }

  lemma {:induction false} UnfoldAt(sequence: nat, clock: seq<int>)
    ensures |Unfold(sequence, clock)| == |clock|
    ensures forall i :: 0 <= i < |clock| ==> Unfold(sequence, clock)[i] == EventAt(sequence + 1 + i, clock[i])
    decreases |clock|
  {
    hide EventAt;
    if clock != [] {
      UnfoldAt(sequence + 1, clock[1..]);
      var stream := Unfold(sequence, clock);
      forall i | 0 <= i < |clock|
        ensures stream[i] == EventAt(sequence + 1 + i, clock[i])
      {
        if i > 0 {
          assert stream[i] == Unfold(sequence + 1, clock[1..])[i - 1];
          assert clock[i] == clock[1..][i - 1];
        }
      }
    }
  }

  function Untimed(e: ChangeEvent): ChangeEvent {
    e.(timestamp := 0)
  }

  function TransactionName(m: nat): string {
    "tx-" + ToText(m)
  }

  lemma EventShape(n: nat, now: int)
    requires n > 0
    ensures EventAt(n, now).transactionId == Some(TransactionName((n - 1) / 4 + 1000))
    ensures EventAt(n, now).IsControl() <==> n % 4 == 0
    ensures EventAt(n, now).operation == Commit <==> n % 4 == 0
    ensures EventAt(n, now).offset == ToText(n) && !IsWatermark(EventAt(n, now))
    ensures Untimed(EventAt(n, now)) == EventAt(n, 0)
  {
    assert EventAt(n, now).table[0] == 'u';
  }

  /** Resuming from the offset of the k-th event yields exactly what the uninterrupted stream has after it. */
  lemma ResumeIsSuffix(k: nat, whole: seq<int>, rest: seq<int>, i: nat)
    requires 0 < k < U64_LIMIT && |whole| == k + |rest| && i < |rest|
    ensures |Unfold(0, whole)| == |whole|
    ensures
      var offset := Unfold(0, whole)[k - 1].offset;
      var resumed := Unfold(StartSequence(Some(offset)), rest);
      |resumed| == |rest| && Untimed(resumed[i]) == Untimed(Unfold(0, whole)[k + i])
  {
    hide EventAt, Unfold, ToText, ParseU64;
    UnfoldAt(0, whole);
    EventShape(k, whole[k - 1]);
    ParseToText(k);
    UnfoldAt(k, rest);
    EventShape(k + 1 + i, rest[i]);
    EventShape(k + 1 + i, whole[k + i]);
  }

  lemma TransactionNames(m: nat, n: nat)
    ensures TransactionName(m) == TransactionName(n) <==> m == n
  {
    assert TransactionName(m)[3..] == ToText(m) && TransactionName(n)[3..] == ToText(n);
    if ToText(m) == ToText(n) {
      ToTextInjective(m, n);
    }
  }

  /** Every four events share a transaction; its last event, and no other, is its commit. */
  lemma BlocksOfFour(clock: seq<int>, i: nat, j: nat)
    requires i < |clock| && j < |clock|
    ensures |Unfold(0, clock)| == |clock|
    ensures
      var s := Unfold(0, clock);
      && (s[i].transactionId == s[j].transactionId <==> i / 4 == j / 4)
      && (s[i].IsControl() <==> i % 4 == 3)
      && (s[i].operation == Commit <==> i % 4 == 3)
  {
    hide EventAt, Unfold, ToText;
    UnfoldAt(0, clock);
    EventShape(i + 1, clock[i]);
    EventShape(j + 1, clock[j]);
    TransactionNames(i / 4 + 1000, j / 4 + 1000);
  }

  /** The row of a mutation: an object of the three columns. */
  predicate IsUserRow(row: Option<Json>, n: nat) {
    && row.Some? && row.value.Object?
    && row.value.fields.Keys == {"id", "name", "email"}
    && row.value.fields["id"] == Number(n as real)
    && row.value.fields["name"] == String("User " + ToText(n))
    && row.value.fields["email"] == String("user" + ToText(n) + "@caminus.io")
  }

  /**
   * What the stream carries: every block of four is a creation, two updates and a commit of one transaction of the
   * users table; each mutation brings the row of its own number, the commit none.
   */
  lemma StreamContents(clock: seq<int>, i: nat)
    requires i < |clock|
    ensures |Unfold(0, clock)| == |clock|
    ensures
      var e := Unfold(0, clock)[i];
      && e.operation == [Create, Update, Update, Commit][i % 4]
      && e.table == "users" && e.sourceDatabase == "caminus_db"
      && e.transactionId == Some("tx-" + ToText(1000 + i / 4))
      && e.id == "pg-evt-" + ToText(i + 1) && e.offset == ToText(i + 1) && e.timestamp == clock[i]
      && e.before == None && (if i % 4 == 3 then e.after == None else IsUserRow(e.after, i + 1))
  {
    hide Unfold, ToText;
    UnfoldAt(0, clock);
  }

  /** No two events of the stream share a key. */
  lemma StreamKeysDistinct(clock: seq<int>, i: nat, j: nat)
    requires i < |clock| && j < |clock| && |Unfold(0, clock)| == |clock|
    requires Unfold(0, clock)[i].key == Unfold(0, clock)[j].key
    ensures i == j
  {
    hide Unfold, ToText;
    UnfoldAt(0, clock);
    var a, b := Unfold(0, clock)[i].key, Unfold(0, clock)[j].key;
    assert a[6..|a| - 1] == ToText(i + 1) && b[6..|b| - 1] == ToText(j + 1);
    ToTextInjective(i + 1, j + 1);
  }

  /** Without an offset, or with one that is no number, the stream starts from the beginning. */
  lemma UnreadableStartsOver(offset: string, i: nat, clock: seq<int>)
    requires i < |offset| && !IsDigit(offset[i]) && (i > 0 || offset[0] != '+')
    ensures Unfold(StartSequence(Some(offset)), clock) == Unfold(StartSequence(None), clock) == Unfold(0, clock)
  {
    hide Unfold;
    ParseStrict(offset, i);
  }
}
