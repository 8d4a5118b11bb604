/** The engine fed by its own source under the schema it starts with: everything the source commits is sent. */
module SourceDelivery {
  import opened Wrappers
  import opened Events
  import opened Decimal
  import opened SchemaRegistry
  import opened PostgresSource
  import opened IngestModel
  import opened IngestSoundness
  import opened IngestTheorems

  /** The schema the engine registers at start. */
  const USERS_SCHEMA := Object(map["fields" := Object(map["id" := String("integer"), "name" := String("string")])])

  /** Every event of the source passes validation under that schema. */
  lemma StreamAccepted(clock: seq<int>, i: nat)
    requires i < |clock| && |Unfold(0, clock)| == |clock|
    ensures Accepts(Some(USERS_SCHEMA), Unfold(0, clock)[i])
  {
    hide Unfold, ToText, Accepts;
    StreamContents(clock, i);
    var e := Unfold(0, clock)[i];
    var fields: FieldTypes := map["id" := String("integer"), "name" := String("string")];
    assert Declares(USERS_SCHEMA, fields);
    if i % 4 != 3 {
      var row := e.after.value.fields;
      assert "id" in row.Keys && "name" in row.Keys;
      assert IsInteger(row["id"], i + 1);
      assert Admits(fields["id"], row["id"]) && Admits(fields["name"], row["name"]);
      assert e.after == Some(Object(row));
      assert RowFits(fields, e);
    }
    AcceptsExactly(Some(USERS_SCHEMA), e);
  }

  /** The source commits exactly the mutations whose block of four it completed. */
  lemma StreamCommits(env: Env, clock: seq<int>, i: nat)
    requires env.log == Unfold(0, clock) && i < |env.log|
    ensures Committed(env, i) <==> i % 4 != 3 && i / 4 * 4 + 3 < |env.log|
  {
    hide Unfold, ToText, ClosesInLog;
    UnfoldAt(0, clock);
    BlocksOfFour(clock, i, i);
    StreamContents(clock, i);
    TableIsUsers(env.log[i]);
    var tx := env.log[i].transactionId.value;
    var end := i / 4 * 4 + 3;
    if i % 4 != 3 {
      forall q | 0 <= q < |env.log| && ClosesInLog(env.log[q], tx)
        ensures q == end && env.log[q].operation == Commit
      {
        ClosesIsControl(env.log[q], tx);
        BlocksOfFour(clock, i, q);
      }
      if end < |env.log| {
        SourceCloses(clock, i, end);
      }
    }
  }

  lemma TableIsUsers(e: ChangeEvent)
    requires e.table == "users"
    ensures !IsWatermark(e)
  {
    assert e.table[0] != WATERMARK_TABLE[0];
  }

  lemma ClosesIsControl(e: ChangeEvent, tx: string)
    requires ClosesInLog(e, tx)
    ensures e.IsControl() && e.transactionId == Some(tx)
  {
  }

  lemma SomeMember<T>(s: seq<T>)
    ensures s != [] ==> exists x :: x in s
  {
    if s != [] {
      assert s[0] in s;
    }
  }

  /**
   * With the transformer accepting everything, in every run led throughout nothing is ever dead-lettered, and once
   * the log is consumed every mutation of every completed block has been sent, crash as it may.
   */
  lemma SourceSendsEverything(env: Env, clock: seq<int>, steps: seq<Step>)
    requires env.log == Unfold(0, clock) && |clock| < U64_LIMIT && env.schema == Some(USERS_SCHEMA)
    requires forall e :: env.transform(e).Some? && env.transform(e).value.offset == e.offset
    requires AlwaysLeader(steps)
    ensures
      var s := Exec(env, INITIAL, steps);
      && s.dead == []
      && (Finished(env, s) ==>
            forall i :: 0 <= i < |env.log| && i % 4 != 3 && i / 4 * 4 + 3 < |env.log| ==> Sent(env, s, i))
  {
    hide Unfold, Exec, CommitPoint, WellFormed, CommitsInLogOrder;
    SourceLogWellFormed(env, clock);
    ContiguousCommitsInOrder(env);
    UnfoldAt(0, clock);
    forall i: nat | i < |env.log|
      ensures Valid(env, i)
    {
      StreamAccepted(clock, i);
    }
    OnlyRefusedDead(env, steps);
    var s := Exec(env, INITIAL, steps);
    SomeMember(s.dead);
    forall i: nat | Finished(env, s) && i < |env.log| && i % 4 != 3 && i / 4 * 4 + 3 < |env.log|
      ensures Sent(env, s, i)
    {
      StreamCommits(env, clock, i);
      NoLossSends(env, steps, i);
    }
  }
}
