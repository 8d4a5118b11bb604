/** Change events and the JSON values they carry. */
module Events {
  import opened Wrappers

  datatype Json =
    | Null
    | Bool(b: bool)
    | Number(n: real)
    | String(s: string)
    | Array(items: seq<Json>)
    | Object(fields: map<string, Json>)
  {
    function AsObject(): Option<map<string, Json>> {
      if Object? then Some(fields) else None
    }

    function AsString(): Option<string> {
      if String? then Some(s) else None
    }

    function Get(name: string): Option<Json> {
      if Object? && name in fields then Some(fields[name]) else None
    }
  }

  datatype Operation = Create | Update | Delete | Snapshot | Commit | Rollback

  /** `key` is the text form of the row key, the only form in which the key is ever compared or hashed. */
  datatype ChangeEvent = ChangeEvent(
    id: string,
    sourceDatabase: string,
    table: string,
    operation: Operation,
    timestamp: int,
    key: string,
    before: Option<Json>,
    after: Option<Json>,
    transactionId: Option<string>,
    offset: string)
  {
    /** Ends a transaction, one way or the other. */
    predicate IsControl() {
      operation == Commit || operation == Rollback
    }
  }

  const WATERMARK_TABLE := "caminus_watermarks"

  predicate IsWatermark(e: ChangeEvent) {
    e.table == WATERMARK_TABLE
  }
}
