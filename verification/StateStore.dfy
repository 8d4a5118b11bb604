/** The state store: offsets and schemas of all sources in one key-value table, told apart by a key prefix. */
module StateStores {
  import opened Wrappers
  import opened Events

  /** The bytes under a key: an offset as text or a serialized schema. */
  datatype Entry = Text(text: string) | Document(json: Json)

  function OffsetKey(sourceId: string): string { "offset:" + sourceId }

  function SchemaKey(sourceId: string): string { "schema:" + sourceId }

  /** No two entries of the store ever share a key: neither two sources, nor an offset and a schema. */
  lemma KeysApart(a: string, b: string)
    ensures OffsetKey(a) != SchemaKey(b)
    ensures OffsetKey(a) == OffsetKey(b) ==> a == b
    ensures SchemaKey(a) == SchemaKey(b) ==> a == b
  {
    assert OffsetKey(a)[0] == 'o' && SchemaKey(b)[0] == 's';
    assert OffsetKey(a)[7..] == a && OffsetKey(b)[7..] == b;
    assert SchemaKey(a)[7..] == a && SchemaKey(b)[7..] == b;
  }

  class StateStore {
    var db: map<string, Entry>

    ghost predicate Valid()
      reads this
    {
      && (forall id :: OffsetKey(id) in db ==> db[OffsetKey(id)].Text?)
      && (forall id :: SchemaKey(id) in db ==> db[SchemaKey(id)].Document?)
    }

    constructor ()
      ensures Valid()
      ensures forall id :: GetOffset(id) == None && GetSchema(id) == None
    {
      db := map[];
    }

    function GetOffset(sourceId: string): Option<string>
      requires Valid()
      reads this
    {
      if OffsetKey(sourceId) in db then Some(db[OffsetKey(sourceId)].text) else None
    }

    function GetSchema(sourceId: string): Option<Json>
      requires Valid()
      reads this
    {
      if SchemaKey(sourceId) in db then Some(db[SchemaKey(sourceId)].json) else None
    }

    method SaveOffset(sourceId: string, offset: string)
      requires Valid()
      modifies this
      ensures Valid()
      ensures forall id :: GetOffset(id) == if id == sourceId then Some(offset) else old(GetOffset(id))
      ensures forall id :: GetSchema(id) == old(GetSchema(id))
    {
      forall a, b {
        KeysApart(a, b);
      }
      db := db[OffsetKey(sourceId) := Text(offset)];
    }

    method SaveSchema(sourceId: string, schema: Json)
      requires Valid()
      modifies this
      ensures Valid()
      ensures forall id :: GetSchema(id) == if id == sourceId then Some(schema) else old(GetSchema(id))
      ensures forall id :: GetOffset(id) == old(GetOffset(id))
    {
      forall a, b {
        KeysApart(a, b);
      }
      db := db[SchemaKey(sourceId) := Document(schema)];
    }
  }
}
