/** Schema registration under a compatibility mode, and validation of events against the schema in force. */
module SchemaRegistry {
  import opened Wrappers
  import opened Events
  import opened StateStores

  datatype SchemaCompatibility = Unrestricted | Backward | Forward | Full

  datatype SchemaError =
    | OldSchemaMalformed
    | NewSchemaMalformed
    | TypeChanged
    | FieldDeleted
    | FieldAdded
    | SchemaMalformed
    | PayloadMissing
    | PayloadNotObject
    | FieldInvalid

  type FieldTypes = map<string, Json>

  function Fields(schema: Json): Option<FieldTypes> {
    match schema.Get("fields")
    case None => None
    case Some(f) => f.AsObject()
  }

  predicate AgreeOnCommon(a: FieldTypes, b: FieldTypes) {
    forall f :: f in a && f in b ==> a[f] == b[f]
  }

  function CheckCompatibility(old_: Json, new_: Json, mode: SchemaCompatibility): Result<(), SchemaError> {
    if mode == Unrestricted then Ok(())
    else
      match Fields(old_)
      case None => Err(OldSchemaMalformed)
      case Some(oldFields) =>
        match Fields(new_)
        case None => Err(NewSchemaMalformed)
        case Some(newFields) =>
          if !AgreeOnCommon(oldFields, newFields) then Err(TypeChanged)
          else if mode != Forward && !(oldFields.Keys <= newFields.Keys) then Err(FieldDeleted)
          else if mode != Backward && !(newFields.Keys <= oldFields.Keys) then Err(FieldAdded)
          else Ok(())
  }

  /** The value a field holds has the type the schema names; an unknown type name admits nothing. */
  predicate Conforms(fieldType: Json, value: Json) {
    match fieldType.AsString()
    case None => false
    case Some(name) =>
      if name == "integer" then value.Number? && value.n == value.n.Floor as real
      else if name == "string" then value.String?
      else if name == "boolean" then value.Bool?
      else if name == "float" then value.Number?
      else false
  }

  /** Every field of the schema is required; fields the schema does not name are ignored. */
  predicate ValidPayload(fields: FieldTypes, payload: Json) {
    payload.Object? && forall f :: f in fields ==> f in payload.fields && Conforms(fields[f], payload.fields[f])
  }

  function ValidateEvent(schema: Option<Json>, e: ChangeEvent): Result<(), SchemaError> {
    match schema
    case None => Ok(())
    case Some(s) =>
      match Fields(s)
      case None => Err(SchemaMalformed)
      case Some(fields) =>
        if e.operation != Create && e.operation != Update then Ok(())
        else
          match e.after
          case None => Err(PayloadMissing)
          case Some(payload) =>
            if !payload.Object? then Err(PayloadNotObject)
            else if ValidPayload(fields, payload) then Ok(())
            else Err(FieldInvalid)
  }

  predicate Accepts(schema: Option<Json>, e: ChangeEvent) {
    ValidateEvent(schema, e).Ok?
  }

  // What acceptance means, over all JSON values.

  predicate IsInteger(value: Json, k: int) {
    value == Number(k as real)
  }

  /** The values a type name stands for, each by the JSON form it must have. */
  ghost predicate Admits(fieldType: Json, value: Json) {
    || (fieldType == String("integer") && exists k :: IsInteger(value, k))
    || (fieldType == String("string") && exists s :: value == String(s))
    || (fieldType == String("boolean") && value in {Bool(true), Bool(false)})
    || (fieldType == String("float") && exists x :: value == Number(x))
  }

  /** The four type names admit exactly the values of their form, and any other type admits nothing. */
  lemma TypeNamesExact(fieldType: Json, value: Json)
    ensures Conforms(fieldType, value) <==> Admits(fieldType, value)
  {
    if Conforms(fieldType, value) {
      assert fieldType == String(fieldType.s);
      if value.Number? {
        assert value == Number(value.n);
        assert fieldType.s == "integer" ==> IsInteger(value, value.n.Floor);
      } else if value.String? {
        assert value == String(value.s);
      }
    }
    if fieldType == String("integer") && exists k :: IsInteger(value, k) {
      var k :| IsInteger(value, k);
      assert (k as real).Floor == k;
    }
  }

  /** What kind of value a type name stands for. */
  function KindOf(fieldType: Json): Option<string> {
    if fieldType == String("integer") || fieldType == String("float") then Some("number")
    else if fieldType == String("string") then Some("string")
    else if fieldType == String("boolean") then Some("boolean")
    else None
  }

  /** A value that one type admits is refused by every type of another kind. */
  lemma KindsApart(a: Json, b: Json, value: Json)
    requires Conforms(a, value) && KindOf(a) != KindOf(b)
    ensures !Conforms(b, value)
  {
    TypeNamesExact(a, value);
    TypeNamesExact(b, value);
  }

  /** The schema document has the shape required of one and declares these fields. */
  predicate Declares(schema: Json, fields: FieldTypes) {
    schema.Object? && "fields" in schema.fields && schema.fields["fields"] == Object(fields)
  }

  /** The row of the event is an object that holds every declared field with a value its type admits. */
  ghost predicate RowFits(fields: FieldTypes, e: ChangeEvent) {
    exists row :: e.after == Some(Object(row)) && forall f :: f in fields ==> f in row && Admits(fields[f], row[f])
  }

  /**
   * Acceptance, exactly: without a schema everything; under one only if it is well formed, and then everything
   * but the creations and updates whose row does not fit.
   */
  lemma AcceptsExactly(schema: Option<Json>, e: ChangeEvent)
    ensures Accepts(schema, e) <==>
            (schema.Some? ==>
               exists fields ::
                 && Declares(schema.value, fields)
                 && (e.operation == Create || e.operation == Update ==> RowFits(fields, e)))
  {
    if schema.Some? {
      if Accepts(schema, e) {
        var fields := Fields(schema.value).value;
        assert Declares(schema.value, fields);
        if e.operation == Create || e.operation == Update {
          ValidPayloadExact(fields, e.after.value);
          assert e.after == Some(Object(e.after.value.fields));
        }
      }
      if fields :| Declares(schema.value, fields)
                   && (e.operation == Create || e.operation == Update ==> RowFits(fields, e)) {
        if e.after.Some? {
          ValidPayloadExact(fields, e.after.value);
        }
      }
    }
  }

  lemma ValidPayloadExact(fields: FieldTypes, payload: Json)
    ensures ValidPayload(fields, payload) <==>
            payload.Object? && forall f :: f in fields ==> f in payload.fields && Admits(fields[f], payload.fields[f])
  {
    hide Conforms, Admits;
    if payload.Object? {
      forall f | f in fields && f in payload.fields
        ensures Conforms(fields[f], payload.fields[f]) <==> Admits(fields[f], payload.fields[f])
      {
        TypeNamesExact(fields[f], payload.fields[f]);
      }
    }
  }

  /** The schema in force after a registration attempt. */
  function Register(stored: Option<Json>, new_: Json, mode: SchemaCompatibility)
    : (Option<Json>, Result<(), SchemaError>)
  {
    match stored
    case None => (Some(new_), Ok(()))
    case Some(old_) =>
      var verdict := CheckCompatibility(old_, new_, mode);
      (if verdict.Ok? then Some(new_) else stored, verdict)
  }

  /** A rejected registration changes nothing; an accepted one replaces the schema of its own source only. */
  method RegisterSchema(store: StateStore, sourceId: string, newSchema: Json, mode: SchemaCompatibility)
    returns (verdict: Result<(), SchemaError>)
    requires store.Valid()
    modifies store
    ensures store.Valid()
    ensures (store.GetSchema(sourceId), verdict) == Register(old(store.GetSchema(sourceId)), newSchema, mode)
    ensures forall id :: id != sourceId ==> store.GetSchema(id) == old(store.GetSchema(id))
    ensures forall id :: store.GetOffset(id) == old(store.GetOffset(id))
  {
    var stored := store.GetSchema(sourceId);
    if stored.Some? {
      verdict := CheckCompatibility(stored.value, newSchema, mode);
      if verdict.Err? {
        return;
      }
    }
    store.SaveSchema(sourceId, newSchema);
    verdict := Ok(());
  }

  datatype Registration = Registration(schema: Json, mode: SchemaCompatibility)

  /** The schema in force after a whole history of attempts, rejected ones included. */
  function InForce(attempts: seq<Registration>): Option<Json> {
    if attempts == [] then None
    else
      var r := attempts[|attempts| - 1];
      Register(InForce(attempts[..|attempts| - 1]), r.schema, r.mode).0
  }

  lemma InForceExtends(attempts: seq<Registration>, k: nat)
    requires k < |attempts|
    ensures InForce(attempts[..k + 1]) == Register(InForce(attempts[..k]), attempts[k].schema, attempts[k].mode).0
  {
    assert attempts[..k + 1][..k] == attempts[..k];
  }

  predicate IsAccepted(attempts: seq<Registration>, k: nat)
    requires k < |attempts|
  {
    Register(InForce(attempts[..k]), attempts[k].schema, attempts[k].mode).1.Ok?
  }

  lemma AcceptedInFront(attempts: seq<Registration>, k: nat)
    requires k < |attempts| - 1
    ensures IsAccepted(attempts[..|attempts| - 1], k) == IsAccepted(attempts, k)
  {
    hide Register, InForce;
    assert attempts[..|attempts| - 1][..k] == attempts[..k];
  }

  lemma AlwaysAccepted(attempts: seq<Registration>, k: nat)
    requires k < |attempts| && (k == 0 || attempts[k].mode == Unrestricted)
    ensures IsAccepted(attempts, k)
  {
    assert attempts[..0] == [];
  }

  /**
   * In force is the schema of the last accepted attempt. The first attempt of a history is always accepted,
   * whatever its schema and mode, and so is every attempt without restriction.
   */
  lemma {:induction false} LastAcceptedInForce(attempts: seq<Registration>) returns (k: nat)
    requires attempts != []
    ensures IsAccepted(attempts, 0)
    ensures forall j :: 0 <= j < |attempts| && attempts[j].mode == Unrestricted ==> IsAccepted(attempts, j)
    ensures k < |attempts| && IsAccepted(attempts, k) && InForce(attempts) == Some(attempts[k].schema)
    ensures forall j :: k < j < |attempts| ==> !IsAccepted(attempts, j)
  {
    hide CheckCompatibility;
    forall j: nat | j < |attempts| && (j == 0 || attempts[j].mode == Unrestricted)
      ensures IsAccepted(attempts, j)
    {
      AlwaysAccepted(attempts, j);
    }
    k := |attempts| - 1;
    if !IsAccepted(attempts, k) {
      var front := attempts[..|attempts| - 1];
      k := LastAcceptedInForce(front);
      forall j: nat | j < |front|
        ensures IsAccepted(front, j) == IsAccepted(attempts, j)
      {
        AcceptedInFront(attempts, j);
      }
    }
  }

  /** With more required fields and the same types fewer payloads are valid. */
  lemma MoreFieldsAcceptLess(fewer: Json, more: Json, e: ChangeEvent)
    requires Fields(fewer).Some? && Fields(more).Some?
    requires AgreeOnCommon(Fields(fewer).value, Fields(more).value)
    requires Fields(fewer).value.Keys <= Fields(more).value.Keys
    requires Accepts(Some(more), e)
    ensures Accepts(Some(fewer), e)
  {
    if (e.operation == Create || e.operation == Update) && e.after.Some? && e.after.value.Object? {
      var payload := e.after.value.fields;
      forall f | f in Fields(fewer).value
        ensures f in payload && Conforms(Fields(fewer).value[f], payload[f])
      {
        assert f in Fields(more).value.Keys;
      }
    }
  }

  /**
   * Along any history whose attempts from `i` to `j` use Backward or Full, an event accepted under the later
   * schema was accepted under the earlier one.
   */
  lemma {:induction false} BackwardHistory(attempts: seq<Registration>, i: nat, j: nat, e: ChangeEvent)
    requires i <= j <= |attempts|
    requires forall k :: i <= k < j ==> attempts[k].mode == Backward || attempts[k].mode == Full
    requires Accepts(InForce(attempts[..j]), e)
    ensures Accepts(InForce(attempts[..i]), e)
    decreases j
  {
    if i < j {
      var k := j - 1;
      InForceExtends(attempts, k);
      var before := InForce(attempts[..k]);
      var after := InForce(attempts[..j]);
      if before.Some? && after != before {
        MoreFieldsAcceptLess(before.value, after.value, e);
      }
      BackwardHistory(attempts, i, k, e);
    }
  }

  /** Along a Forward or Full stretch it is the converse, once some schema is in force. */
  lemma {:induction false} ForwardHistory(attempts: seq<Registration>, i: nat, j: nat, e: ChangeEvent)
    requires i <= j <= |attempts| && InForce(attempts[..i]).Some?
    requires forall k :: i <= k < j ==> attempts[k].mode == Forward || attempts[k].mode == Full
    requires Accepts(InForce(attempts[..i]), e)
    ensures InForce(attempts[..j]).Some? && Accepts(InForce(attempts[..j]), e)
    decreases j
  {
    if i < j {
      var k := j - 1;
      ForwardHistory(attempts, i, k, e);
      InForceExtends(attempts, k);
      var before := InForce(attempts[..k]);
      var after := InForce(attempts[..j]);
      if after != before {
        MoreFieldsAcceptLess(after.value, before.value, e);
      }
    }
  }

  /** Along a Full stretch the field types never change. */
  lemma {:induction false} FullHistory(attempts: seq<Registration>, i: nat, j: nat)
    requires i <= j <= |attempts| && InForce(attempts[..i]).Some?
    requires forall k :: i <= k < j ==> attempts[k].mode == Full
    ensures InForce(attempts[..j]).Some?
    ensures Fields(InForce(attempts[..j]).value) == Fields(InForce(attempts[..i]).value)
    decreases j
  {
    if i < j {
      var k := j - 1;
      FullHistory(attempts, i, k);
      InForceExtends(attempts, k);
      var before := InForce(attempts[..k]).value;
      var after := InForce(attempts[..j]).value;
      if after != before {
        assert Fields(before).value.Keys == Fields(after).value.Keys;
        assert Fields(before).value == Fields(after).value;
      }
    }
  }

  predicate Supported(fields: FieldTypes) {
    forall f :: f in fields ==> fields[f] in {String("integer"), String("string"), String("boolean"), String("float")}
  }

  function Sample(fieldType: Json): Json {
    if fieldType == String("string") then String("")
    else if fieldType == String("boolean") then Bool(false)
    else Number(0.0)
  }

  /** A payload with exactly the fields of a schema, each of its type. */
  function Witness(fields: FieldTypes): (payload: Json)
    requires Supported(fields)
    ensures ValidPayload(fields, payload) && payload.fields.Keys == fields.Keys
  {
    Object(map f | f in fields :: Sample(fields[f]))
  }

  /** Every payload valid under `a` is valid under `b`. */
  ghost predicate Includes(a: FieldTypes, b: FieldTypes) {
    forall p :: ValidPayload(a, p) ==> ValidPayload(b, p)
  }

  /** For agreeing types inclusion of payloads is inclusion of fields, by the witness payload. */
  lemma InclusionIsFieldInclusion(a: FieldTypes, b: FieldTypes)
    requires Supported(a) && AgreeOnCommon(a, b)
    ensures Includes(a, b) <==> b.Keys <= a.Keys
  {
    if b.Keys <= a.Keys {
      forall p | ValidPayload(a, p)
        ensures ValidPayload(b, p)
      {
        forall f | f in b
          ensures f in p.fields && Conforms(b[f], p.fields[f])
        {
          assert f in a.Keys;
        }
      }
    } else {
      var p := Witness(a);
      var f :| f in b.Keys && f !in a.Keys;
      assert f !in p.fields;
      assert ValidPayload(a, p) && !ValidPayload(b, p);
    }
  }

  /**
   * The checks are exact for schemas of supported types: given agreement on common fields, Backward holds
   * exactly when payloads valid under the new schema are valid under the old, Forward exactly when the
   * converse holds, Full exactly when both do.
   */
  lemma CompatibilityExact(old_: Json, new_: Json, mode: SchemaCompatibility)
    requires mode != Unrestricted && Fields(old_).Some? && Fields(new_).Some?
    requires Supported(Fields(old_).value) && Supported(Fields(new_).value)
    ensures
      var o, n := Fields(old_).value, Fields(new_).value;
      CheckCompatibility(old_, new_, mode).Ok? <==>
      && AgreeOnCommon(o, n)
      && (mode != Forward ==> Includes(n, o))
      && (mode != Backward ==> Includes(o, n))
  {
    var o, n := Fields(old_).value, Fields(new_).value;
    if AgreeOnCommon(o, n) {
      InclusionIsFieldInclusion(o, n);
      InclusionIsFieldInclusion(n, o);
    }
  }

  /** A payload that one schema finds valid and the other does not. */
  ghost predicate Separates(payload: Json, accepting: FieldTypes, refusing: FieldTypes) {
    ValidPayload(accepting, payload) && !ValidPayload(refusing, payload)
  }

  /**
   * Every refusal has its reason: a deleted field comes with a payload valid under the new schema and not under the
   * old, an added one with the converse, a changed type with a field both declare differently, and a malformed
   * schema is the one named.
   */
  lemma RefusalHasReason(old_: Json, new_: Json, mode: SchemaCompatibility, reason: SchemaError)
    requires CheckCompatibility(old_, new_, mode) == Err(reason)
    ensures reason in {OldSchemaMalformed, NewSchemaMalformed, TypeChanged, FieldDeleted, FieldAdded}
    ensures reason == OldSchemaMalformed <==> forall fields :: !Declares(old_, fields)
    ensures reason == NewSchemaMalformed ==> forall fields :: !Declares(new_, fields)
    ensures reason in {TypeChanged, FieldDeleted, FieldAdded} ==> Fields(old_).Some? && Fields(new_).Some?
    ensures
      Fields(old_).Some? && Fields(new_).Some? ==>
        var o, n := Fields(old_).value, Fields(new_).value;
        && reason in {TypeChanged, FieldDeleted, FieldAdded}
        && (reason == TypeChanged <==> exists f :: f in o && f in n && o[f] != n[f])
        && (reason == FieldDeleted && Supported(n) ==> mode != Forward && exists p :: Separates(p, n, o))
        && (reason == FieldAdded && Supported(o) ==> mode != Backward && exists p :: Separates(p, o, n))
  {
    FieldsDeclared(old_);
    FieldsDeclared(new_);
    if Fields(old_).Some? && Fields(new_).Some? {
      var o, n := Fields(old_).value, Fields(new_).value;
      if reason == FieldDeleted && Supported(n) {
        MissingFieldSeparates(n, o);
      }
      if reason == FieldAdded && Supported(o) {
        MissingFieldSeparates(o, n);
      }
    }
  }

  lemma FieldsDeclared(schema: Json)
    ensures Fields(schema).Some? <==> exists fields :: Declares(schema, fields)
    ensures Fields(schema).Some? ==> Declares(schema, Fields(schema).value)
  {
    if Fields(schema).Some? {
      assert Declares(schema, Fields(schema).value);
    }
  }

  lemma MissingFieldSeparates(a: FieldTypes, b: FieldTypes)
    requires Supported(a) && !(b.Keys <= a.Keys)
    ensures exists p :: Separates(p, a, b)
  {
    var p := Witness(a);
    var f :| f in b.Keys && f !in a.Keys;
    assert f !in p.fields;
    assert Separates(p, a, b);
  }
}
