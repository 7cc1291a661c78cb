/** The server side of the instruction protocol (slotomania/core.py:60-180,
    mirrored in slotomania/instructor.py:56-117): `Operation` values built by
    verb-specific factories, an `Instruction` carrying them, and the JSON
    encoding `serialize` produces with `InstructionEncoder`. */
module Instructor {
  import opened Errors
  import opened PyValues

  datatype Verb = DELETE | MERGE_APPEND | MERGE_PREPEND | OVERWRITE

  function VerbName(v: Verb): string
  {
    match v
    case DELETE => "DELETE"
    case MERGE_APPEND => "MERGE_APPEND"
    case MERGE_PREPEND => "MERGE_PREPEND"
    case OVERWRITE => "OVERWRITE"
  }

  /** `Operation(verb, entity_type, target_value)`; the entity type is an
      Enum member. */
  datatype Operation = Operation(verb: Verb, entityType: Value, targetValue: Value)

  /** `Operation.MERGE_APPEND`: asserts the target is a list. */
  function MergeAppend(entityType: Value, targetValue: Value): Result<Operation>
  {
    if targetValue.VList? then Ok(Operation(MERGE_APPEND, entityType, targetValue))
    else Err(AssertionError("is not a list"))
  }

  /** `Operation.MERGE_PREPEND`: asserts the target is a list. */
  function MergePrepend(entityType: Value, targetValue: Value): Result<Operation>
  {
    if targetValue.VList? then Ok(Operation(MERGE_PREPEND, entityType, targetValue))
    else Err(AssertionError("is not a list"))
  }

  /** `Operation.DELETE`: no check on the target. */
  function Delete(entityType: Value, targetValue: Value): Operation
  {
    Operation(DELETE, entityType, targetValue)
  }

  /** `Operation.OVERWRITE`: no check on the target. */
  function Overwrite(entityType: Value, targetValue: Value): Operation
  {
    Operation(OVERWRITE, entityType, targetValue)
  }

  /** The factory for each verb: the merges fail exactly on a target that is
      not a list; every operation built carries its own verb and the two
      arguments unchanged. */
  lemma FactoriesSpec(entityType: Value, targetValue: Value)
    ensures MergeAppend(entityType, targetValue).Ok? <==> targetValue.VList?
    ensures MergePrepend(entityType, targetValue).Ok? <==> targetValue.VList?
    ensures MergeAppend(entityType, targetValue).Err? ==> MergeAppend(entityType, targetValue).error.AssertionError?
    ensures MergePrepend(entityType, targetValue).Err? ==> MergePrepend(entityType, targetValue).error.AssertionError?
    ensures MergeAppend(entityType, targetValue).Ok? ==> MergeAppend(entityType, targetValue).value.verb == MERGE_APPEND
    ensures MergePrepend(entityType, targetValue).Ok? ==> MergePrepend(entityType, targetValue).value.verb == MERGE_PREPEND
    ensures Delete(entityType, targetValue).verb == DELETE
    ensures Overwrite(entityType, targetValue).verb == OVERWRITE
    ensures forall op :: op in Built(entityType, targetValue) ==>
      op.entityType == entityType && op.targetValue == targetValue
    ensures forall verb :: (verb in Verbs(Built(entityType, targetValue))) <==>
      (verb == DELETE || verb == OVERWRITE || (targetValue.VList? && (verb == MERGE_APPEND || verb == MERGE_PREPEND)))
  {
    var built := Built(entityType, targetValue);
    assert Delete(entityType, targetValue) in built;
    assert Overwrite(entityType, targetValue) in built;
    if targetValue.VList? {
      assert MergeAppend(entityType, targetValue).value in built;
      assert MergePrepend(entityType, targetValue).value in built;
    }
  }

  /** The operations the four factories build for one pair of arguments. */
  function Built(entityType: Value, targetValue: Value): seq<Operation>
  {
    (if targetValue.VList? then [MergeAppend(entityType, targetValue).value, MergePrepend(entityType, targetValue).value] else [])
    + [Delete(entityType, targetValue), Overwrite(entityType, targetValue)]
  }

  function Verbs(ops: seq<Operation>): set<Verb>
  {
    set op | op in ops :: op.verb
  }

  /** An `Operation` as the dataclass instance `asdict` sees. */
  function OperationValue(op: Operation): Value
  {
    VObj("Operation", [
      ("verb", VEnum("Verbs", VerbName(op.verb))),
      ("entity_type", op.entityType),
      ("target_value", op.targetValue)])
  }

  /** `Instruction(operations, errors=None, redirect='')`. */
  datatype Instruction = Instruction(operations: seq<Operation>, errors: Value, redirect: string)

  function NewInstruction(operations: seq<Operation>): Instruction
  {
    Instruction(operations, VNone, "")
  }

  function InstructionValue(ins: Instruction): Value
  {
    VObj("Instruction", [
      ("operations", VList(seq(|ins.operations|, i requires 0 <= i < |ins.operations| => OperationValue(ins.operations[i])))),
      ("errors", ins.errors),
      ("redirect", VStr(ins.redirect))])
  }

  /** JSON as `json.loads` returns it. */
  datatype Json = JNull | JBool(b: bool) | JNum(n: int) | JStr(s: string) | JArr(items: seq<Json>) | JObj(members: seq<(string, Json)>)

  /** Values the JSON encoder writes without calling `default`. */
  predicate IsNative(v: Value)
  {
    v.VNone? || v.VBool? || v.VInt? || v.VStr? || v.VList? || v.VDict?
  }

  /** `InstructionEncoder.default`: an Enum member becomes its name, a
      dataclass its `asdict`, a datetime its `isoformat()`, a Decimal its
      `str`; anything else is not serializable. */
  function Default(v: Value): (r: Result<Value>)
    requires !IsNative(v)
  {
    match v
    case VEnum(_, member) => Ok(VStr(member))
    case VObj(_, _) => Ok(AsDict(v))
    case VDateTime(iso) => Ok(VStr(iso))
    case VDecimal(text) => Ok(VStr(text))
    case VSlots(_, cls, _, _) => Err(TypeError("Object of type " + cls + " is not JSON serializable"))
    case VOpaque(typeName) => Err(TypeError("Object of type " + typeName + " is not JSON serializable"))
  }

  /** `json.loads(json.dumps(v, cls=InstructionEncoder))`, written
      structurally: a dataclass is encoded through its fields, which is what
      encoding its `asdict` amounts to (EncodeDefault). */
  function Encode(v: Value): Result<Json>
    decreases v
  {
    match v
    case VNone => Ok(JNull)
    case VBool(b) => Ok(JBool(b))
    case VInt(i) => Ok(JNum(i))
    case VStr(s) => Ok(JStr(s))
    case VList(items) =>
      var encoded :- EncodeList(items);
      Ok(JArr(encoded))
    case VDict(entries) =>
      var members :- EncodeEntries(entries);
      Ok(JObj(members))
    case VObj(_, attrs) =>
      var members :- EncodeEntries(attrs);
      Ok(JObj(members))
    case VEnum(_, member) => Ok(JStr(member))
    case VDateTime(iso) => Ok(JStr(iso))
    case VDecimal(text) => Ok(JStr(text))
    case VSlots(_, cls, _, _) => Err(TypeError("Object of type " + cls + " is not JSON serializable"))
    case VOpaque(typeName) => Err(TypeError("Object of type " + typeName + " is not JSON serializable"))
  }

  function EncodeList(items: seq<Value>): Result<seq<Json>>
    decreases items
  {
    if |items| == 0 then Ok([])
    else
      var init :- EncodeList(items[..|items| - 1]);
      var last :- Encode(items[|items| - 1]);
      Ok(init + [last])
  }

  function EncodeEntries(entries: seq<(string, Value)>): Result<seq<(string, Json)>>
    decreases entries
  {
    if |entries| == 0 then Ok([])
    else
      var e := entries[|entries| - 1];
      assert e in entries;
      assert e.1 < e;
      var init :- EncodeEntries(entries[..|entries| - 1]);
      var last :- Encode(e.1);
      Ok(init + [(e.0, last)])
  }

  /** `Instruction.serialize`. */
  function Serialize(ins: Instruction): Result<Json>
  {
    Encode(InstructionValue(ins))
  }

  /** Encoding a value's `asdict` gives the same JSON as encoding the value:
      `asdict` only turns dataclasses into dicts of their fields. */
  lemma {:induction false} EncodeAsDict(v: Value)
    ensures Encode(AsDict(v)) == Encode(v)
    decreases v
  {
    match v
    case VList(items) =>
      var dicts := seq(|items|, i requires 0 <= i < |items| => AsDict(items[i]));
      EncodeListAsDict(items, dicts);
    case VDict(entries) => EncodeEntriesAsDict(entries);
    case VObj(_, attrs) => EncodeEntriesAsDict(attrs);
    case _ =>
  }

  lemma {:induction false} EncodeListAsDict(items: seq<Value>, dicts: seq<Value>)
    requires |dicts| == |items| && forall i :: 0 <= i < |items| ==> dicts[i] == AsDict(items[i])
    ensures EncodeList(dicts) == EncodeList(items)
    decreases items
  {
    if |items| > 0 {
      var n := |items| - 1;
      EncodeListAsDict(items[..n], dicts[..n]);
      EncodeAsDict(items[n]);
    }
  }

  lemma {:induction false} EncodeEntriesAsDict(entries: seq<(string, Value)>)
    ensures EncodeEntries(AsDictEntries(entries)) == EncodeEntries(entries)
    decreases entries
  {
    if |entries| > 0 {
      var n := |entries| - 1;
      var e := entries[n];
      assert e in entries;
      assert e.1 < e;
      AsDictEntriesAt(entries);
      AsDictEntriesAt(entries[..n]);
      var converted := AsDictEntries(entries);
      assert converted[..n] == AsDictEntries(entries[..n]);
      assert converted[n] == (e.0, AsDict(e.1));
      EncodeEntriesAsDict(entries[..n]);
      EncodeAsDict(e.1);
    }
  }

  /** The encoder calls `default` on a value it cannot write natively and
      then encodes what `default` returned; when `default` raises, so does
      the encoding. */
  lemma EncodeDefault(v: Value)
    requires !IsNative(v)
    ensures Default(v).Err? ==> Encode(v) == Err(Default(v).error)
    ensures Default(v).Ok? ==> IsNative(Default(v).value) && Encode(v) == Encode(Default(v).value)
  {
    if v.VObj? {
      EncodeAsDict(v);
    }
  }

  /** The objects the encoder cannot write, found anywhere inside a value. */
  predicate Unencodable(v: Value)
    decreases v
  {
    match v
    case VSlots(_, _, _, _) => true
    case VOpaque(_) => true
    case VList(items) => exists i :: 0 <= i < |items| && Unencodable(items[i])
    case VDict(entries) => UnencodableEntries(entries)
    case VObj(_, attrs) => UnencodableEntries(attrs)
    case _ => false
  }

  predicate UnencodableEntries(entries: seq<(string, Value)>)
    decreases entries
  {
    if |entries| == 0 then false
    else
      var e := entries[|entries| - 1];
      assert e in entries;
      assert e.1 < e;
      UnencodableEntries(entries[..|entries| - 1]) || Unencodable(e.1)
  }

  /** Serialization fails exactly when an object with no JSON form is
      reachable, and then with a TypeError. */
  lemma {:induction false} EncodeFailsIff(v: Value)
    ensures Encode(v).Err? <==> Unencodable(v)
    ensures Encode(v).Err? ==> Encode(v).error.TypeError?
    decreases v
  {
    match v
    case VList(items) => EncodeListFailsIff(items);
    case VDict(entries) => EncodeEntriesFailsIff(entries);
    case VObj(_, attrs) => EncodeEntriesFailsIff(attrs);
    case _ =>
  }

  lemma {:induction false} EncodeListFailsIff(items: seq<Value>)
    ensures EncodeList(items).Err? <==> exists i :: 0 <= i < |items| && Unencodable(items[i])
    ensures EncodeList(items).Err? ==> EncodeList(items).error.TypeError?
    decreases items
  {
    if |items| > 0 {
      var n := |items| - 1;
      EncodeListFailsIff(items[..n]);
      EncodeFailsIff(items[n]);
      if exists i :: 0 <= i < |items| && Unencodable(items[i]) {
        var i :| 0 <= i < |items| && Unencodable(items[i]);
        if i < n { assert items[..n][i] == items[i]; }
      }
    }
  }

  lemma {:induction false} EncodeEntriesFailsIff(entries: seq<(string, Value)>)
    ensures EncodeEntries(entries).Err? <==> UnencodableEntries(entries)
    ensures EncodeEntries(entries).Err? ==> EncodeEntries(entries).error.TypeError?
    decreases entries
  {
    if |entries| > 0 {
      var n := |entries| - 1;
      var e := entries[n];
      assert e in entries;
      assert e.1 < e;
      EncodeEntriesFailsIff(entries[..n]);
      EncodeFailsIff(e.1);
    }
  }

  /** An encoded dict or dataclass keeps its keys, in order, each with its
      value's encoding; it fails exactly when some value does. */
  lemma {:induction false} EncodeEntriesKeys(entries: seq<(string, Value)>)
    ensures EncodeEntries(entries).Ok? <==> forall i :: 0 <= i < |entries| ==> Encode(entries[i].1).Ok?
    ensures EncodeEntries(entries).Ok? ==> |EncodeEntries(entries).value| == |entries|
    ensures EncodeEntries(entries).Ok? ==> forall i :: 0 <= i < |entries| ==>
      (EncodeEntries(entries).value[i] == (entries[i].0, Encode(entries[i].1).value))
  {
    if |entries| > 0 {
      var n := |entries| - 1;
      EncodeEntriesKeys(entries[..n]);
      assert forall i :: 0 <= i < n ==> entries[..n][i] == entries[i];
    }
  }

  /** An encoded list holds its items' encodings in order; it fails exactly
      when some item does. */
  lemma {:induction false} EncodeListItems(items: seq<Value>)
    ensures EncodeList(items).Ok? <==> forall i :: 0 <= i < |items| ==> Encode(items[i]).Ok?
    ensures EncodeList(items).Ok? ==> |EncodeList(items).value| == |items|
    ensures EncodeList(items).Ok? ==> forall i :: 0 <= i < |items| ==> EncodeList(items).value[i] == Encode(items[i]).value
  {
    if |items| > 0 {
      var n := |items| - 1;
      EncodeListItems(items[..n]);
      assert forall i :: 0 <= i < n ==> items[..n][i] == items[i];
    }
  }

  /** A new instruction serializes to an object with `operations`, then
      `errors` as null and `redirect` as the empty string. */
  lemma SerializeDefaults(operations: seq<Operation>)
    requires Serialize(NewInstruction(operations)).Ok?
    ensures Serialize(NewInstruction(operations)).value.JObj?
    ensures |Serialize(NewInstruction(operations)).value.members| == 3
    ensures Serialize(NewInstruction(operations)).value.members[0].0 == "operations"
    ensures Serialize(NewInstruction(operations)).value.members[1] == ("errors", JNull)
    ensures Serialize(NewInstruction(operations)).value.members[2] == ("redirect", JStr(""))
  {
    EncodeEntriesKeys(InstructionValue(NewInstruction(operations)).attrs);
  }

  /** The request of the example encodes to its two members, in order. */
  lemma EncodeRequestExample()
    ensures Encode(VObj("AuthenticateUserRequest", [("username", VStr("user")), ("password", VStr("pass"))]))
            == Ok(JObj([("username", JStr("user")), ("password", JStr("pass"))]))
  {
    var request := VObj("AuthenticateUserRequest", [("username", VStr("user")), ("password", VStr("pass"))]);
    var requestJson := JObj([("username", JStr("user")), ("password", JStr("pass"))]);
    assert Encode(request.attrs[0].1) == Ok(JStr("user"));
    assert Encode(request.attrs[1].1) == Ok(JStr("pass"));
    EncodeEntriesKeys(request.attrs);
    assert EncodeEntries(request.attrs).value == requestJson.members;
  }

  /** The OVERWRITE of the example encodes its verb, its entity type's value
      and its encoded target. */
  lemma EncodeOverwriteExample(target: Value, targetJson: Json)
    requires Encode(target) == Ok(targetJson)
    ensures Encode(OperationValue(Overwrite(VEnum("EntityTypes", "jwt_auth_token"), target)))
            == Ok(JObj([("verb", JStr("OVERWRITE")), ("entity_type", JStr("jwt_auth_token")), ("target_value", targetJson)]))
  {
    var opValue := OperationValue(Overwrite(VEnum("EntityTypes", "jwt_auth_token"), target));
    assert Encode(opValue.attrs[0].1) == Ok(JStr("OVERWRITE"));
    assert Encode(opValue.attrs[1].1) == Ok(JStr("jwt_auth_token"));
    assert Encode(opValue.attrs[2].1) == Ok(targetJson);
    EncodeEntriesKeys(opValue.attrs);
    assert EncodeEntries(opValue.attrs).value
           == [("verb", JStr("OVERWRITE")), ("entity_type", JStr("jwt_auth_token")), ("target_value", targetJson)];
  }

  /** A list of one value encodes to an array of its encoding. */
  lemma EncodeSingleton(v: Value, j: Json)
    requires Encode(v) == Ok(j)
    ensures Encode(VList([v])) == Ok(JArr([j]))
  {
    var items := [v];
    assert items[..|items| - 1] == [] && items[|items| - 1] == v;
    assert EncodeList([]) == Ok([]);
    assert EncodeList(items) == Ok([] + [j]);
    assert [] + [j] == [j];
  }

  /** The instruction of slotomania/tests/test_instructor.py: one OVERWRITE
      of a list holding one `AuthenticateUserRequest("user", "pass")`. */
  lemma SerializeOverwriteExample()
    ensures
      var request := VObj("AuthenticateUserRequest", [("username", VStr("user")), ("password", VStr("pass"))]);
      var op := Overwrite(VEnum("EntityTypes", "jwt_auth_token"), VList([request]));
      Serialize(NewInstruction([op])) == Ok(JObj([
        ("operations", JArr([JObj([
          ("verb", JStr("OVERWRITE")),
          ("entity_type", JStr("jwt_auth_token")),
          ("target_value", JArr([JObj([("username", JStr("user")), ("password", JStr("pass"))])]))])])),
        ("errors", JNull),
        ("redirect", JStr(""))]))
  {
    var request := VObj("AuthenticateUserRequest", [("username", VStr("user")), ("password", VStr("pass"))]);
    var requestJson := JObj([("username", JStr("user")), ("password", JStr("pass"))]);
    EncodeRequestExample();
    EncodeSingleton(request, requestJson);
    var op := Overwrite(VEnum("EntityTypes", "jwt_auth_token"), VList([request]));
    var opValue := OperationValue(op);
    var opJson := JObj([("verb", JStr("OVERWRITE")), ("entity_type", JStr("jwt_auth_token")), ("target_value", JArr([requestJson]))]);
    EncodeOverwriteExample(VList([request]), JArr([requestJson]));
    EncodeSingleton(opValue, opJson);

    var ins := InstructionValue(NewInstruction([op]));
    assert ins.attrs[0].1 == VList([opValue]);
    assert Encode(ins.attrs[0].1) == Ok(JArr([opJson]));
    assert Encode(ins.attrs[1].1) == Ok(JNull);
    assert Encode(ins.attrs[2].1) == Ok(JStr(""));
    EncodeEntriesKeys(ins.attrs);
    assert EncodeEntries(ins.attrs).value == [("operations", JArr([opJson])), ("errors", JNull), ("redirect", JStr(""))];
  }
}
