/** The marshmallow schema adapter
    (slotomania/contrib/marshmallow_converter.py): turns a schema's fields
    into the contract representation, one field each, and renders a list of
    schemas as slot classes. The contract representation it builds (with a
    list field, a `required` flag and a contract name) is the one the adapter
    calls; slotomania/contracts.py as shipped declares only part of it. */
module MarshmallowConverter {
  import opened Errors
  import opened Text

  /** `PrimitiveValueType` (slotomania/contracts.py:6-12). */
  datatype PrimitiveValueType = STRING | INTEGER | DECIMAL | FLOAT | DATETIME

  /** The marshmallow field classes the adapter distinguishes; `Other` is any
      class none of these is an ancestor of (Boolean, Dict, Number, ...). */
  datatype Kind = String | Integer | Decimal | Float | DateTime | Nested | List | Other

  /** A field's class: the nearest of the known classes among its ancestors,
      and whether it is exactly that class rather than a subclass. */
  datatype FieldClass = FieldClass(kind: Kind, exact: bool)

  /** A marshmallow field: its class, the name it is bound to, `required`,
      and the `nested` and `container` attributes of Nested and List. */
  datatype MField = MField(cls: FieldClass, boundName: string, required: bool,
                           nested: Option<SchemaObj>, container: Option<MField>)

  /** What `field.nested` holds: a Schema instance (its class name and its
      fields in declaration order) or some other object. */
  datatype SchemaObj = SchemaObj(isSchema: bool, className: string, fields: seq<(string, MField)>)

  datatype SlotoField =
    | PrimitiveField(name: string, valueType: PrimitiveValueType, required: bool)
    | NestedField(name: string, subContract: Contract, required: bool)
    | ListField(name: string, itemType: SlotoField, required: bool)

  datatype Contract = Contract(name: string, fields: seq<SlotoField>)

  /** `field_map[type(field)]`: exact classes only. */
  function FieldMap(cls: FieldClass): Option<PrimitiveValueType>
  {
    if !cls.exact then None
    else
      match cls.kind
      case String => Some(STRING)
      case Integer => Some(INTEGER)
      case Decimal => Some(DECIMAL)
      case Float => Some(FLOAT)
      case DateTime => Some(DATETIME)
      case _ => None
  }

  /** `field_to_field`: a primitive keeps the given name; a Nested (or a
      subclass) is named by its own `field.name` and converts its schema; a
      List (or a subclass) converts its container under the same name; any
      other field is a KeyError. */
  function FieldToField(name: string, field: MField): Result<SlotoField>
    decreases field, 0, 0
  {
    if FieldMap(field.cls).Some? then
      Ok(PrimitiveField(name, FieldMap(field.cls).value, field.required))
    else if field.cls.kind == Nested then
      if field.nested.None? then Err(AttributeError("nested"))
      else
        var sub :- SchemaContract(field.nested.value);
        Ok(NestedField(field.boundName, sub, field.required))
    else if field.cls.kind == List then
      if field.container.None? then Err(AttributeError("container"))
      else
        var item :- FieldToField(name, field.container.value);
        Ok(ListField(name, item, field.required))
    else Err(KeyError("not found"))
  }

  /** The first `n` fields of a schema, converted in order. */
  function ConvertFields(schema: SchemaObj, n: nat): Result<seq<SlotoField>>
    requires n <= |schema.fields|
    decreases schema, 1, n
  {
    if n == 0 then Ok([])
    else
      var done :- ConvertFields(schema, n - 1);
      assert schema.fields[n - 1] in schema.fields;
      var e := schema.fields[n - 1];
      assert e.1 < e;
      var f :- FieldToField(e.0, e.1);
      Ok(done + [f])
  }

  /** What `schema_to_contract` computes: an AssertionError for anything but
      a Schema instance, otherwise the contract named after its class with
      one field per schema field. */
  function SchemaContract(schema: SchemaObj): Result<Contract>
    decreases schema, 2, 0
  {
    if !schema.isSchema then Err(AssertionError("is not an instance of Schema"))
    else
      var fields :- ConvertFields(schema, |schema.fields|);
      Ok(Contract(schema.className, fields))
  }

  /** `schema_to_contract`: the loop appending to `ret`. */
  method SchemaToContract(schema: SchemaObj) returns (r: Result<Contract>)
    ensures r == SchemaContract(schema)
  {
    if !schema.isSchema {
      return Err(AssertionError("is not an instance of Schema"));
    }
    var ret: seq<SlotoField> := [];
    var i := 0;
    while i < |schema.fields|
      invariant 0 <= i <= |schema.fields|
      invariant ConvertFields(schema, i) == Ok(ret)
    {
      var (name, field) := schema.fields[i];
      var converted := FieldToField(name, field);
      if converted.Err? {
        ConvertFieldsPrefixErr(schema, i + 1, |schema.fields|);
        return Err(converted.error);
      }
      ret := ret + [converted.value];
      i := i + 1;
    }
    return Ok(Contract(schema.className, ret));
  }

  /** Once a prefix fails, every longer prefix fails the same way. */
  lemma {:induction false} ConvertFieldsPrefixErr(schema: SchemaObj, k: nat, n: nat)
    requires k <= n <= |schema.fields|
    requires ConvertFields(schema, k).Err?
    ensures ConvertFields(schema, n) == ConvertFields(schema, k)
    decreases n
  {
    if n > k {
      ConvertFieldsPrefixErr(schema, k, n - 1);
    }
  }

  /** The blocks `schemas_to_slots` joins: imports only with the first. */
  function Blocks(translate: (Contract, bool) -> string, contracts: seq<Contract>): (r: seq<string>)
    ensures |r| == |contracts|
  {
    seq(|contracts|, i requires 0 <= i < |contracts| => translate(contracts[i], i == 0))
  }

  /** `schemas_to_slots`, with `Contract.translate_to_slots` as the parameter
      `translate`: all contracts first, then one block per contract. */
  method SchemasToSlots(translate: (Contract, bool) -> string, schemas: seq<SchemaObj>)
    returns (r: Result<string>)
    ensures MapAll(SchemaContract, schemas).Err? ==> r == Err(MapAll(SchemaContract, schemas).error)
    ensures MapAll(SchemaContract, schemas).Ok? ==>
            r == Ok(Join("\n", Blocks(translate, MapAll(SchemaContract, schemas).value)))
  {
    var contracts: seq<Contract> := [];
    var i := 0;
    while i < |schemas|
      invariant 0 <= i <= |schemas|
      invariant MapAll(SchemaContract, schemas[..i]) == Ok(contracts)
    {
      var c := SchemaToContract(schemas[i]);
      MapAllSnoc(SchemaContract, schemas[..i], schemas[i]);
      assert schemas[..i + 1] == schemas[..i] + [schemas[i]];
      if c.Err? {
        MapAllPrefixErr(SchemaContract, schemas, i + 1);
        return Err(c.error);
      }
      contracts := contracts + [c.value];
      i := i + 1;
    }
    assert schemas[..i] == schemas;
    var blocks: seq<string> := [];
    var index := 0;
    while index < |contracts|
      invariant 0 <= index <= |contracts|
      invariant blocks == Blocks(translate, contracts[..index])
    {
      blocks := blocks + [translate(contracts[index], index == 0)];
      index := index + 1;
    }
    assert contracts[..index] == contracts;
    return Ok(Join("\n", blocks));
  }

  // ---------------------------------------------------------------------
  // Properties.

  /** The five exact primitive classes map to their value type under the
      given name; Nested and List (and their subclasses) keep `required`;
      everything else is a KeyError. */
  lemma FieldToFieldSpec(name: string, field: MField)
    ensures FieldMap(field.cls).Some? <==>
            field.cls.exact && field.cls.kind in {String, Integer, Decimal, Float, DateTime}
    ensures FieldMap(field.cls).Some? ==>
            FieldToField(name, field) == Ok(PrimitiveField(name, FieldMap(field.cls).value, field.required))
    ensures FieldMap(field.cls).None? && field.cls.kind != Nested && field.cls.kind != List ==>
            FieldToField(name, field).Err? && FieldToField(name, field).error.KeyError?
    ensures FieldToField(name, field).Ok? ==> FieldToField(name, field).value.required == field.required
  {
  }

  /** A Nested field is named by its own bound name, not the name it is
      listed under, and holds the contract of its schema. */
  lemma NestedFieldName(name: string, field: MField)
    requires FieldMap(field.cls).None? && field.cls.kind == Nested
    requires field.nested.Some? && SchemaContract(field.nested.value).Ok?
    ensures FieldToField(name, field) ==
            Ok(NestedField(field.boundName, SchemaContract(field.nested.value).value, field.required))
  {
  }

  /** A List field converts its container under the list's own name. */
  lemma ListFieldItem(name: string, field: MField)
    requires FieldMap(field.cls).None? && field.cls.kind == List
    requires field.container.Some? && FieldToField(name, field.container.value).Ok?
    ensures FieldToField(name, field) ==
            Ok(ListField(name, FieldToField(name, field.container.value).value, field.required))
  {
  }

  /** Converting a prefix: it succeeds exactly when each field does, one
      result per field, in order. */
  lemma {:induction false} ConvertFieldsSpec(schema: SchemaObj, n: nat)
    requires n <= |schema.fields|
    ensures ConvertFields(schema, n).Ok? <==>
            forall i :: 0 <= i < n ==> FieldToField(schema.fields[i].0, schema.fields[i].1).Ok?
    ensures ConvertFields(schema, n).Ok? ==>
            |ConvertFields(schema, n).value| == n
            && forall i :: 0 <= i < n ==>
                 FieldToField(schema.fields[i].0, schema.fields[i].1) == Ok(ConvertFields(schema, n).value[i])
  {
    if n > 0 {
      ConvertFieldsSpec(schema, n - 1);
    }
  }

  /** `schema_to_contract` names the contract after the schema class and
      keeps one field per schema field, in declaration order; it fails on a
      non-schema and on the first field that does not convert. */
  lemma SchemaContractSpec(schema: SchemaObj)
    ensures SchemaContract(schema).Ok? <==>
            schema.isSchema
            && forall i :: 0 <= i < |schema.fields| ==> FieldToField(schema.fields[i].0, schema.fields[i].1).Ok?
    ensures !schema.isSchema ==> SchemaContract(schema) == Err(AssertionError("is not an instance of Schema"))
    ensures SchemaContract(schema).Ok? ==>
            var c := SchemaContract(schema).value;
            c.name == schema.className && |c.fields| == |schema.fields|
            && forall i :: 0 <= i < |c.fields| ==>
                 FieldToField(schema.fields[i].0, schema.fields[i].1) == Ok(c.fields[i])
  {
    ConvertFieldsSpec(schema, |schema.fields|);
  }

  /** Imports are asked for with the first block only. */
  lemma BlocksImportOnce(translate: (Contract, bool) -> string, contracts: seq<Contract>, i: nat)
    requires i < |contracts|
    ensures Blocks(translate, contracts)[i] == translate(contracts[i], i == 0)
    ensures |contracts| == 1 ==> Join("\n", Blocks(translate, contracts)) == translate(contracts[0], true)
  {
  }

  function Exact(kind: Kind): FieldClass
  {
    FieldClass(kind, true)
  }

  function Plain(kind: Kind, boundName: string, required: bool): MField
  {
    MField(Exact(kind), boundName, required, None, None)
  }

  /** The schemas of the adapter's own test: `Head.hair` is declared with the
      misspelt keyword `requried`, so it is not required. */
  function EyeSchema(): SchemaObj
  {
    SchemaObj(true, "Eye", [("color", Plain(String, "color", true))])
  }

  function HeadSchema(): SchemaObj
  {
    SchemaObj(true, "Head", [("hair", Plain(String, "hair", false))])
  }

  function BodySchema(): SchemaObj
  {
    var eye := MField(Exact(Nested), "eyes", false, Some(EyeSchema()), None);
    SchemaObj(true, "Body", [
      ("eyes", MField(Exact(List), "eyes", true, None, Some(eye))),
      ("mouth", Plain(Decimal, "mouth", true)),
      ("poo", Plain(Float, "poo", true)),
      ("foot", Plain(DateTime, "foot", true)),
      ("head", MField(Exact(Nested), "head", true, Some(HeadSchema()), None))])
  }

  /** `schema_to_contract(Body())`: the contract of the adapter's test. */
  lemma BodyContract()
    ensures SchemaContract(BodySchema()) == Ok(Contract("Body", [
      ListField("eyes", NestedField("eyes", Contract("Eye", [PrimitiveField("color", STRING, true)]), false), true),
      PrimitiveField("mouth", DECIMAL, true),
      PrimitiveField("poo", FLOAT, true),
      PrimitiveField("foot", DATETIME, true),
      NestedField("head", Contract("Head", [PrimitiveField("hair", STRING, false)]), true)]))
  {
    var eye := Contract("Eye", [PrimitiveField("color", STRING, true)]);
    var head := Contract("Head", [PrimitiveField("hair", STRING, false)]);
    SingleFieldSchema(EyeSchema(), PrimitiveField("color", STRING, true));
    SingleFieldSchema(HeadSchema(), PrimitiveField("hair", STRING, false));
    var body := BodySchema();
    var eyeField := body.fields[0].1.container.value;
    assert FieldToField("eyes", eyeField) == Ok(NestedField("eyes", eye, false));
    assert FieldToField("eyes", body.fields[0].1) == Ok(ListField("eyes", NestedField("eyes", eye, false), true));
    assert ConvertFields(body, 0) == Ok([]);
    assert [] + [ListField("eyes", NestedField("eyes", eye, false), true)] == [ListField("eyes", NestedField("eyes", eye, false), true)];
    assert ConvertFields(body, 1) == Ok([ListField("eyes", NestedField("eyes", eye, false), true)]);
    assert ConvertFields(body, 2) == Ok(ConvertFields(body, 1).value + [PrimitiveField("mouth", DECIMAL, true)]);
    assert ConvertFields(body, 3) == Ok(ConvertFields(body, 2).value + [PrimitiveField("poo", FLOAT, true)]);
    assert ConvertFields(body, 4) == Ok(ConvertFields(body, 3).value + [PrimitiveField("foot", DATETIME, true)]);
    assert ConvertFields(body, 5) == Ok(ConvertFields(body, 4).value + [NestedField("head", head, true)]);
    assert ConvertFields(body, 5).value == [
      ListField("eyes", NestedField("eyes", eye, false), true),
      PrimitiveField("mouth", DECIMAL, true),
      PrimitiveField("poo", FLOAT, true),
      PrimitiveField("foot", DATETIME, true),
      NestedField("head", head, true)];
    assert |body.fields| == 5;
  }

  lemma SingleFieldSchema(schema: SchemaObj, f: SlotoField)
    requires schema.isSchema && |schema.fields| == 1
    requires FieldToField(schema.fields[0].0, schema.fields[0].1) == Ok(f)
    ensures SchemaContract(schema) == Ok(Contract(schema.className, [f]))
  {
    assert ConvertFields(schema, 0) == Ok([]);
    assert [] + [f] == [f];
    assert ConvertFields(schema, 1) == Ok([f]);
  }
}
