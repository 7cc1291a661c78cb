/** The slot-object serialisers: `Sloto._sloto_to_dict`
    (slotomania/contracts.py:34-42, slotomania/datatypes.py:17-25) and
    `Slot.to_dict` (slotomania/slots.py:2-10), one loop over `__slots__`
    differing only in the name of the method they look for; and the
    constructors of the slot classes declared beside them. */
module Slots {
  import opened Errors
  import opened PyValues

  /** `ret[k] = v` on a dict kept as its entries in insertion order: an
      existing key keeps its place. */
  function Put(d: seq<(string, Value)>, k: string, v: Value): seq<(string, Value)>
  {
    if |d| == 0 then [(k, v)]
    else if d[0].0 == k then [(k, v)] + d[1..]
    else [d[0]] + Put(d[1..], k, v)
  }

  /** A new key goes last. */
  lemma {:induction false} PutNew(d: seq<(string, Value)>, k: string, v: Value)
    requires forall i :: 0 <= i < |d| ==> d[i].0 != k
    ensures Put(d, k, v) == d + [(k, v)]
  {
    if |d| > 0 {
      PutNew(d[1..], k, v);
      assert d == [d[0]] + d[1..];
    }
  }

  /** A value the serialiser descends into: a slot object whose class has
      the method `hook` names. */
  predicate Serialisable(hook: Hook, v: Value)
  {
    v.VSlots? && v.hook == hook
  }

  /** `ret[field] = f(field)` for each name in order, stopping at the first
      failure: the shape of the serialiser's loop, for any step `f`. */
  function Fold(f: string -> Result<Value>, names: seq<string>): Result<seq<(string, Value)>>
  {
    if |names| == 0 then Ok([])
    else
      var done :- Fold(f, names[..|names| - 1]);
      var converted :- f(names[|names| - 1]);
      Ok(Put(done, names[|names| - 1], converted))
  }

  /** `getattr(self, field)`, converted: an AttributeError when the slot was
      never assigned. */
  function SlotAttr(hook: Hook, obj: Value, name: string): Result<Value>
    decreases obj, 0, 0
  {
    if !obj.VSlots? then Err(AttributeError(name))
    else
      var at := LastIndex(obj.attrs, name);
      if at.None? then Err(AttributeError(name))
      else
        assert obj.attrs[at.value] in obj.attrs;
        SlotValue(hook, obj.attrs[at.value].1)
  }

  /** The dict of a slot object, over its first `n` slot names. */
  function SlotDict(hook: Hook, obj: Value, n: nat): Result<seq<(string, Value)>>
    requires obj.VSlots? && n <= |obj.slots|
    decreases obj, 1, n
  {
    if n == 0 then Ok([])
    else
      var done :- SlotDict(hook, obj, n - 1);
      var converted :- SlotAttr(hook, obj, obj.slots[n - 1]);
      Ok(Put(done, obj.slots[n - 1], converted))
  }

  /** What a slot's value becomes: its own dict when it is serialisable,
      otherwise the value itself, copied as it is (a list of slot objects
      included). */
  function SlotValue(hook: Hook, v: Value): Result<Value>
    decreases v, 2, 0
  {
    if Serialisable(hook, v) then
      var entries :- SlotDict(hook, v, |v.slots|);
      Ok(VDict(entries))
    else Ok(v)
  }

  /** `_sloto_to_dict()` / `to_dict()` on a slot object: the loop filling
      `ret`, calling the nested object's own method. */
  method ToDict(hook: Hook, obj: Value) returns (r: Result<Value>)
    requires Serialisable(hook, obj)
    ensures r == SlotValue(hook, obj)
    decreases obj
  {
    var ret: seq<(string, Value)> := [];
    var k := 0;
    while k < |obj.slots|
      invariant 0 <= k <= |obj.slots|
      invariant SlotDict(hook, obj, k) == Ok(ret)
    {
      var name := obj.slots[k];
      var found := LastIndex(obj.attrs, name);
      if found.None? {
        SlotDictPrefixErr(hook, obj, k + 1, |obj.slots|);
        return Err(AttributeError(name));
      }
      var value := obj.attrs[found.value].1;
      var converted: Result<Value>;
      if Serialisable(hook, value) {
        assert obj.attrs[found.value] in obj.attrs;
        converted := ToDict(hook, value);
      } else {
        converted := Ok(value);
      }
      if converted.Err? {
        SlotDictPrefixErr(hook, obj, k + 1, |obj.slots|);
        return Err(converted.error);
      }
      assert SlotAttr(hook, obj, name) == converted;
      ret := Put(ret, name, converted.value);
      k := k + 1;
    }
    return Ok(VDict(ret));
  }

  lemma {:induction false} SlotDictPrefixErr(hook: Hook, obj: Value, k: nat, n: nat)
    requires obj.VSlots? && k <= n <= |obj.slots|
    requires SlotDict(hook, obj, k).Err?
    ensures SlotDict(hook, obj, n) == SlotDict(hook, obj, k)
    decreases n
  {
    if n > k {
      SlotDictPrefixErr(hook, obj, k, n - 1);
    }
  }

  // ---------------------------------------------------------------------
  // Properties.

  /** The serialiser is the fold of `SlotAttr` over the slot names. */
  lemma {:induction false} SlotDictFold(hook: Hook, obj: Value, n: nat)
    requires obj.VSlots? && n <= |obj.slots|
    ensures SlotDict(hook, obj, n) == Fold(name => SlotAttr(hook, obj, name), obj.slots[..n])
  {
    if n > 0 {
      SlotDictFold(hook, obj, n - 1);
      assert obj.slots[..n][..n - 1] == obj.slots[..n - 1];
    }
  }

  /** A slot's converted attribute: `SlotValue` of what `getattr` finds, an
      AttributeError when it finds nothing. */
  lemma SlotAttrSpec(hook: Hook, obj: Value, name: string)
    requires obj.VSlots?
    ensures Lookup(obj.attrs, name).None? ==> SlotAttr(hook, obj, name) == Err(AttributeError(name))
    ensures Lookup(obj.attrs, name).Some? ==> SlotAttr(hook, obj, name) == SlotValue(hook, Lookup(obj.attrs, name).value)
  {
    LastIndexLookup(obj.attrs, name);
  }

  predicate DistinctSlots(slots: seq<string>)
  {
    forall i, j :: 0 <= i < j < |slots| ==> slots[i] != slots[j]
  }

  lemma {:induction false} FoldFailsIff(f: string -> Result<Value>, names: seq<string>)
    ensures Fold(f, names).Err? <==> exists i :: 0 <= i < |names| && f(names[i]).Err?
  {
    if |names| > 0 {
      var init := names[..|names| - 1];
      FoldFailsIff(f, init);
      if exists i :: 0 <= i < |init| && f(init[i]).Err? {
        var i :| 0 <= i < |init| && f(init[i]).Err?;
        assert names[i] == init[i];
      }
      if exists i :: 0 <= i < |names| && f(names[i]).Err? {
        var i :| 0 <= i < |names| && f(names[i]).Err?;
        if i < |init| { assert init[i] == names[i]; }
      }
    }
  }

  lemma {:induction false} FoldEntries(f: string -> Result<Value>, names: seq<string>)
    requires DistinctSlots(names) && Fold(f, names).Ok?
    ensures Keys(Fold(f, names).value) == names
    ensures forall i :: 0 <= i < |names| ==> f(names[i]) == Ok(Fold(f, names).value[i].1)
  {
    if |names| > 0 {
      var init := names[..|names| - 1];
      var name := names[|names| - 1];
      assert DistinctSlots(init);
      FoldEntries(f, init);
      var done := Fold(f, init).value;
      forall i | 0 <= i < |done| ensures done[i].0 != name {
        assert done[i].0 == Keys(done)[i] == init[i] == names[i];
      }
      PutNew(done, name, f(name).value);
      var d := Fold(f, names).value;
      assert d == done + [(name, f(name).value)];
      assert Keys(d) == Keys(done) + [name];
      assert names == init + [name];
      forall i | 0 <= i < |names| ensures f(names[i]) == Ok(d[i].1) {
        if i < |init| { assert d[i] == done[i] && names[i] == init[i]; }
      }
    }
  }

  /** With distinct slot names the dict has exactly the `__slots__` names as
      keys, in `__slots__` order, each holding that slot's converted
      attribute. */
  lemma SlotDictEntries(hook: Hook, obj: Value)
    requires obj.VSlots? && DistinctSlots(obj.slots)
    requires SlotDict(hook, obj, |obj.slots|).Ok?
    ensures Keys(SlotDict(hook, obj, |obj.slots|).value) == obj.slots
    ensures forall i :: 0 <= i < |obj.slots| ==>
              SlotAttr(hook, obj, obj.slots[i]) == Ok(SlotDict(hook, obj, |obj.slots|).value[i].1)
  {
    SlotDictFold(hook, obj, |obj.slots|);
    assert obj.slots[..|obj.slots|] == obj.slots;
    FoldEntries(name => SlotAttr(hook, obj, name), obj.slots);
  }

  /** The conversion fails exactly when some slot was never assigned or a
      nested slot object fails. */
  lemma SlotDictFailsIff(hook: Hook, obj: Value)
    requires obj.VSlots?
    ensures SlotDict(hook, obj, |obj.slots|).Err? <==>
            exists i :: 0 <= i < |obj.slots| && SlotAttr(hook, obj, obj.slots[i]).Err?
  {
    SlotDictFold(hook, obj, |obj.slots|);
    assert obj.slots[..|obj.slots|] == obj.slots;
    FoldFailsIff(name => SlotAttr(hook, obj, name), obj.slots);
  }

  /** Values without the method are copied unchanged: a list, even of slot
      objects, is not descended into, and neither is a slot object whose
      class defines the other method. */
  lemma CopiedUnchanged(hook: Hook, v: Value)
    requires !Serialisable(hook, v)
    ensures SlotValue(hook, v) == Ok(v)
    ensures SlotValue(hook, VList([v])) == Ok(VList([v]))
  {
  }

  /** `ValueType` (slotomania/datatypes.py:6-11): the member names. */
  predicate IsValueTypeName(s: string)
  {
    s == "STRING" || s == "INTEGER" || s == "DECIMAL" || s == "FLOAT" || s == "DICT"
  }

  /** `ValueType[value_type]` for a string (a KeyError for an unknown name),
      the value itself otherwise. */
  function CoerceValueType(valueType: Value): Result<Value>
  {
    if valueType.VStr? then
      if IsValueTypeName(valueType.s) then Ok(VEnum("ValueType", valueType.s))
      else Err(KeyError(valueType.s))
    else Ok(valueType)
  }

  /** A slot object of the `_sloto_to_dict` family, every slot assigned. */
  function Sloto(cls: string, attrs: seq<(string, Value)>): Value
  {
    VSlots(SlotoToDictHook, cls, Keys(attrs), attrs)
  }

  /** `PrimitiveField(name, value_type)` (slotomania/contracts.py). */
  function NewPrimitiveField(name: Value, valueType: Value): Value
  {
    Sloto("PrimitiveField", [("name", name), ("value_type", valueType)])
  }

  /** `NestedField(name, sub_contract)` (slotomania/contracts.py). */
  function NewNestedField(name: Value, subContract: Value): Value
  {
    Sloto("NestedField", [("name", name), ("sub_contract", subContract)])
  }

  /** `Contract(fields)`, the same in slotomania/contracts.py and
      slotomania/datatypes.py. */
  function NewContract(fields: Value): Value
  {
    Sloto("Contract", [("fields", fields)])
  }

  /** `Field(name, value_type)` (slotomania/datatypes.py). */
  function NewField(name: Value, valueType: Value): Result<Value>
  {
    var coerced :- CoerceValueType(valueType);
    Ok(Sloto("Field", [("name", name), ("value_type", coerced)]))
  }

  /** A `Field` built from a member's name equals one built from the member;
      an unknown name fails. */
  lemma FieldCoercion(name: Value, s: string)
    ensures IsValueTypeName(s) ==> NewField(name, VStr(s)) == NewField(name, VEnum("ValueType", s))
    ensures !IsValueTypeName(s) ==> NewField(name, VStr(s)) == Err(KeyError(s))
    ensures NewField(name, VEnum("ValueType", s)).Ok?
  {
  }

  /** Every two-slot object whose first value is plain serialises to its
      two arguments, unchanged and in order. */
  lemma {:induction false} TwoSlotDict(cls: string, k1: string, v1: Value, k2: string, v2: Value)
    requires k1 != k2 && !Serialisable(SlotoToDictHook, v1)
    requires SlotValue(SlotoToDictHook, v2).Ok?
    ensures SlotDict(SlotoToDictHook, Sloto(cls, [(k1, v1), (k2, v2)]), 2) ==
            Ok([(k1, v1), (k2, SlotValue(SlotoToDictHook, v2).value)])
  {
    var attrs := [(k1, v1), (k2, v2)];
    var obj := Sloto(cls, attrs);
    assert obj.slots == [k1, k2];
    assert attrs[..1] == [(k1, v1)];
    assert Lookup(attrs, k1) == Lookup(attrs[..1], k1) == Some(v1);
    assert Lookup(attrs, k2) == Some(v2);
    SlotAttrSpec(SlotoToDictHook, obj, k1);
    SlotAttrSpec(SlotoToDictHook, obj, k2);
    assert SlotDict(SlotoToDictHook, obj, 1) == Ok(Put([], k1, v1));
    assert SlotDict(SlotoToDictHook, obj, 1) == Ok([(k1, v1)]);
    var second := SlotValue(SlotoToDictHook, v2).value;
    assert SlotDict(SlotoToDictHook, obj, 2).Ok?;
    PutNew([(k1, v1)], k2, second);
    assert SlotDict(SlotoToDictHook, obj, 2).value == Put([(k1, v1)], k2, second);
    assert [(k1, v1)] + [(k2, second)] == [(k1, v1), (k2, second)];
  }

  /** The constructors store their arguments unchanged; a nested contract
      becomes its own dict, but the list of fields inside it is copied as
      it is. */
  lemma ConstructorDicts(name: Value, valueType: Value, fields: seq<Value>)
    requires !Serialisable(SlotoToDictHook, name) && !Serialisable(SlotoToDictHook, valueType)
    ensures SlotValue(SlotoToDictHook, NewPrimitiveField(name, valueType)) ==
            Ok(VDict([("name", name), ("value_type", valueType)]))
    ensures SlotValue(SlotoToDictHook, NewContract(VList(fields))) ==
            Ok(VDict([("fields", VList(fields))]))
    ensures SlotValue(SlotoToDictHook, NewNestedField(name, NewContract(VList(fields)))) ==
            Ok(VDict([("name", name), ("sub_contract", VDict([("fields", VList(fields))]))]))
  {
    TwoSlotDict("PrimitiveField", "name", name, "value_type", valueType);
    var contract := NewContract(VList(fields));
    assert contract.slots == ["fields"];
    assert Lookup(contract.attrs, "fields") == Some(VList(fields));
    SlotAttrSpec(SlotoToDictHook, contract, "fields");
    assert SlotDict(SlotoToDictHook, contract, 0) == Ok([]);
    assert SlotDict(SlotoToDictHook, contract, 1) == Ok(Put([], "fields", VList(fields)));
    TwoSlotDict("NestedField", "name", name, "sub_contract", contract);
  }
}
