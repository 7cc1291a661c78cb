/** `Contract.load_from_dict` and its nested `convert_value`
    (slotomania/core.py:91-124): a dict of plain data becomes a dataclass
    instance, field by field, guided by the field annotations. */
module Marshal {
  import opened Errors
  import opened PyValues
  import opened Dataclasses
  import opened Text

  /** Where `k` is declared among `fields`: the annotation `load_from_dict`
      looks up for a key of the data. */
  function FieldIndex(fields: seq<FieldDecl>, k: string): (r: Option<nat>)
    ensures r.None? <==> k !in FieldNames(fields)
    ensures r.Some? ==> r.value < |fields| && fields[r.value].name == k
    ensures r.Some? ==> forall j :: 0 <= j < r.value ==> fields[j].name != k
  {
    if |fields| == 0 then None
    else if fields[0].name == k then Some(0)
    else
      var rest := FieldIndex(fields[1..], k);
      assert forall j :: 0 < j < |fields| ==> FieldNames(fields)[j] == FieldNames(fields[1..])[j - 1];
      if rest.None? then None else Some(rest.value + 1)
  }

  /** `for item in value`: a list yields its items, a str its characters,
      a dict its keys; anything else is not iterable. */
  function Iterate(v: Value): (r: Result<seq<Value>>)
    ensures r.Ok? <==> v.VList? || v.VStr? || v.VDict?
    ensures v.VList? ==> r == Ok(v.items)
    ensures v.VStr? ==> r.Ok? && |r.value| == |v.s|
    ensures v.VDict? ==> r.Ok? && |r.value| == |v.entries|
  {
    match v
    case VList(items) => Ok(items)
    case VStr(s) => Ok(seq(|s|, i requires 0 <= i < |s| => VStr([s[i]])))
    case VDict(entries) => Ok(seq(|entries|, i requires 0 <= i < |entries| => VStr(entries[i].0)))
    case _ => Err(TypeError("object is not iterable"))
  }

  /** `convert_value(value, value_type)`: a TYPE_MAP type keeps the value as
      it is, a dataclass loads it, a Union converts as its first argument, a
      List converts every item; other types have no `__origin__` (or one
      that is not `list`) and raise. */
  function ConvertValue(t: PyType, v: Value): Result<Value>
    decreases t, 0, 0
  {
    match t
    case Prim(_) => Ok(v)
    case Record(rec) =>
      if rec.isContract then LoadRecord(rec, v)
      else Err(AttributeError("type object '" + rec.name + "' has no attribute 'load_from_dict'"))
    case UnionOf(args) =>
      if |args| == 0 then Err(IndexError("tuple index out of range"))
      else ConvertValue(args[0], v)
    case ListOf(item) =>
      var items :- Iterate(v);
      var converted :- ConvertList(item, items);
      Ok(VList(converted))
    case Other(repr, hasOrigin) =>
      if hasOrigin then Err(ConversionError("not sure what to do with " + repr))
      else Err(AttributeError("__origin__"))
    case _ => Err(AttributeError("__origin__"))
  }

  /** The list comprehension over the items: first failure wins. */
  function ConvertList(t: PyType, items: seq<Value>): Result<seq<Value>>
    decreases t, 1, |items|
  {
    if |items| == 0 then Ok([])
    else
      var init :- ConvertList(t, items[..|items| - 1]);
      var last :- ConvertValue(t, items[|items| - 1]);
      Ok(init + [last])
  }

  /** The first loop of `load_from_dict`: every key of the data that names a
      field is converted by that field's annotation into `kwargs`; other keys
      are skipped. */
  function ConvertEntries(rec: RecordType, entries: seq<(string, Value)>): Result<map<string, Value>>
    decreases rec, 2, |entries|
  {
    if |entries| == 0 then Ok(map[])
    else
      var kwargs :- ConvertEntries(rec, entries[..|entries| - 1]);
      var (key, value) := entries[|entries| - 1];
      match FieldIndex(rec.fields, key)
      case None => Ok(kwargs)
      case Some(i) =>
        assert rec.fields[i] in rec.fields;
        var converted :- ConvertValue(rec.fields[i].typ, value);
        Ok(kwargs[key := converted])
  }

  /** The second loop: the first field, in declaration order, that has no
      plain default and whose name the data lacks. */
  function MissingFrom(fields: seq<FieldDecl>, present: seq<string>): Option<string>
  {
    if |fields| == 0 then None
    else
      var init := MissingFrom(fields[..|fields| - 1], present);
      var f := fields[|fields| - 1];
      if init.Some? then init
      else if IsFieldRequired(f) && f.name !in present then Some(f.name)
      else None
  }

  /** `cls(**kwargs)`: each field takes its keyword argument, else its
      default or the product of its factory; a field with neither is a
      missing positional argument. */
  function Construct(fields: seq<FieldDecl>, kwargs: map<string, Value>): Result<seq<(string, Value)>>
  {
    if |fields| == 0 then Ok([])
    else
      var init :- Construct(fields[..|fields| - 1], kwargs);
      var f := fields[|fields| - 1];
      var arg := Argument(f, kwargs);
      if arg.None? then Err(TypeError("missing required argument: " + f.name))
      else Ok(init + [(f.name, arg.value)])
  }

  /** The value a field receives: its keyword argument, else its default
      or the product of its factory. */
  function Argument(f: FieldDecl, kwargs: map<string, Value>): (r: Option<Value>)
    ensures r.None? <==> f.name !in kwargs && f.default.NoDefault?
    ensures f.name in kwargs ==> r == Some(kwargs[f.name])
  {
    if f.name in kwargs then Some(kwargs[f.name])
    else match f.default
      case DefaultValue(v) => Some(v)
      case DefaultFactory(v) => Some(v)
      case NoDefault => None
  }

  /** `cls.load_from_dict(data)`. The data's type is never checked: the
      first loop runs over whatever `for key in data` yields, and the
      second asks `name not in data` of whatever the data is. */
  function LoadRecord(rec: RecordType, data: Value): Result<Value>
    decreases rec, 3, 0
  {
    if data.VDict? then
      var kwargs :- ConvertEntries(rec, data.entries);
      match MissingFrom(rec.fields, Keys(data.entries))
      case Some(name) => Err(MissingField(name))
      case None =>
        var attrs :- Construct(rec.fields, kwargs);
        Ok(VObj(rec.name, attrs))
    else
      var keys :- Iterate(data);
      match SequenceKeyError(rec.fields, keys)
      case Some(e) => Err(e)
      case None =>
        match MissingFrom(rec.fields, PresentNames(rec.fields, data))
        case Some(name) => Err(MissingField(name))
        case None =>
          var attrs :- Construct(rec.fields, map[]);
          Ok(VObj(rec.name, attrs))
  }

  /** Whether `hash(v)` succeeds: lists and dicts are unhashable, and so is
      a dataclass instance, whose generated `__eq__` drops `__hash__`. */
  predicate Hashable(v: Value)
  {
    !(v.VList? || v.VDict? || v.VObj?)
  }

  /** The first loop over a list's items or a str's characters:
      `key in cls.get_fields()` hashes the key, and a key naming a field is
      then used as `data[key]`, which a sequence refuses. The first such
      failure; without one, no keyword argument is collected. */
  function SequenceKeyError(fields: seq<FieldDecl>, keys: seq<Value>): Option<Error>
  {
    if |keys| == 0 then None
    else if !Hashable(keys[0]) then Some(TypeError("unhashable type"))
    else if keys[0].VStr? && keys[0].s in FieldNames(fields) then
      Some(TypeError("indices must be integers or slices, not str"))
    else SequenceKeyError(fields, keys[1..])
  }

  /** `name in data` for a field's name: a dict has it as a key, a list as
      an item (only a str equals a str), a str as a substring. */
  predicate Contains(data: Value, name: string)
  {
    match data
    case VDict(entries) => name in Keys(entries)
    case VList(items) => VStr(name) in items
    case VStr(s) => Occurs(name, s)
    case _ => false
  }

  /** The field names `name in data` finds, in declaration order. */
  function PresentNames(fields: seq<FieldDecl>, data: Value): (r: seq<string>)
    ensures forall x :: x in r <==> x in FieldNames(fields) && Contains(data, x)
  {
    if |fields| == 0 then []
    else
      var init := fields[..|fields| - 1];
      var f := fields[|fields| - 1];
      assert FieldNames(fields) == FieldNames(init) + [f.name];
      PresentNames(init, data) + (if Contains(data, f.name) then [f.name] else [])
  }

  lemma ConvertEntriesSnoc(rec: RecordType, entries: seq<(string, Value)>, e: (string, Value))
    ensures ConvertEntries(rec, entries + [e]) ==
      (if ConvertEntries(rec, entries).Err? then ConvertEntries(rec, entries)
       else match FieldIndex(rec.fields, e.0)
         case None => ConvertEntries(rec, entries)
         case Some(i) =>
           if ConvertValue(rec.fields[i].typ, e.1).Err? then Err(ConvertValue(rec.fields[i].typ, e.1).error)
           else Ok(ConvertEntries(rec, entries).value[e.0 := ConvertValue(rec.fields[i].typ, e.1).value]))
  {
    assert (entries + [e])[..|entries|] == entries;
  }

  lemma {:induction false} ConvertEntriesPrefixErr(rec: RecordType, entries: seq<(string, Value)>, k: nat)
    requires k <= |entries| && ConvertEntries(rec, entries[..k]).Err?
    ensures ConvertEntries(rec, entries) == ConvertEntries(rec, entries[..k])
    decreases |entries| - k
  {
    if k < |entries| {
      ConvertEntriesSnoc(rec, entries[..k], entries[k]);
      assert entries[..k] + [entries[k]] == entries[..k + 1];
      ConvertEntriesPrefixErr(rec, entries, k + 1);
    } else {
      assert entries[..k] == entries;
    }
  }

  lemma {:induction false} MissingFromPrefix(fields: seq<FieldDecl>, present: seq<string>, k: nat)
    requires k <= |fields| && MissingFrom(fields[..k], present).Some?
    ensures MissingFrom(fields, present) == MissingFrom(fields[..k], present)
    decreases |fields| - k
  {
    if k < |fields| {
      assert fields[..k + 1][..k] == fields[..k];
      MissingFromPrefix(fields, present, k + 1);
    } else {
      assert fields[..k] == fields;
    }
  }

  /** The first loop of `load_from_dict` as written: converts each entry
      naming a field into `kwargs`, raising at the first failure. */
  method ConvertLoop(rec: RecordType, entries: seq<(string, Value)>) returns (r: Result<map<string, Value>>)
    ensures r == ConvertEntries(rec, entries)
  {
    var kwargs: map<string, Value> := map[];
    var i := 0;
    while i < |entries|
      invariant 0 <= i <= |entries|
      invariant ConvertEntries(rec, entries[..i]) == Ok(kwargs)
    {
      var (key, value) := entries[i];
      ConvertEntriesSnoc(rec, entries[..i], entries[i]);
      assert entries[..i] + [entries[i]] == entries[..i + 1];
      var index := FieldIndex(rec.fields, key);
      if index.Some? {
        var converted := ConvertValue(rec.fields[index.value].typ, value);
        if converted.Err? {
          ConvertEntriesPrefixErr(rec, entries, i + 1);
          return Err(converted.error);
        }
        kwargs := kwargs[key := converted.value];
      }
      i := i + 1;
    }
    assert entries[..i] == entries;
    return Ok(kwargs);
  }

  /** The second loop as written: the first required field whose name the
      data lacks. */
  method MissingLoop(fields: seq<FieldDecl>, present: seq<string>) returns (r: Option<string>)
    ensures r == MissingFrom(fields, present)
  {
    var j := 0;
    while j < |fields|
      invariant 0 <= j <= |fields|
      invariant MissingFrom(fields[..j], present).None?
    {
      var f := fields[j];
      assert fields[..j + 1][..j] == fields[..j];
      if IsFieldRequired(f) && f.name !in present {
        MissingFromPrefix(fields, present, j + 1);
        return Some(f.name);
      }
      j := j + 1;
    }
    assert fields[..j] == fields;
    return None;
  }

  /** The first loop over a list or a str as written. */
  method SequenceKeyLoop(fields: seq<FieldDecl>, keys: seq<Value>) returns (r: Option<Error>)
    ensures r == SequenceKeyError(fields, keys)
  {
    var j := 0;
    while j < |keys|
      invariant 0 <= j <= |keys|
      invariant SequenceKeyError(fields, keys) == SequenceKeyError(fields, keys[j..])
    {
      var key := keys[j];
      assert keys[j..][0] == key && keys[j..][1..] == keys[j + 1..];
      if !Hashable(key) {
        return Some(TypeError("unhashable type"));
      }
      if key.VStr? && key.s in FieldNames(fields) {
        return Some(TypeError("indices must be integers or slices, not str"));
      }
      j := j + 1;
    }
    return None;
  }

  /** `load_from_dict` as written: the conversion loop over the data, the
      loop over the fields checking for missing ones, and the constructor
      call. */
  method LoadFromDict(rec: RecordType, data: Value) returns (r: Result<Value>)
    ensures r == LoadRecord(rec, data)
  {
    var kwargs: map<string, Value>;
    var present: seq<string>;
    if data.VDict? {
      kwargs :- ConvertLoop(rec, data.entries);
      present := Keys(data.entries);
    } else {
      var keys :- Iterate(data);
      var keyError := SequenceKeyLoop(rec.fields, keys);
      if keyError.Some? {
        return Err(keyError.value);
      }
      kwargs := map[];
      present := PresentNames(rec.fields, data);
    }
    var missing := MissingLoop(rec.fields, present);
    if missing.Some? {
      return Err(MissingField(missing.value));
    }
    var attrs :- Construct(rec.fields, kwargs);
    r := Ok(VObj(rec.name, attrs));
  }

  /** The keyword arguments are exactly the data's keys that name a field. */
  lemma {:induction false} ConvertEntriesKeys(rec: RecordType, entries: seq<(string, Value)>)
    requires ConvertEntries(rec, entries).Ok?
    ensures forall k :: k in ConvertEntries(rec, entries).value <==> k in Keys(entries) && k in FieldNames(rec.fields)
  {
    if |entries| > 0 {
      var init := entries[..|entries| - 1];
      var e := entries[|entries| - 1];
      ConvertEntriesKeys(rec, init);
      assert Keys(entries) == Keys(init) + [e.0];
      var prev := ConvertEntries(rec, init).value;
      match FieldIndex(rec.fields, e.0)
      case None =>
        assert ConvertEntries(rec, entries).value == prev;
      case Some(i) =>
        assert rec.fields[i] in rec.fields;
        assert ConvertEntries(rec, entries).value == prev[e.0 := ConvertValue(rec.fields[i].typ, e.1).value];
    }
  }

  /** No field is reported missing exactly when every field without a plain
      default is named by the data; otherwise the first such field is. */
  lemma {:induction false} MissingFromSpec(fields: seq<FieldDecl>, present: seq<string>)
    ensures MissingFrom(fields, present).None? <==>
      forall i :: 0 <= i < |fields| && IsFieldRequired(fields[i]) ==> fields[i].name in present
    ensures MissingFrom(fields, present).Some? ==> exists i :: (0 <= i < |fields|
      && IsFieldRequired(fields[i]) && fields[i].name !in present && MissingFrom(fields, present).value == fields[i].name
      && forall j :: 0 <= j < i && IsFieldRequired(fields[j]) ==> fields[j].name in present)
  {
    if |fields| > 0 {
      var init := fields[..|fields| - 1];
      MissingFromSpec(init, present);
      assert forall i :: 0 <= i < |init| ==> init[i] == fields[i];
    }
  }

  /** The constructor succeeds when every field without any default has an
      argument, and then lists every field once, in declaration order. */
  lemma {:induction false} ConstructSpec(fields: seq<FieldDecl>, kwargs: map<string, Value>)
    ensures Construct(fields, kwargs).Ok? <==>
      forall i :: 0 <= i < |fields| && fields[i].default.NoDefault? ==> fields[i].name in kwargs
    ensures Construct(fields, kwargs).Ok? ==> Keys(Construct(fields, kwargs).value) == FieldNames(fields)
    ensures Construct(fields, kwargs).Ok? ==> forall i :: 0 <= i < |fields| && fields[i].name in kwargs ==>
      Construct(fields, kwargs).value[i].1 == kwargs[fields[i].name]
  {
    if |fields| > 0 {
      var init := fields[..|fields| - 1];
      var f := fields[|fields| - 1];
      ConstructSpec(init, kwargs);
      assert forall i :: 0 <= i < |init| ==> init[i] == fields[i];
      if Construct(fields, kwargs).Ok? {
        var done := Construct(init, kwargs).value;
        assert Construct(fields, kwargs).value == done + [(f.name, Argument(f, kwargs).value)];
        assert FieldNames(fields) == FieldNames(init) + [f.name];
      }
    }
  }

  /** A load that succeeds yields an instance of the class with every field,
      in declaration order. */
  lemma LoadRecordShape(rec: RecordType, data: Value)
    requires LoadRecord(rec, data).Ok?
    ensures LoadRecord(rec, data).value.VObj?
    ensures LoadRecord(rec, data).value.cls == rec.name
    ensures Keys(LoadRecord(rec, data).value.attrs) == FieldNames(rec.fields)
  {
    if data.VDict? {
      ConstructSpec(rec.fields, ConvertEntries(rec, data.entries).value);
    } else {
      ConstructSpec(rec.fields, map[]);
    }
  }

  /** When a load succeeds: the data is a dict, every key naming a field
      converts, and every field without a plain default is present. A
      conversion failure is reported before any missing field. */
  lemma LoadRecordSucceedsIff(rec: RecordType, entries: seq<(string, Value)>)
    ensures LoadRecord(rec, VDict(entries)).Ok? <==>
      ConvertEntries(rec, entries).Ok?
      && forall i :: 0 <= i < |rec.fields| && IsFieldRequired(rec.fields[i]) ==> rec.fields[i].name in Keys(entries)
    ensures ConvertEntries(rec, entries).Err? ==> LoadRecord(rec, VDict(entries)) == Err(ConvertEntries(rec, entries).error)
    ensures ConvertEntries(rec, entries).Ok? && MissingFrom(rec.fields, Keys(entries)).Some? ==>
      LoadRecord(rec, VDict(entries)).Err? && LoadRecord(rec, VDict(entries)).error.MissingField?
  {
    MissingFromSpec(rec.fields, Keys(entries));
    if ConvertEntries(rec, entries).Ok? {
      var kwargs := ConvertEntries(rec, entries).value;
      ConvertEntriesKeys(rec, entries);
      ConstructSpec(rec.fields, kwargs);
      if MissingFrom(rec.fields, Keys(entries)).None? {
        forall i | 0 <= i < |rec.fields| && rec.fields[i].default.NoDefault?
          ensures rec.fields[i].name in kwargs
        {
          assert rec.fields[i].name == FieldNames(rec.fields)[i];
        }
      }
    }
  }

  /** The key scan over a list or a str fails exactly when some key is
      unhashable or names a field, and then with a TypeError. */
  lemma {:induction false} SequenceKeyErrorIff(fields: seq<FieldDecl>, keys: seq<Value>)
    ensures SequenceKeyError(fields, keys).None? <==>
      forall i :: 0 <= i < |keys| ==> Hashable(keys[i]) && !(keys[i].VStr? && keys[i].s in FieldNames(fields))
    ensures SequenceKeyError(fields, keys).Some? ==> SequenceKeyError(fields, keys).value.TypeError?
  {
    if |keys| > 0 {
      SequenceKeyErrorIff(fields, keys[1..]);
      forall i | 0 < i < |keys| ensures keys[i] == keys[1..][i - 1] { }
    }
  }

  /** Loading from a list or a str succeeds exactly when the key scan
      passes, `name in data` holds for every field without a plain default,
      and every field has some default, since no keyword argument is ever
      collected. */
  lemma LoadSequenceSucceedsIff(rec: RecordType, data: Value)
    requires data.VList? || data.VStr?
    ensures LoadRecord(rec, data).Ok? <==>
      && SequenceKeyError(rec.fields, Iterate(data).value).None?
      && (forall i :: 0 <= i < |rec.fields| && IsFieldRequired(rec.fields[i]) ==> Contains(data, rec.fields[i].name))
      && (forall i :: 0 <= i < |rec.fields| ==> !rec.fields[i].default.NoDefault?)
  {
    var present := PresentNames(rec.fields, data);
    MissingFromSpec(rec.fields, present);
    ConstructSpec(rec.fields, map[]);
    forall i | 0 <= i < |rec.fields| ensures rec.fields[i].name in present <==> Contains(data, rec.fields[i].name) {
      assert rec.fields[i].name == FieldNames(rec.fields)[i];
    }
  }

  /** So a list loads only into a record whose every field has a plain
      default: a required field's name in the list is a key that names a
      field, and its absence is a missing field. */
  lemma LoadListSucceedsIff(rec: RecordType, items: seq<Value>)
    ensures LoadRecord(rec, VList(items)).Ok? <==>
      && (forall k :: 0 <= k < |items| ==> Hashable(items[k]) && !(items[k].VStr? && items[k].s in FieldNames(rec.fields)))
      && (forall i :: 0 <= i < |rec.fields| ==> rec.fields[i].default.DefaultValue?)
  {
    LoadSequenceSucceedsIff(rec, VList(items));
    SequenceKeyErrorIff(rec.fields, items);
    if LoadRecord(rec, VList(items)).Ok? {
      forall i | 0 <= i < |rec.fields| ensures rec.fields[i].default.DefaultValue? {
        assert rec.fields[i].name == FieldNames(rec.fields)[i];
      }
    }
  }

  /** An empty list is data too: it builds a record without fields, and
      lacks any required field. */
  lemma LoadEmptyList(n: string)
    ensures LoadRecord(RecordType(n, [], true), VList([])) == Ok(VObj(n, []))
    ensures LoadRecord(RecordType(n, [FieldDecl("a", Prim(Int), NoDefault)], true), VList([])) == Err(MissingField("a"))
  {
    var one := [FieldDecl("a", Prim(Int), NoDefault)];
    assert MissingFrom(one, PresentNames(one, VList([]))) == Some("a");
  }

  /** A str is scanned character by character, so a one-letter field name
      among its characters fails; a key scan that passes leaves
      `name in data` looking for the name as a substring. */
  lemma LoadStrKeyError(n: string)
    ensures LoadRecord(RecordType(n, [FieldDecl("a", Prim(Int), NoDefault)], true), VStr("ba")).Err?
  {
    var one := [FieldDecl("a", Prim(Int), NoDefault)];
    var keys := Iterate(VStr("ba")).value;
    assert keys[1] == VStr("a") && "a" == FieldNames(one)[0];
    SequenceKeyErrorIff(one, keys);
  }

  /** A field with only a `default_factory` counts as required, yet a str
      holding its name satisfies the check, and the factory supplies it. */
  lemma LoadStrFactory(n: string, v: Value)
    ensures LoadRecord(RecordType(n, [FieldDecl("ab", Prim(Int), DefaultFactory(v))], true), VStr("xab")) ==
      Ok(VObj(n, [("ab", v)]))
  {
    var f := [FieldDecl("ab", Prim(Int), DefaultFactory(v))];
    var chars := Iterate(VStr("xab")).value;
    assert chars == [VStr("x"), VStr("a"), VStr("b")];
    SequenceKeyErrorIff(f, chars);
    assert SequenceKeyError(f, chars) == None;
    assert Occurs("ab", "xab") by {
      assert "xab"[1..] == "ab";
      assert StartsWith("ab", "ab");
    }
    assert PresentNames(f, VStr("xab")) == ["ab"] by {
      assert f[..0] == [];
    }
    assert f[..|f| - 1] == [];
    assert MissingFrom(f, ["ab"]) == None;
    assert Construct(f[..0], map[]) == Ok([]);
    assert Argument(f[0], map[]) == Some(v);
    assert [] + [("ab", v)] == [("ab", v)];
    assert Construct(f, map[]) == Ok([("ab", v)]);
  }

  /** A MissingField error names the first field, in declaration order,
      that has no plain default and is absent from the data. */
  lemma MissingFieldNamesFirstAbsent(rec: RecordType, entries: seq<(string, Value)>)
    requires ConvertEntries(rec, entries).Ok?
    requires exists i :: 0 <= i < |rec.fields| && IsFieldRequired(rec.fields[i]) && rec.fields[i].name !in Keys(entries)
    ensures LoadRecord(rec, VDict(entries)).Err?
    ensures exists i :: (0 <= i < |rec.fields| && IsFieldRequired(rec.fields[i]) && rec.fields[i].name !in Keys(entries)
      && LoadRecord(rec, VDict(entries)).error == MissingField(rec.fields[i].name)
      && forall j :: 0 <= j < i && IsFieldRequired(rec.fields[j]) ==> rec.fields[j].name in Keys(entries))
  {
    MissingFromSpec(rec.fields, Keys(entries));
  }

  /** The data with only the keys that name a field. */
  function Declared(fields: seq<FieldDecl>, entries: seq<(string, Value)>): (r: seq<(string, Value)>)
    ensures forall i :: 0 <= i < |r| ==> r[i] in entries && r[i].0 in FieldNames(fields)
  {
    if |entries| == 0 then []
    else
      var init := Declared(fields, entries[..|entries| - 1]);
      var e := entries[|entries| - 1];
      if e.0 in FieldNames(fields) then init + [e] else init
  }

  lemma {:induction false} DeclaredKeys(fields: seq<FieldDecl>, entries: seq<(string, Value)>)
    ensures forall k :: k in Keys(Declared(fields, entries)) <==> k in Keys(entries) && k in FieldNames(fields)
  {
    if |entries| > 0 {
      var init := entries[..|entries| - 1];
      DeclaredKeys(fields, init);
      assert Keys(entries) == Keys(init) + [entries[|entries| - 1].0];
      var e := entries[|entries| - 1];
      if e.0 in FieldNames(fields) {
        assert Keys(Declared(fields, init) + [e]) == Keys(Declared(fields, init)) + [e.0];
      }
    }
  }

  lemma {:induction false} ConvertEntriesDeclared(rec: RecordType, entries: seq<(string, Value)>)
    ensures ConvertEntries(rec, entries) == ConvertEntries(rec, Declared(rec.fields, entries))
  {
    if |entries| > 0 {
      var init := entries[..|entries| - 1];
      var e := entries[|entries| - 1];
      ConvertEntriesDeclared(rec, init);
      assert init + [e] == entries;
      ConvertEntriesSnoc(rec, init, e);
      if e.0 in FieldNames(rec.fields) {
        ConvertEntriesSnoc(rec, Declared(rec.fields, init), e);
      }
    }
  }

  lemma {:induction false} MissingFromSamePresence(fields: seq<FieldDecl>, p: seq<string>, q: seq<string>)
    requires forall i :: 0 <= i < |fields| ==> (fields[i].name in p <==> fields[i].name in q)
    ensures MissingFrom(fields, p) == MissingFrom(fields, q)
  {
    if |fields| > 0 {
      MissingFromSamePresence(fields[..|fields| - 1], p, q);
    }
  }

  /** Keys of the data that name no field make no difference to the load. */
  lemma LoadIgnoresUndeclared(rec: RecordType, entries: seq<(string, Value)>)
    ensures LoadRecord(rec, VDict(entries)) == LoadRecord(rec, VDict(Declared(rec.fields, entries)))
  {
    ConvertEntriesDeclared(rec, entries);
    DeclaredKeys(rec.fields, entries);
    forall i | 0 <= i < |rec.fields|
      ensures rec.fields[i].name in Keys(entries) <==> rec.fields[i].name in Keys(Declared(rec.fields, entries))
    {
      assert rec.fields[i].name == FieldNames(rec.fields)[i];
    }
    MissingFromSamePresence(rec.fields, Keys(entries), Keys(Declared(rec.fields, entries)));
  }

  predicate DistinctNames(fields: seq<FieldDecl>)
  {
    forall i, j :: 0 <= i < j < |fields| ==> fields[i].name != fields[j].name
  }

  /** Values that a type describes and that `load_from_dict` rebuilds from
      their `asdict` form: a value of a TYPE_MAP type that `asdict` leaves
      alone, an instance of the dataclass, a list of conforming items, or a
      value conforming to a Union's first argument. */
  predicate Conforms(t: PyType, v: Value)
    decreases t, 0
  {
    match t
    case Prim(_) => AsDict(v) == v
    case Record(rec) => ConformsRecord(rec, v)
    case ListOf(item) => v.VList? && forall i :: 0 <= i < |v.items| ==> Conforms(item, v.items[i])
    case UnionOf(args) => |args| > 0 && Conforms(args[0], v)
    case _ => false
  }

  predicate ConformsRecord(rec: RecordType, v: Value)
    decreases rec, 1
  {
    && rec.isContract && v.VObj? && v.cls == rec.name && DistinctNames(rec.fields)
    && |v.attrs| == |rec.fields|
    && forall i :: 0 <= i < |rec.fields| ==> v.attrs[i].0 == rec.fields[i].name && ConformsField(rec, i, v.attrs[i].1)
  }

  predicate ConformsField(rec: RecordType, i: nat, v: Value)
    requires i < |rec.fields|
    decreases rec, 0
  {
    assert rec.fields[i] in rec.fields;
    Conforms(rec.fields[i].typ, v)
  }

  /** `load_from_dict` inverts `asdict` on conforming values. */
  lemma {:induction false} RoundTripValue(t: PyType, v: Value)
    requires Conforms(t, v)
    ensures ConvertValue(t, AsDict(v)) == Ok(v)
    decreases t, 0, 0
  {
    match t
    case Prim(_) =>
    case Record(rec) => RoundTripRecord(rec, v);
    case UnionOf(args) => RoundTripValue(args[0], v);
    case ListOf(item) =>
      var dicts := seq(|v.items|, i requires 0 <= i < |v.items| => AsDict(v.items[i]));
      assert AsDict(v) == VList(dicts);
      RoundTripList(item, v.items);
  }

  lemma {:induction false} RoundTripList(t: PyType, items: seq<Value>)
    requires forall i :: 0 <= i < |items| ==> Conforms(t, items[i])
    ensures ConvertList(t, seq(|items|, i requires 0 <= i < |items| => AsDict(items[i]))) == Ok(items)
    decreases t, 1, |items|
  {
    var dicts := seq(|items|, i requires 0 <= i < |items| => AsDict(items[i]));
    if |items| > 0 {
      var init := items[..|items| - 1];
      assert dicts[..|items| - 1] == seq(|init|, i requires 0 <= i < |init| => AsDict(init[i]));
      RoundTripList(t, init);
      RoundTripValue(t, items[|items| - 1]);
      ConvertListStep(t, dicts, items);
    }
  }

  /** One more converted item extends the converted list. */
  lemma ConvertListStep(t: PyType, values: seq<Value>, converted: seq<Value>)
    requires |values| == |converted| > 0
    requires ConvertList(t, values[..|values| - 1]) == Ok(converted[..|converted| - 1])
    requires ConvertValue(t, values[|values| - 1]) == Ok(converted[|converted| - 1])
    ensures ConvertList(t, values) == Ok(converted)
  {
    assert converted[..|converted| - 1] + [converted[|converted| - 1]] == converted;
  }

  lemma TakeSnoc<T>(s: seq<T>, k: nat)
    requires 0 < k <= |s|
    ensures s[..k] == s[..k - 1] + [s[k - 1]]
  {
  }

  /** `kwargs` holds the first `k` fields of the instance `v`. */
  predicate KwargsHold(rec: RecordType, v: Value, kwargs: map<string, Value>, k: nat)
    requires v.VObj?
  {
    forall j :: 0 <= j < k && j < |rec.fields| && j < |v.attrs| ==>
      rec.fields[j].name in kwargs && kwargs[rec.fields[j].name] == v.attrs[j].1
  }

  lemma KwargsStep(rec: RecordType, v: Value, kwargs: map<string, Value>, k: nat)
    requires ConformsRecord(rec, v) && 0 < k <= |rec.fields|
    requires KwargsHold(rec, v, kwargs, k - 1)
    ensures KwargsHold(rec, v, kwargs[rec.fields[k - 1].name := v.attrs[k - 1].1], k)
  {
  }

  /** The keyword arguments gathered from the first `k` entries of an
      instance's `asdict` form: exactly its first `k` fields. */
  lemma {:induction false} RoundTripEntries(rec: RecordType, v: Value, k: nat)
    requires ConformsRecord(rec, v) && k <= |rec.fields|
    ensures |AsDictEntries(v.attrs)| == |rec.fields|
    ensures ConvertEntries(rec, AsDictEntries(v.attrs)[..k]).Ok?
    ensures KwargsHold(rec, v, ConvertEntries(rec, AsDictEntries(v.attrs)[..k]).value, k)
    decreases rec, 1, k
  {
    AsDictEntriesAt(v.attrs);
    var entries := AsDictEntries(v.attrs);
    if k > 0 {
      RoundTripEntries(rec, v, k - 1);
      var e := entries[k - 1];
      assert e == (v.attrs[k - 1].0, AsDict(v.attrs[k - 1].1));
      TakeSnoc(entries, k);
      ConvertEntriesSnoc(rec, entries[..k - 1], e);
      var f := rec.fields[k - 1];
      assert e.0 == f.name;
      assert e.0 == FieldNames(rec.fields)[k - 1];
      assert FieldIndex(rec.fields, e.0) == Some(k - 1);
      assert f in rec.fields;
      assert ConformsField(rec, k - 1, v.attrs[k - 1].1);
      RoundTripValue(f.typ, v.attrs[k - 1].1);
      KwargsStep(rec, v, ConvertEntries(rec, entries[..k - 1]).value, k);
    }
  }

  /** The three stages of `load_from_dict`, each succeeding, give the
      instance the constructor built. */
  lemma LoadRecordOk(rec: RecordType, entries: seq<(string, Value)>, kwargs: map<string, Value>,
                     attrs: seq<(string, Value)>)
    requires ConvertEntries(rec, entries) == Ok(kwargs)
    requires MissingFrom(rec.fields, Keys(entries)).None?
    requires Construct(rec.fields, kwargs) == Ok(attrs)
    ensures LoadRecord(rec, VDict(entries)) == Ok(VObj(rec.name, attrs))
  {
  }

  /** An instance's `asdict` form names every field. */
  lemma NoneMissing(rec: RecordType, v: Value)
    requires v.VObj? && |v.attrs| == |rec.fields|
    requires forall i :: 0 <= i < |rec.fields| ==> v.attrs[i].0 == rec.fields[i].name
    ensures MissingFrom(rec.fields, Keys(AsDictEntries(v.attrs))).None?
  {
    var present := Keys(AsDictEntries(v.attrs));
    assert present == Keys(v.attrs);
    forall i | 0 <= i < |rec.fields| ensures rec.fields[i].name in present {
      assert present[i] == rec.fields[i].name;
    }
    MissingFromSpec(rec.fields, present);
  }

  /** Keyword arguments holding every field of an instance rebuild exactly
      its attributes. */
  lemma ConstructRebuilds(rec: RecordType, v: Value, kwargs: map<string, Value>)
    requires v.VObj? && |v.attrs| == |rec.fields|
    requires forall i :: 0 <= i < |rec.fields| ==> v.attrs[i].0 == rec.fields[i].name
    requires KwargsHold(rec, v, kwargs, |rec.fields|)
    ensures Construct(rec.fields, kwargs) == Ok(v.attrs)
  {
    ConstructSpec(rec.fields, kwargs);
    forall i | 0 <= i < |rec.fields| && rec.fields[i].default.NoDefault?
      ensures rec.fields[i].name in kwargs
    {
    }
    var attrs := Construct(rec.fields, kwargs).value;
    assert Keys(attrs) == FieldNames(rec.fields);
    assert |attrs| == |Keys(attrs)| == |rec.fields|;
    forall i | 0 <= i < |attrs| ensures attrs[i] == v.attrs[i] {
      assert attrs[i].0 == Keys(attrs)[i] == FieldNames(rec.fields)[i];
      assert attrs[i].1 == kwargs[rec.fields[i].name] == v.attrs[i].1;
    }
    assert attrs == v.attrs;
  }

  lemma {:induction false} RoundTripRecord(rec: RecordType, v: Value)
    requires ConformsRecord(rec, v)
    ensures LoadRecord(rec, AsDict(v)) == Ok(v)
    decreases rec, 2
  {
    var entries := AsDictEntries(v.attrs);
    assert AsDict(v) == VDict(entries);
    RoundTripEntries(rec, v, |rec.fields|);
    assert entries[..|rec.fields|] == entries;
    var kwargs := ConvertEntries(rec, entries).value;
    NoneMissing(rec, v);
    ConstructRebuilds(rec, v, kwargs);
    LoadRecordOk(rec, entries, kwargs, v.attrs);
  }

  /** A nested dataclass that does not derive from `Contract` has no
      `load_from_dict`: converting any value to it fails, while a Contract
      loads the value. */
  lemma PlainDataclassNotLoadable(rec: RecordType, v: Value)
    ensures !rec.isContract ==> ConvertValue(Record(rec), v).Err? && ConvertValue(Record(rec), v).error.AttributeError?
    ensures rec.isContract ==> ConvertValue(Record(rec), v) == LoadRecord(rec, v)
  {
  }

  /** An annotation that is neither a TYPE_MAP type, a dataclass, a Union
      nor a list fails: with the bare Exception when it has an `__origin__`
      (such as `Dict[str, int]`), and with AttributeError from reading
      `__origin__` otherwise (a plain class, an Enum, NoneType, a forward
      reference, the `Undefined` marker). */
  lemma UnhandledAnnotations(t: PyType, v: Value)
    ensures t.Other? && t.hasOrigin ==>
      ConvertValue(t, v).Err? && ConvertValue(t, v).error.ConversionError?
    ensures (t.Other? && !t.hasOrigin) || t.NoneType? || t.EnumType? || t.ForwardRef? || t.Undefined? ==>
      ConvertValue(t, v).Err? && ConvertValue(t, v).error.AttributeError?
  {
  }

  /** `Optional[X]` converts as X: a `None` for an optional dataclass or
      list is rejected, while a `None` for an optional TYPE_MAP type passes
      through. */
  lemma OptionalNone(rec: RecordType, item: PyType, k: PrimKind)
    ensures ConvertValue(Optional(Record(rec)), VNone).Err?
    ensures ConvertValue(Optional(ListOf(item)), VNone).Err?
    ensures ConvertValue(Optional(Prim(k)), VNone) == Ok(VNone)
  {
    assert Optional(Record(rec)).args[0] == Record(rec);
    assert LoadRecord(rec, VNone).Err?;
    assert ConvertValue(Record(rec), VNone).Err?;
    assert Optional(ListOf(item)).args[0] == ListOf(item);
    assert Optional(Prim(k)).args[0] == Prim(k);
  }
}
