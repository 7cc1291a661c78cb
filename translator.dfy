/** The marshmallow-field translator (slotomania/translator.py): renders
    fields through a per-language table, and generates TypeScript interfaces,
    Python slot classes and modules, and TypeScript command stubs from a
    schema's field map. The code formatter is a parameter. */
module Translator {
  import opened Errors
  import opened Text
  import opened Sorting

  datatype Language = Python | TypeScript

  /** A field (or schema) object as the translator reads it: its class name
      and the attributes `required`, `container` and `nested`, each of
      which may be absent. */
  datatype FieldObj = FieldObj(className: string, required: Option<bool>,
                               container: Option<FieldObj>, nested: Option<FieldObj>)

  /** A schema's `fields`: name to field, names distinct. */
  type FieldMap = seq<(string, FieldObj)>

  /** A table entry: a fixed spelling, or the rule for `List` or `Nested`. */
  datatype Entry = Spelled(text: string) | ListRule | NestedRule

  /** The field classes the table knows, by class name. */
  datatype Kind = KDateTime | KString | KBoolean | KInteger | KDecimal | KFloat | KDict | KList | KNested | KOther

  function KindOf(className: string): Kind
  {
    if className == "DateTime" then KDateTime
    else if className == "String" then KString
    else if className == "Boolean" then KBoolean
    else if className == "Integer" then KInteger
    else if className == "Decimal" then KDecimal
    else if className == "Float" then KFloat
    else if className == "Dict" then KDict
    else if className == "List" then KList
    else if className == "Nested" then KNested
    else KOther
  }

  /** `FIELD_MAPPING[language].get(class_name)`; TypeScript has no DateTime
      entry, and spells Float, like Decimal, as `string`. */
  function FieldMapping(lang: Language, kind: Kind): Option<Entry>
  {
    match kind
    case KDateTime => if lang.Python? then Some(Spelled("datetime.datetime")) else None
    case KString => Some(Spelled(if lang.Python? then "str" else "string"))
    case KBoolean => Some(Spelled(if lang.Python? then "bool" else "boolean"))
    case KInteger => Some(Spelled(if lang.Python? then "int" else "number"))
    case KDecimal => Some(Spelled(if lang.Python? then "decimal.Decimal" else "string"))
    case KFloat => Some(Spelled(if lang.Python? then "float" else "string"))
    case KDict => Some(Spelled(if lang.Python? then "dict" else "{}"))
    case KList => Some(ListRule)
    case KNested => Some(NestedRule)
    case KOther => None
  }

  /** `_get_field_type`: a spelled entry as it is, `List` and `Nested` by
      recursion into `container` and `nested` (an AttributeError when the
      attribute is missing), and any other class by its own name. */
  function FieldType(f: FieldObj, lang: Language): Result<string>
  {
    match FieldMapping(lang, KindOf(f.className))
    case Some(Spelled(text)) => Ok(text)
    case Some(ListRule) =>
      if f.container.None? then Err(AttributeError("container"))
      else
        var item :- FieldType(f.container.value, lang);
        Ok(if lang.Python? then "typing.List[" + item + "]" else "Array<" + item + ">")
    case Some(NestedRule) =>
      if f.nested.None? then Err(AttributeError("nested")) else FieldType(f.nested.value, lang)
    case None => Ok(f.className)
  }

  /** `getattr(field, 'required', True)`. */
  predicate Required(f: FieldObj)
  {
    f.required.None? || f.required.value
  }

  function ByName(e: (string, FieldObj)): SortKey
  {
    SortKey(0, e.0)
  }

  /** The key `(not required, name)`. */
  function RequiredFirst(e: (string, FieldObj)): SortKey
  {
    SortKey(if Required(e.1) then 0 else 1, e.0)
  }

  /** One `name[?]: type` line of an interface or a command context. */
  function MemberLine(e: (string, FieldObj)): Result<string>
  {
    var t :- FieldType(e.1, TypeScript);
    Ok(e.0 + (if Required(e.1) then "" else "?") + ": " + t)
  }

  /** The member lines, sorted by field name. */
  function TsMembers(fields: FieldMap): Result<seq<string>>
  {
    MapAll(MemberLine, SortBy(fields, ByName))
  }

  function InterfaceHead(name: string): string
  {
    "export interface " + name + " {"
  }

  /** `translate_to_typescript_interface`. */
  function TranslateToTypescriptInterface(name: string, fields: FieldMap): Result<string>
  {
    var lines :- TsMembers(fields);
    Ok(InterfaceHead(name) + "\n" + Join("\n", lines) + "\n" + "}")
  }

  /** One constructor parameter: `name: type`, with ` = None` when the field
      is not required. */
  function PythonParam(e: (string, FieldObj)): Result<string>
  {
    var t :- FieldType(e.1, Python);
    Ok(e.0 + ": " + t + (if Required(e.1) then "" else " = None"))
  }

  function Assignment(e: (string, FieldObj)): string
  {
    "self." + e.0 + " = " + e.0
  }

  function Quoted(name: string): string
  {
    "'" + name + "'"
  }

  function QuotedSortKey(s: string): SortKey
  {
    SortKey(0, s)
  }

  /** The `__slots__` entries: every name quoted, then sorted. */
  function SlotNames(fields: FieldMap): seq<string>
  {
    SortBy(seq(|fields|, i requires 0 <= i < |fields| => Quoted(fields[i].0)), QuotedSortKey)
  }

  /** The class source `translate_to_python_slot` hands to the formatter. */
  function PythonSlotSource(className: string, fields: FieldMap): Result<string>
  {
    var ordered := SortBy(fields, RequiredFirst);
    var params :- MapAll(PythonParam, ordered);
    var assignments := seq(|ordered|, i requires 0 <= i < |ordered| => Assignment(ordered[i]));
    Ok("\nclass " + className + ":\n    __slots__ = [" + Join(", ", SlotNames(fields)) + "]\n"
       + "    def __init__(\n        self,\n        " + Join(",\n        ", params) + "\n"
       + "        ) -> None:\n        " + Join("\n        ", assignments) + "\n    ")
  }

  /** `translate_to_python_slot`, with the formatter as a parameter. */
  function TranslateToPythonSlot(format: string -> string, className: string, fields: FieldMap): Result<string>
  {
    var code :- PythonSlotSource(className, fields);
    Ok(format(code))
  }

  /** The class header: `Name(base)` when a base class is given. */
  function ClassHeader(className: string, baseClass: string): string
  {
    if baseClass == "" then className else className + "(" + baseClass + ")"
  }

  /** The modules imported: always typing, decimal and datetime, and the
      module part of a dotted base class. */
  function Modules(baseClass: string): seq<string>
  {
    var parts := Split('.', baseClass);
    ["typing", "decimal", "datetime"] + (if |parts| > 1 then [Join(".", parts[..|parts| - 1])] else [])
  }

  function TranslateSchema(format: string -> string, baseClass: string, schema: (string, FieldMap)): Result<string>
  {
    TranslateToPythonSlot(format, ClassHeader(schema.0, baseClass), schema.1)
  }

  /** `translate_to_python_module`: each class formatted on its own, then the
      import lines and the classes formatted together. */
  function TranslateToPythonModule(format: string -> string, schemas: seq<(string, FieldMap)>,
                                   baseClass: string): Result<string>
  {
    var classes :- MapAll((schema: (string, FieldMap)) => TranslateSchema(format, baseClass, schema), schemas);
    var imports := Join("\nimport ", [""] + Modules(baseClass));
    Ok(format(imports + "\n" + Join("\n", classes)))
  }

  /** `fields_to_ts_redux_action`: a command stub whose function name is also
      the quoted endpoint passed to `sendCommand`. */
  function FieldsToTsReduxAction(functionName: string, fields: FieldMap, callback: string,
                                 preAction: string): Result<string>
  {
    var lines :- TsMembers(fields);
    Ok(CommandStub(functionName, Join("\n", lines), callback, preAction))
  }

  function CommandStub(functionName: string, annotations: string, callback: string, preAction: string): string
  {
    CommandHead(functionName, annotations, preAction) + "\"" + functionName + "\""
    + ", command_context, " + callback + ")\n            )\n        }\n    }"
  }

  function CommandHead(functionName: string, annotations: string, preAction: string): string
  {
    CommandOpen(functionName) + CommandBody(annotations, preAction)
  }

  function CommandOpen(functionName: string): string
  {
    "\n    export function " + functionName + "("
  }

  function CommandBody(annotations: string, preAction: string): string
  {
    "command_context: { " + annotations + " } ): any {\n"
    + "        return (dispatch) => {" + preAction + "\n            return dispatch(\n"
    + "                sendCommand("
  }

  // ---------------------------------------------------------------------
  // Properties.

  predicate DistinctNames(fields: FieldMap)
  {
    forall i, j :: 0 <= i < j < |fields| ==> fields[i].0 != fields[j].0
  }

  /** No spelling in the table holds a line break or a double quote. */
  lemma TableIsPlain(lang: Language, kind: Kind)
    ensures FieldMapping(lang, kind).Some? && FieldMapping(lang, kind).value.Spelled? ==>
            var text := FieldMapping(lang, kind).value.text;
            '\n' !in text && '"' !in text
  {
    var text := if FieldMapping(lang, kind).Some? && FieldMapping(lang, kind).value.Spelled?
                then FieldMapping(lang, kind).value.text else "";
    forall i | 0 <= i < |text| ensures text[i] != '\n' && text[i] != '"' {
      assert '.' <= text[i];
    }
  }

  /** The characters of a rendering: those of the class names and the
      table's spellings and brackets. */
  lemma {:induction false} FieldTypeChars(f: FieldObj, lang: Language, c: char)
    requires c == '\n' || c == '"'
    requires FieldType(f, lang).Ok?
    requires PlainIn(c, f)
    ensures c !in FieldType(f, lang).value
  {
    TableIsPlain(lang, KindOf(f.className));
    match FieldMapping(lang, KindOf(f.className))
    case Some(Spelled(text)) =>
    case Some(ListRule) =>
      var item := FieldType(f.container.value, lang).value;
      FieldTypeChars(f.container.value, lang, c);
      if lang.Python? {
        assert c !in "typing.List[" && c !in "]";
        assert FieldType(f, lang).value == "typing.List[" + item + "]";
      } else {
        assert c !in "Array<" && c !in ">";
        assert FieldType(f, lang).value == "Array<" + item + ">";
      }
    case Some(NestedRule) =>
      FieldTypeChars(f.nested.value, lang, c);
    case None =>
  }

  /** `c` occurs in no class name, all the way down. */
  predicate PlainIn(c: char, f: FieldObj)
  {
    c !in f.className
    && (f.container.Some? ==> PlainIn(c, f.container.value))
    && (f.nested.Some? ==> PlainIn(c, f.nested.value))
  }

  /** Rendering fails only on a missing `container` or `nested`; a class the
      table lacks renders as its own name. */
  lemma {:induction false} FieldTypeSpec(f: FieldObj, lang: Language)
    ensures FieldMapping(lang, KindOf(f.className)).None? ==> FieldType(f, lang) == Ok(f.className)
    ensures FieldType(f, lang).Err? <==> MissingAttribute(f, lang)
    ensures FieldType(f, lang).Err? ==> FieldType(f, lang).error.AttributeError?
  {
    match FieldMapping(lang, KindOf(f.className))
    case Some(Spelled(text)) =>
    case Some(ListRule) =>
      if f.container.Some? {
        FieldTypeSpec(f.container.value, lang);
      }
    case Some(NestedRule) =>
      if f.nested.Some? {
        FieldTypeSpec(f.nested.value, lang);
      }
    case None =>
  }

  /** A `List` without `container` or a `Nested` without `nested`, at any
      depth the rendering reaches. */
  predicate MissingAttribute(f: FieldObj, lang: Language)
  {
    match FieldMapping(lang, KindOf(f.className))
    case Some(ListRule) => f.container.None? || MissingAttribute(f.container.value, lang)
    case Some(NestedRule) => f.nested.None? || MissingAttribute(f.nested.value, lang)
    case _ => false
  }

  /** The two languages' spellings of the same field: Float is `float` and
      `string`; DateTime is `datetime.datetime` and, having no TypeScript
      entry, `DateTime`. */
  lemma Spellings()
    ensures FieldType(FieldObj("Float", None, None, None), Python) == Ok("float")
    ensures FieldType(FieldObj("Float", None, None, None), TypeScript) == Ok("string")
    ensures FieldType(FieldObj("DateTime", None, None, None), Python) == Ok("datetime.datetime")
    ensures FieldType(FieldObj("DateTime", None, None, None), TypeScript) == Ok("DateTime")
  {
  }

  /** A list renders as `typing.List[item]` and `Array<item>`. */
  lemma ListSpellings(item: FieldObj, lang: Language)
    requires FieldType(item, lang).Ok?
    ensures FieldType(FieldObj("List", None, Some(item), None), lang) ==
            Ok(if lang.Python? then "typing.List[" + FieldType(item, lang).value + "]"
               else "Array<" + FieldType(item, lang).value + ">")
  {
  }

  /** A member line carries `?` right after the name exactly when the field
      is not required. */
  lemma MemberOptionalIff(e: (string, FieldObj))
    requires MemberLine(e).Ok?
    ensures StartsWith(MemberLine(e).value, e.0 + "?") <==> !Required(e.1)
    ensures StartsWith(MemberLine(e).value, e.0)
  {
    var line := MemberLine(e).value;
    if Required(e.1) {
      assert line[|e.0|] == ':';
    } else {
      assert line[..|e.0| + 1] == e.0 + "?";
    }
    assert line[..|e.0|] == e.0;
  }

  /** The members come sorted by name, one per field. */
  lemma TsMembersOrder(fields: FieldMap)
    requires DistinctNames(fields)
    ensures TsMembers(fields).Ok? <==> forall i :: 0 <= i < |fields| ==> MemberLine(fields[i]).Ok?
    ensures TsMembers(fields).Ok? ==>
            var sorted := SortBy(fields, ByName);
            |TsMembers(fields).value| == |fields|
            && multiset(sorted) == multiset(fields)
            && (forall i :: 0 <= i < |sorted| ==> MemberLine(sorted[i]) == Ok(TsMembers(fields).value[i]))
            && (forall i, j :: 0 <= i < j < |sorted| ==> LexLe(sorted[i].0, sorted[j].0))
  {
    MapAllPermuted(MemberLine, fields, SortBy(fields, ByName));
  }

  /** A character absent from the field names and class names is absent
      from every member line. */
  lemma TsMembersChars(fields: FieldMap, c: char)
    requires c == '\n' || c == '"'
    requires forall i :: 0 <= i < |fields| ==> c !in fields[i].0 && PlainIn(c, fields[i].1)
    requires TsMembers(fields).Ok?
    ensures forall i :: 0 <= i < |TsMembers(fields).value| ==> c !in TsMembers(fields).value[i]
  {
    var sorted := SortBy(fields, ByName);
    var lines := TsMembers(fields).value;
    MapAllLength(MemberLine, sorted);
    forall i | 0 <= i < |lines| ensures c !in lines[i] {
      MapAllOkAt(MemberLine, sorted, i);
      assert sorted[i] in multiset(sorted);
      assert sorted[i] in fields;
      MemberLineChars(sorted[i], c);
    }
  }

  lemma MemberLineChars(e: (string, FieldObj), c: char)
    requires c == '\n' || c == '"'
    requires c !in e.0 && PlainIn(c, e.1)
    requires MemberLine(e).Ok?
    ensures c !in MemberLine(e).value
  {
    FieldTypeChars(e.1, TypeScript, c);
    var t := FieldType(e.1, TypeScript).value;
    assert MemberLine(e).value == e.0 + (if Required(e.1) then "" else "?") + ": " + t;
  }

  /** An interface reads back as its header line, one member line per field
      in name order (one empty line when there are none), and `}`. */
  lemma InterfaceLines(name: string, fields: FieldMap)
    requires '\n' !in name
    requires forall i :: 0 <= i < |fields| ==> '\n' !in fields[i].0 && PlainIn('\n', fields[i].1)
    requires TranslateToTypescriptInterface(name, fields).Ok?
    ensures Split('\n', TranslateToTypescriptInterface(name, fields).value) ==
            [InterfaceHead(name)] + (if |fields| == 0 then [""] else TsMembers(fields).value) + ["}"]
  {
    var lines := TsMembers(fields).value;
    TsMembersChars(fields, '\n');
    assert '\n' !in InterfaceHead(name);
    BlockLines(InterfaceHead(name), lines, "}");
  }

  /** Constructor parameters: required fields first, each group by name;
      `__slots__`: every quoted name, sorted, whatever `required` says. */
  lemma PythonSlotOrder(fields: FieldMap)
    ensures var ordered := SortBy(fields, RequiredFirst);
            multiset(ordered) == multiset(fields)
            && (forall i, j :: 0 <= i < j < |ordered| && Required(ordered[j].1) ==> Required(ordered[i].1))
            && (forall i, j :: 0 <= i < j < |ordered| && Required(ordered[i].1) == Required(ordered[j].1) ==>
                  LexLe(ordered[i].0, ordered[j].0))
    ensures var names := SlotNames(fields);
            |names| == |fields|
            && (forall i, j :: 0 <= i < j < |names| ==> LexLe(names[i], names[j]))
            && (forall i :: 0 <= i < |fields| ==> Quoted(fields[i].0) in names)
  {
    var ordered := SortBy(fields, RequiredFirst);
    forall i, j | 0 <= i < j < |ordered| && Required(ordered[j].1)
      ensures Required(ordered[i].1)
    {
      assert KeyLe(RequiredFirst(ordered[i]), RequiredFirst(ordered[j]));
    }
    var quoted := seq(|fields|, i requires 0 <= i < |fields| => Quoted(fields[i].0));
    forall i | 0 <= i < |fields| ensures Quoted(fields[i].0) in SlotNames(fields) {
      assert quoted[i] in multiset(quoted);
    }
  }

  /** The constructor parameters, required fields first: the i-th is the
      field's name and Python type, followed by ` = None` exactly when the
      field is not required; the class source exists exactly when every
      field's type renders. */
  lemma PythonParams(className: string, fields: FieldMap)
    ensures var ordered := SortBy(fields, RequiredFirst);
            var params := MapAll(PythonParam, ordered);
            (params.Ok? <==> forall i :: 0 <= i < |ordered| ==> FieldType(ordered[i].1, Python).Ok?)
            && (PythonSlotSource(className, fields).Ok? <==> params.Ok?)
            && (params.Ok? ==> |params.value| == |ordered| && forall i :: 0 <= i < |ordered| ==>
                  params.value[i] == ordered[i].0 + ": " + FieldType(ordered[i].1, Python).value
                                     + (if Required(ordered[i].1) then "" else " = None"))
  {
    var ordered := SortBy(fields, RequiredFirst);
    MapAllSpec(PythonParam, ordered);
    forall i | 0 <= i < |ordered| ensures PythonParam(ordered[i]).Ok? <==> FieldType(ordered[i].1, Python).Ok? { }
  }

  /** A dotted base class adds its module part as a fourth import: the
      base class up to, and not including, its last `.`. */
  lemma ModulesSpec(baseClass: string)
    ensures Modules(baseClass)[..3] == ["typing", "decimal", "datetime"]
    ensures |Modules(baseClass)| == 4 <==> '.' in baseClass
    ensures |Modules(baseClass)| == 3 || |Modules(baseClass)| == 4
    ensures '.' in baseClass ==>
      var m := Modules(baseClass)[3];
      |m| < |baseClass| && baseClass[..|m|] == m && baseClass[|m|] == '.' && '.' !in baseClass[|m| + 1..]
  {
    if '.' in baseClass {
      SplitFound('.', baseClass);
      ModulePart(baseClass);
    } else {
      SplitNone('.', baseClass);
    }
  }

  /** The text before the last piece of a dotted name, its last `.`, and
      that piece. */
  lemma ModulePart(baseClass: string)
    requires |Split('.', baseClass)| > 1
    ensures var parts := Split('.', baseClass);
      var m := Join(".", parts[..|parts| - 1]);
      baseClass == m + "." + parts[|parts| - 1] && '.' !in parts[|parts| - 1]
  {
    var parts := Split('.', baseClass);
    JoinSplit('.', baseClass);
    SplitFree('.', baseClass);
    assert parts == parts[..|parts| - 1] + [parts[|parts| - 1]];
    JoinAppend(".", parts[..|parts| - 1], [parts[|parts| - 1]]);
  }

  /** For example, a base class in module `a.b` is imported as `a.b`. */
  lemma ModulesExample()
    ensures Modules("a.b.C") == ["typing", "decimal", "datetime", "a.b"]
  {
    var parts := ["a", "b", "C"];
    assert Join(".", parts[2..]) == "C";
    assert Join(".", parts[1..]) == "b.C";
    assert Join(".", parts) == "a.b.C";
    SplitJoin('.', parts);
    assert parts[..2] == ["a", "b"];
    assert Join(".", ["a", "b"][1..]) == "b";
    assert Join(".", ["a", "b"]) == "a.b";
  }

  lemma {:induction false} SplitFound(c: char, s: string)
    requires c in s
    ensures |Split(c, s)| > 1
  {
    if s[0] != c {
      SplitFound(c, s[1..]);
    }
  }

  /** The import lines of a module whose base class has no module part. */
  lemma ModuleImports(baseClass: string)
    requires '.' !in baseClass
    ensures Join("\nimport ", [""] + Modules(baseClass)) == "\nimport typing\nimport decimal\nimport datetime"
  {
    SplitNone('.', baseClass);
    assert [""] + Modules(baseClass) == ["", "typing", "decimal", "datetime"];
    FixedImports();
  }

  lemma FixedImports()
    ensures Join("\nimport ", ["", "typing", "decimal", "datetime"]) == "\nimport typing\nimport decimal\nimport datetime"
  {
    var parts: seq<string> := ["", "typing", "decimal", "datetime"];
    assert parts[1..][1..][1..] == ["datetime"];
    assert Join("\nimport ", parts[1..][1..]) == "decimal" + "\nimport " + "datetime";
    assert Join("\nimport ", parts[1..]) == "typing" + "\nimport " + ("decimal" + "\nimport " + "datetime");
  }

  /** A stub's function name is its identifier and, between the first pair of
      double quotes, its endpoint. */
  lemma ReduxActionNames(functionName: string, fields: FieldMap, callback: string, preAction: string)
    requires '"' !in functionName && '"' !in preAction
    requires forall i :: 0 <= i < |fields| ==> '"' !in fields[i].0 && PlainIn('"', fields[i].1)
    requires FieldsToTsReduxAction(functionName, fields, callback, preAction).Ok?
    ensures var text := FieldsToTsReduxAction(functionName, fields, callback, preAction).value;
            StartsWith(text, CommandOpen(functionName))
            && |Split('"', text)| >= 2 && Split('"', text)[1] == functionName
  {
    var lines := TsMembers(fields).value;
    TsMembersChars(fields, '"');
    JoinExcludes('"', "\n", lines);
    CommandStubNames(functionName, Join("\n", lines), callback, preAction);
  }

  lemma CommandStubNames(functionName: string, annotations: string, callback: string, preAction: string)
    requires '"' !in functionName && '"' !in annotations && '"' !in preAction
    ensures var text := CommandStub(functionName, annotations, callback, preAction);
            StartsWith(text, CommandOpen(functionName))
            && |Split('"', text)| >= 2 && Split('"', text)[1] == functionName
  {
    var head := CommandHead(functionName, annotations, preAction);
    var post := ", command_context, " + callback + ")\n            )\n        }\n    }";
    CommandHeadUnquoted(functionName, annotations, preAction);
    CommandStubQuotes(functionName, annotations, callback, preAction);
    SplitQuoted('"', head, functionName, post);
    CommandHeadPrefix(functionName, annotations, preAction, "\"" + functionName + "\"" + post);
  }

  lemma CommandHeadUnquoted(functionName: string, annotations: string, preAction: string)
    requires '"' !in functionName && '"' !in annotations && '"' !in preAction
    ensures '"' !in CommandHead(functionName, annotations, preAction)
  {
  }

  lemma CommandStubQuotes(functionName: string, annotations: string, callback: string, preAction: string)
    ensures CommandStub(functionName, annotations, callback, preAction)
      == CommandHead(functionName, annotations, preAction) + ['"'] + functionName + ['"']
         + (", command_context, " + callback + ")\n            )\n        }\n    }")
  {
  }

  lemma CommandHeadPrefix(functionName: string, annotations: string, preAction: string, rest: string)
    ensures StartsWith(CommandHead(functionName, annotations, preAction) + rest, CommandOpen(functionName))
  {
    var open := CommandOpen(functionName);
    var text := CommandHead(functionName, annotations, preAction) + rest;
    assert text == open + (CommandBody(annotations, preAction) + rest);
    assert text[..|open|] == open;
  }
}
