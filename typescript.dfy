/** TypeScript generation from dataclasses: slotomania/core.py and its near
    copy slotomania/contractor.py. Both copies render types, fields and
    interfaces identically; they differ only in the helper module the
    generated action creators call, which `Copy` selects. */
module TypeScript {
  import opened Errors
  import opened Text
  import opened Dataclasses

  datatype Copy = CoreCopy | ContractorCopy

  /** The module generated action creators call: `plugins` in core.py,
      `instructor` in contractor.py. */
  function PluginModule(copy: Copy): string
  {
    match copy
    case CoreCopy => "plugins"
    case ContractorCopy => "instructor"
  }

  function ImportLine(copy: Copy): string
  {
    "import * as " + PluginModule(copy) + " from \"./" + PluginModule(copy) + "\""
  }

  /** TYPE_MAP. */
  function TypeMapSpelling(k: PrimKind): string
  {
    match k
    case Str => "string"
    case Bool => "boolean"
    case Int => "number"
    case Decimal => "string"
    case Float => "number"
    case DateTime => "string"
    case Dict => "{}"
    case AnyType => "any"
    case BareList => "Array<any>"
  }

  /** `python_type_to_typescript`: TYPE_MAP first, then the marker class,
      dataclasses, NoneType, lists, unions, forward references and Enums;
      anything else raises UnknowFieldType. */
  function RenderType(t: PyType): Result<string>
    decreases t
  {
    match t
    case Prim(k) => Ok(TypeMapSpelling(k))
    case Undefined => Ok("undefined")
    case Record(rec) => Ok(rec.name)
    case NoneType => Ok("null")
    case ListOf(item) =>
      var s :- RenderType(item);
      Ok("Array<" + s + ">")
    case UnionOf(args) =>
      var parts :- RenderAll(args);
      Ok(Join("|", parts))
    case ForwardRef(arg) => Ok(arg)
    case EnumType(name) => Ok(name)
    case Other(repr, _) => Err(UnknowFieldType("Unknow type " + repr))
  }

  /** The union's arguments rendered in declared order; the first failure
      wins, as `"|".join(<generator>)` raises it. */
  function RenderAll(args: seq<PyType>): (r: Result<seq<string>>)
    ensures r.Ok? ==> |r.value| == |args|
    ensures r.Ok? ==> forall i :: 0 <= i < |args| ==> RenderType(args[i]) == Ok(r.value[i])
    decreases args
  {
    if |args| == 0 then Ok([])
    else
      var first :- RenderType(args[0]);
      var rest :- RenderAll(args[1..]);
      Ok([first] + rest)
  }

  /** The independent account of when rendering fails: an unknown type is
      reachable through lists and unions (a dataclass renders by name, so
      its own fields do not matter). */
  predicate ContainsUnknown(t: PyType)
    decreases t
  {
    match t
    case Other(_, _) => true
    case ListOf(item) => ContainsUnknown(item)
    case UnionOf(args) => exists i :: 0 <= i < |args| && ContainsUnknown(args[i])
    case _ => false
  }

  lemma {:induction false} RenderFailsIff(t: PyType)
    ensures RenderType(t).Err? <==> ContainsUnknown(t)
    ensures RenderType(t).Err? ==> RenderType(t).error.UnknowFieldType?
    decreases t
  {
    match t
    case ListOf(item) => RenderFailsIff(item);
    case UnionOf(args) => RenderAllFailsIff(args);
    case _ =>
  }

  lemma {:induction false} RenderAllFailsIff(args: seq<PyType>)
    ensures RenderAll(args).Err? <==> exists i :: 0 <= i < |args| && ContainsUnknown(args[i])
    ensures RenderAll(args).Err? ==> RenderAll(args).error.UnknowFieldType?
    decreases args
  {
    if |args| > 0 {
      RenderFailsIff(args[0]);
      RenderAllFailsIff(args[1..]);
      if exists i :: 0 <= i < |args| && ContainsUnknown(args[i]) {
        var i :| 0 <= i < |args| && ContainsUnknown(args[i]);
        if i > 0 { assert ContainsUnknown(args[1..][i - 1]); }
      }
      if exists i :: 0 <= i < |args[1..]| && ContainsUnknown(args[1..][i]) {
        var i :| 0 <= i < |args[1..]| && ContainsUnknown(args[1..][i]);
        assert ContainsUnknown(args[i + 1]);
      }
    }
  }

  /** `Optional[T]` renders as T's spelling followed by `|null`, unless T
      already admits None, and fails exactly when T does. (A union of no
      types, which typing refuses to build, gains `null` alone.) */
  lemma RenderOptional(t: PyType)
    ensures RenderType(Optional(t)).Ok? <==> RenderType(t).Ok?
    ensures RenderType(t).Ok? ==>
              RenderType(Optional(t)).value ==
                if AdmitsNone(t) then RenderType(t).value
                else if t == UnionOf([]) then "null"
                else RenderType(t).value + "|null"
  {
    assert [NoneType][1..] == [];
    assert RenderAll([NoneType]).Ok? && RenderAll([NoneType]).value == ["null"];
    if t.UnionOf? {
      if NoneType !in t.args {
        RenderAllNoneAppended(t.args);
        if RenderAll(t.args).Ok? && |t.args| > 0 {
          JoinAppend("|", RenderAll(t.args).value, ["null"]);
        }
      }
    } else if !t.NoneType? {
      var args := [t, NoneType];
      assert args[1..] == [NoneType];
      if RenderType(t).Ok? {
        var s := RenderType(t).value;
        assert RenderAll(args).value == [s, "null"];
        assert Join("|", [s, "null"]) == s + "|" + "null";
      }
    }
  }

  /** Appending NoneType to a union's arguments appends `null` to their
      spellings; a failure among the arguments is unchanged. */
  lemma {:induction false} RenderAllNoneAppended(a: seq<PyType>)
    ensures RenderAll(a + [NoneType]) ==
              if RenderAll(a).Ok? then Ok(RenderAll(a).value + ["null"]) else RenderAll(a)
    decreases |a|
  {
    var an := a + [NoneType];
    if |a| == 0 {
      assert an == [NoneType];
      assert an[1..] == [];
      assert RenderAll(a) == Ok([]);
      assert RenderAll(an[1..]) == Ok([]);
      assert RenderType(an[0]) == Ok("null");
      assert ["null"] + [] == ["null"];
      assert RenderAll(an) == Ok(["null"]);
      assert [] + ["null"] == ["null"];
    } else {
      assert an[0] == a[0];
      assert an[1..] == a[1..] + [NoneType];
      RenderAllNoneAppended(a[1..]);
      var head := RenderType(a[0]);
      if head.Ok? && RenderAll(a[1..]).Ok? {
        var x, y := [head.value], RenderAll(a[1..]).value;
        assert x + (y + ["null"]) == (x + y) + ["null"];
      }
    }
  }

  /** `field_to_typescript`: an UnknowFieldType is re-raised with the field's
      name in front of its message. */
  function FieldToTypescript(f: FieldDecl): Result<string>
  {
    match RenderType(f.typ)
    case Ok(s) => Ok(s)
    case Err(e) =>
      if e.UnknowFieldType? then Err(UnknowFieldType(f.name + ": " + e.message))
      else Err(e)
  }

  /** A field renders as its type does, fails exactly when its type holds an
      unknown type, and then names the field at the head of the message. */
  lemma FieldToTypescriptSpec(f: FieldDecl)
    ensures FieldToTypescript(f).Ok? <==> !ContainsUnknown(f.typ)
    ensures FieldToTypescript(f).Ok? ==> RenderType(f.typ) == FieldToTypescript(f)
    ensures FieldToTypescript(f).Err? ==> FieldToTypescript(f).error.UnknowFieldType?
    ensures FieldToTypescript(f).Err? ==> StartsWith(FieldToTypescript(f).error.message, f.name + ": ")
  {
    RenderFailsIff(f.typ);
    if RenderType(f.typ).Err? {
      var m := f.name + ": " + RenderType(f.typ).error.message;
      assert m[..|f.name + ": "|] == f.name + ": ";
    }
  }

  /** One interface member: `  name: T`, or `  name?: T` when the field has a
      default. */
  function MemberLine(f: FieldDecl, t: string): string
  {
    if IsFieldRequired(f) then "  " + f.name + ": " + t else "  " + f.name + "?: " + t
  }

  function MemberLineOf(f: FieldDecl): Result<string>
  {
    var t :- FieldToTypescript(f);
    Ok(MemberLine(f, t))
  }

  function InterfaceHeader(name: string): string
  {
    "export interface " + name + " {"
  }

  /** `Contract.to_typescript_interface`: one member line per field, in
      declaration order, inside an `export interface` block. */
  function ToTypescriptInterface(r: RecordType): Result<string>
  {
    var lines :- MapAll(MemberLineOf, r.fields);
    Ok(InterfaceHeader(r.name) + "\n" + Join("\n", lines) + "\n" + "}")
  }

  /** Every name that ends up in generated text is free of line breaks. */
  predicate PlainType(t: PyType)
    decreases t
  {
    match t
    case Record(rec) => '\n' !in rec.name
    case EnumType(name) => '\n' !in name
    case ForwardRef(arg) => '\n' !in arg
    case ListOf(item) => PlainType(item)
    case UnionOf(args) => forall i :: 0 <= i < |args| ==> PlainType(args[i])
    case _ => true
  }

  predicate PlainRecord(r: RecordType)
  {
    && '\n' !in r.name
    && forall i :: 0 <= i < |r.fields| ==> '\n' !in r.fields[i].name && PlainType(r.fields[i].typ)
  }

  lemma {:induction false} RenderPlain(t: PyType)
    requires PlainType(t) && RenderType(t).Ok?
    ensures '\n' !in RenderType(t).value
    decreases t
  {
    match t
    case ListOf(item) => RenderPlain(item);
    case UnionOf(args) =>
      var parts := RenderAll(args).value;
      forall i | 0 <= i < |parts| ensures '\n' !in parts[i] {
        RenderPlain(args[i]);
      }
      JoinExcludes('\n', "|", parts);
    case _ =>
  }

  /** Rendering an interface fails exactly when some field's type has no
      TypeScript spelling. */
  lemma InterfaceFailsIff(r: RecordType)
    ensures ToTypescriptInterface(r).Ok? <==> forall i :: 0 <= i < |r.fields| ==> !ContainsUnknown(r.fields[i].typ)
  {
    MapAllSpec(MemberLineOf, r.fields);
    forall i | 0 <= i < |r.fields|
      ensures MemberLineOf(r.fields[i]).Ok? <==> !ContainsUnknown(r.fields[i].typ)
    {
      FieldToTypescriptSpec(r.fields[i]);
    }
  }

  /** The interface text read back line by line: the header, then exactly one
      line per field in declaration order (`?` exactly for fields with a
      default), then the closing brace. */
  lemma InterfaceLayout(r: RecordType)
    requires PlainRecord(r)
    requires forall i :: 0 <= i < |r.fields| ==> FieldToTypescript(r.fields[i]).Ok?
    ensures ToTypescriptInterface(r).Ok?
    ensures Split('\n', ToTypescriptInterface(r).value) ==
        [InterfaceHeader(r.name)]
        + (if |r.fields| == 0 then [""]
           else seq(|r.fields|, i requires 0 <= i < |r.fields| =>
                  MemberLine(r.fields[i], FieldToTypescript(r.fields[i]).value)))
        + ["}"]
  {
    InterfaceFailsIff(r);
    MemberLinesPlain(r);
    var lines := MapAll(MemberLineOf, r.fields).value;
    BlockLines(InterfaceHeader(r.name), lines, "}");
  }

  /** The member lines of a plain record: one per field, none holding a
      line break. */
  lemma MemberLinesPlain(r: RecordType)
    requires PlainRecord(r)
    requires forall i :: 0 <= i < |r.fields| ==> FieldToTypescript(r.fields[i]).Ok?
    ensures MapAll(MemberLineOf, r.fields).Ok?
    ensures MapAll(MemberLineOf, r.fields).value ==
      seq(|r.fields|, i requires 0 <= i < |r.fields| => MemberLine(r.fields[i], FieldToTypescript(r.fields[i]).value))
    ensures forall i :: 0 <= i < |r.fields| ==> '\n' !in MapAll(MemberLineOf, r.fields).value[i]
  {
    MapAllSpec(MemberLineOf, r.fields);
    var lines := MapAll(MemberLineOf, r.fields).value;
    forall i | 0 <= i < |lines| ensures '\n' !in lines[i] {
      FieldToTypescriptSpec(r.fields[i]);
      RenderPlain(r.fields[i].typ);
    }
  }

  /** `ReduxAction(name, contract, pre_action="", callback="")`. */
  datatype ReduxAction = ReduxAction(name: string, contract: RecordType, preAction: string, callback: string)

  function NewReduxAction(name: string, contract: RecordType): ReduxAction
  {
    ReduxAction(name, contract, "", "")
  }

  /** The shape both stub generators share: an exported function taking
      `requestBody`, whose body dispatches `<helper>.callEndpoint("<name>",
      requestBody, <tail>`. */
  function Stub(name: string, contractName: string, body: string, helper: string, tail: string): string
  {
    "export function " + name + "(requestBody: " + contractName + "): any {\n"
    + body + helper + ".callEndpoint(" + "\"" + name + "\"" + ", requestBody, " + tail
  }

  /** `ReduxAction.to_typescript_function`. */
  function ActionFunction(copy: Copy, a: ReduxAction): string
  {
    Stub(a.name, a.contract.name,
      "        return (dispatch) => {" + a.preAction + "\n"
      + "            return dispatch(\n"
      + "                ",
      PluginModule(copy),
      a.callback + ")\n"
      + "            )\n"
      + "        }\n"
      + "    }")
  }

  /** `contract_to_redux_action_creator`: the same stub with four-space
      indentation, for a function name given separately. */
  function ActionCreator(copy: Copy, contract: RecordType, functionName: string, callback: string, preAction: string): string
  {
    Stub(functionName, contract.name,
      "    return (dispatch) => {" + preAction + "\n"
      + "        return dispatch(\n"
      + "            ",
      PluginModule(copy),
      callback + ")\n"
      + "        )\n"
      + "    }\n"
      + "}")
  }

  /** A stub cut just before the `(` of its parameter list. */
  lemma StubAtParen(name: string, contractName: string, body: string, helper: string, tail: string)
    ensures Stub(name, contractName, body, helper, tail) == ("export function " + name)
      + ("(requestBody: " + contractName + "): any {\n"
         + body + helper + ".callEndpoint(" + "\"" + name + "\"" + ", requestBody, " + tail)
  {
  }

  /** A stub cut just before the `)` closing its parameter list. */
  lemma StubAtClose(name: string, contractName: string, body: string, helper: string, tail: string)
    ensures Stub(name, contractName, body, helper, tail) == ("export function " + name + "(requestBody: " + contractName)
      + ("): any {\n" + body + helper + ".callEndpoint(" + "\"" + name + "\"" + ", requestBody, " + tail)
  {
  }

  /** The text before the first `(` of a stub is its function's name. */
  lemma StubName(name: string, contractName: string, body: string, helper: string, tail: string)
    requires '(' !in name
    ensures Split('(', Stub(name, contractName, body, helper, tail))[0] == "export function " + name
  {
    StubAtParen(name, contractName, body, helper, tail);
    var rest := "(requestBody: " + contractName + "): any {\n"
      + body + helper + ".callEndpoint(" + "\"" + name + "\"" + ", requestBody, " + tail;
    assert rest[0] == '(';
    SplitHead('(', "export function " + name, rest);
  }

  /** The text before the first `)` of a stub ends with the type of
      `requestBody`. */
  lemma StubContract(name: string, contractName: string, body: string, helper: string, tail: string)
    requires ')' !in name && ')' !in contractName
    ensures Split(')', Stub(name, contractName, body, helper, tail))[0] == "export function " + name + "(requestBody: " + contractName
  {
    StubAtClose(name, contractName, body, helper, tail);
    var rest := "): any {\n" + body + helper + ".callEndpoint(" + "\"" + name + "\"" + ", requestBody, " + tail;
    assert rest[0] == ')';
    SplitHead(')', "export function " + name + "(requestBody: " + contractName, rest);
  }

  /** The first quoted string of a stub is the endpoint it calls. */
  lemma StubEndpoint(name: string, contractName: string, body: string, helper: string, tail: string)
    requires '"' !in name && '"' !in contractName && '"' !in body && '"' !in helper
    ensures |Split('"', Stub(name, contractName, body, helper, tail))| >= 2
      && Split('"', Stub(name, contractName, body, helper, tail))[1] == name
  {
    var pre := "export function " + name + "(requestBody: " + contractName + "): any {\n" + body + helper + ".callEndpoint(";
    var stub := Stub(name, contractName, body, helper, tail);
    assert stub == pre + "\"" + name + "\"" + (", requestBody, " + tail);
    SplitQuoted('"', pre, name, ", requestBody, " + tail);
  }

  /** Read back from a generated stub: the function's name (the text before
      the first `(`), the type of its parameter (up to the first `)`) and the
      endpoint (the first quoted string). */
  lemma StubReadBack(name: string, contractName: string, body: string, helper: string, tail: string)
    requires '(' !in name && ')' !in name && ')' !in contractName
    requires '"' !in name && '"' !in contractName && '"' !in body && '"' !in helper
    ensures Split('(', Stub(name, contractName, body, helper, tail))[0] == "export function " + name
    ensures Split(')', Stub(name, contractName, body, helper, tail))[0] == "export function " + name + "(requestBody: " + contractName
    ensures |Split('"', Stub(name, contractName, body, helper, tail))| >= 2
      && Split('"', Stub(name, contractName, body, helper, tail))[1] == name
  {
    StubName(name, contractName, body, helper, tail);
    StubContract(name, contractName, body, helper, tail);
    StubEndpoint(name, contractName, body, helper, tail);
  }

  /** The action's name is the stub's function name and its endpoint, and the
      contract's class name is the type of `requestBody`. */
  lemma ActionFunctionNames(copy: Copy, a: ReduxAction)
    requires '(' !in a.name && ')' !in a.name && ')' !in a.contract.name
    requires '"' !in a.name && '"' !in a.contract.name && '"' !in a.preAction
    ensures Split('(', ActionFunction(copy, a))[0] == "export function " + a.name
    ensures Split(')', ActionFunction(copy, a))[0] == "export function " + a.name + "(requestBody: " + a.contract.name
    ensures |Split('"', ActionFunction(copy, a))| >= 2 && Split('"', ActionFunction(copy, a))[1] == a.name
  {
    StubReadBack(a.name, a.contract.name,
      "        return (dispatch) => {" + a.preAction + "\n" + "            return dispatch(\n" + "                ",
      PluginModule(copy),
      a.callback + ")\n" + "            )\n" + "        }\n" + "    }");
  }

  lemma ActionCreatorNames(copy: Copy, contract: RecordType, functionName: string, callback: string, preAction: string)
    requires '(' !in functionName && ')' !in functionName && ')' !in contract.name
    requires '"' !in functionName && '"' !in contract.name && '"' !in preAction
    ensures Split('(', ActionCreator(copy, contract, functionName, callback, preAction))[0] == "export function " + functionName
    ensures Split(')', ActionCreator(copy, contract, functionName, callback, preAction))[0]
      == "export function " + functionName + "(requestBody: " + contract.name
    ensures |Split('"', ActionCreator(copy, contract, functionName, callback, preAction))| >= 2
      && Split('"', ActionCreator(copy, contract, functionName, callback, preAction))[1] == functionName
  {
    StubReadBack(functionName, contract.name,
      "    return (dispatch) => {" + preAction + "\n" + "        return dispatch(\n" + "            ",
      PluginModule(copy),
      callback + ")\n" + "        )\n" + "    }\n" + "}");
  }

  function ActionNames(actions: seq<ReduxAction>): (r: seq<string>)
    ensures |r| == |actions| && forall i :: 0 <= i < |actions| ==> r[i] == actions[i].name
  {
    seq(|actions|, i requires 0 <= i < |actions| => actions[i].name)
  }

  function ActionFunctions(copy: Copy, actions: seq<ReduxAction>): (r: seq<string>)
    ensures |r| == |actions| && forall i :: 0 <= i < |actions| ==> r[i] == ActionFunction(copy, actions[i])
  {
    seq(|actions|, i requires 0 <= i < |actions| => ActionFunction(copy, actions[i]))
  }

  function ActionCreatorsLine(actions: seq<ReduxAction>): string
  {
    "export const SLOTO_ACTION_CREATORS = { " + Join(",\n", ActionNames(actions)) + " }"
  }

  /** SLOTO_ACTION_CREATORS read back at its commas: one piece per action,
      in order, each holding the action's name, after the opening text for
      the first and after a line break for the others, the last closing the
      brace. */
  lemma ActionCreatorsReadBack(actions: seq<ReduxAction>)
    requires |actions| > 0
    requires forall i :: 0 <= i < |actions| ==> ',' !in actions[i].name
    ensures |Split(',', ActionCreatorsLine(actions))| == |actions|
    ensures forall i :: 0 <= i < |actions| ==>
              Split(',', ActionCreatorsLine(actions))[i] ==
                (if i == 0 then "export const SLOTO_ACTION_CREATORS = { " else "\n") + actions[i].name
                + (if i == |actions| - 1 then " }" else "")
  {
    var names := ActionNames(actions);
    var head := "export const SLOTO_ACTION_CREATORS = { ";
    var pieces := seq(|names|, i requires 0 <= i < |names| =>
      (if i == 0 then head else "\n") + names[i] + (if i == |names| - 1 then " }" else ""));
    assert ",\n" == [','] + "\n";
    JoinPieces(',', "\n", head, names, " }");
    forall i | 0 <= i < |pieces| ensures ',' !in pieces[i] {
      var before: string := if i == 0 then head else "\n";
      var after: string := if i == |names| - 1 then " }" else "";
      assert pieces[i] == before + names[i] + after;
      assert names[i] == actions[i].name;
      assert ',' !in before && ',' !in after;
    }
    SplitJoin(',', pieces);
  }

  /** The blocks `contracts_to_typescript` collects: the optional import
      line, one interface per dataclass in order, and, only when there are
      actions, the stubs and the SLOTO_ACTION_CREATORS literal. */
  function TypescriptBlocks(copy: Copy, classes: seq<RecordType>, actions: seq<ReduxAction>, importPlugins: bool): Result<seq<string>>
  {
    var interfaces :- MapAll(ToTypescriptInterface, classes);
    Ok((if importPlugins then [ImportLine(copy)] else []) + interfaces + ActionBlocks(copy, actions))
  }

  /** The stubs joined by blank lines, then SLOTO_ACTION_CREATORS; nothing
      when there are no actions. */
  function ActionBlocks(copy: Copy, actions: seq<ReduxAction>): seq<string>
  {
    if |actions| > 0 then [Join("\n\n", ActionFunctions(copy, actions)), ActionCreatorsLine(actions)] else []
  }

  function TypescriptModule(copy: Copy, classes: seq<RecordType>, actions: seq<ReduxAction>, importPlugins: bool): Result<string>
  {
    var blocks :- TypescriptBlocks(copy, classes, actions, importPlugins);
    Ok(Join("\n\n", blocks))
  }

  /** `contracts_to_typescript`, building its list of blocks in a loop. */
  method ContractsToTypescript(copy: Copy, classes: seq<RecordType>, actions: seq<ReduxAction>, importPlugins: bool)
    returns (r: Result<string>)
    ensures r == TypescriptModule(copy, classes, actions, importPlugins)
  {
    var prefix: seq<string> := if importPlugins then [ImportLine(copy)] else [];
    var blocks :- AppendRendered(ToTypescriptInterface, classes, prefix);
    ModuleOfBlocks(copy, classes, actions, importPlugins);
    blocks := blocks + ActionBlocks(copy, actions);
    r := Ok(Join("\n\n", blocks));
  }

  /** The `for` loop appending each rendered contract to `blocks`; the first
      contract that cannot be rendered raises. */
  method AppendRendered<A>(render: A -> Result<string>, items: seq<A>, blocks: seq<string>)
    returns (r: Result<seq<string>>)
    ensures MapAll(render, items).Err? ==> r == Err(MapAll(render, items).error)
    ensures MapAll(render, items).Ok? ==> r == Ok(blocks + MapAll(render, items).value)
  {
    var acc := blocks;
    var i := 0;
    while i < |items|
      invariant 0 <= i <= |items|
      invariant MapAll(render, items[..i]).Ok?
      invariant acc == blocks + MapAll(render, items[..i]).value
    {
      var block := render(items[i]);
      MapAllSnoc(render, items[..i], items[i]);
      assert items[..i] + [items[i]] == items[..i + 1];
      if block.Err? {
        MapAllPrefixErr(render, items, i + 1);
        return Err(block.error);
      }
      acc := acc + [block.value];
      i := i + 1;
    }
    assert items[..i] == items;
    return Ok(acc);
  }

  /** Once every interface renders, the module is the blocks joined. */
  lemma ModuleOfBlocks(copy: Copy, classes: seq<RecordType>, actions: seq<ReduxAction>, importPlugins: bool)
    requires MapAll(ToTypescriptInterface, classes).Ok?
    ensures TypescriptModule(copy, classes, actions, importPlugins) ==
            Ok(Join("\n\n", (if importPlugins then [ImportLine(copy)] else [])
                             + MapAll(ToTypescriptInterface, classes).value + ActionBlocks(copy, actions)))
  {
  }

  /** Every interface begins with `export`. */
  lemma InterfaceIsExported(r: RecordType)
    requires ToTypescriptInterface(r).Ok?
    ensures |ToTypescriptInterface(r).value| > 0 && ToTypescriptInterface(r).value[0] == 'e'
  {
  }

  /** The stubs' block begins with `export`. */
  lemma ActionBlocksAreExported(copy: Copy, actions: seq<ReduxAction>)
    requires |actions| > 0
    ensures |ActionBlocks(copy, actions)| > 0
    ensures |ActionBlocks(copy, actions)[0]| > 0 && ActionBlocks(copy, actions)[0][0] == 'e'
  {
    var fns := ActionFunctions(copy, actions);
    JoinStartsWith("\n\n", fns);
    assert fns[0] == ActionFunction(copy, actions[0]);
  }

  lemma ImportLinePresent(copy: Copy, classes: seq<RecordType>, actions: seq<ReduxAction>)
    requires TypescriptModule(copy, classes, actions, true).Ok?
    ensures StartsWith(TypescriptModule(copy, classes, actions, true).value, ImportLine(copy))
  {
    var blocks := TypescriptBlocks(copy, classes, actions, true).value;
    assert blocks[0] == ImportLine(copy);
    JoinStartsWith("\n\n", blocks);
  }

  lemma ImportLineHead(copy: Copy)
    ensures |ImportLine(copy)| > 0 && ImportLine(copy)[0] == 'i'
  {
  }

  /** The first interface of a rendering that succeeded begins with
      `export`. */
  lemma FirstInterfaceExported(classes: seq<RecordType>)
    requires MapAll(ToTypescriptInterface, classes).Ok? && |classes| > 0
    ensures |MapAll(ToTypescriptInterface, classes).value| > 0
    ensures var first := MapAll(ToTypescriptInterface, classes).value[0]; |first| > 0 && first[0] == 'e'
  {
    MapAllOkAt(ToTypescriptInterface, classes, 0);
    InterfaceIsExported(classes[0]);
  }

  /** Without the import line, the first block is an interface or the stubs. */
  lemma FirstBlockIsExported(copy: Copy, classes: seq<RecordType>, actions: seq<ReduxAction>)
    requires TypescriptBlocks(copy, classes, actions, false).Ok?
    ensures var blocks := TypescriptBlocks(copy, classes, actions, false).value;
      |blocks| > 0 ==> |blocks[0]| > 0 && blocks[0][0] == 'e'
  {
    var blocks := TypescriptBlocks(copy, classes, actions, false).value;
    var interfaces := MapAll(ToTypescriptInterface, classes).value;
    var stubs := ActionBlocks(copy, actions);
    assert blocks == interfaces + stubs;
    if |classes| > 0 {
      FirstInterfaceExported(classes);
      assert blocks[0] == interfaces[0];
    } else if |actions| > 0 {
      ActionBlocksAreExported(copy, actions);
      assert |interfaces| == 0;
      assert blocks[0] == stubs[0];
    }
  }

  lemma ImportLineAbsent(copy: Copy, classes: seq<RecordType>, actions: seq<ReduxAction>)
    requires TypescriptModule(copy, classes, actions, false).Ok?
    ensures !StartsWith(TypescriptModule(copy, classes, actions, false).value, ImportLine(copy))
  {
    var blocks := TypescriptBlocks(copy, classes, actions, false).value;
    ImportLineHead(copy);
    if |blocks| > 0 {
      FirstBlockIsExported(copy, classes, actions);
      JoinStartsWith("\n\n", blocks);
    }
  }

  /** The output begins with the import line exactly when `import_plugins`
      is set: every other block begins with `export`. */
  lemma ImportLineIff(copy: Copy, classes: seq<RecordType>, actions: seq<ReduxAction>, importPlugins: bool)
    requires TypescriptModule(copy, classes, actions, importPlugins).Ok?
    ensures StartsWith(TypescriptModule(copy, classes, actions, importPlugins).value, ImportLine(copy)) <==> importPlugins
  {
    if importPlugins {
      ImportLinePresent(copy, classes, actions);
    } else {
      ImportLineAbsent(copy, classes, actions);
    }
  }
}
