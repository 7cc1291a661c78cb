# slotomania, modelled in Dafny

slotomania turns declared data shapes into generated source text and moves
values between typed objects and JSON-like data. This project models its
deterministic core and proves properties of the model:

- **TypeScript generation from dataclasses** (`slotomania/core.py` and its near
  copy `slotomania/contractor.py`, module `TypeScript`). It covers the
  `TYPE_MAP` lookup, `python_type_to_typescript`, `field_to_typescript`,
  `Contract.to_typescript_interface`, the redux action stubs and
  `contracts_to_typescript`. The two copies differ only in the helper module
  the stubs call (`plugins` / `instructor`), which the `Copy` parameter selects.
- **The marshaller** (`Contract.load_from_dict` with its nested
  `convert_value`, module `Marshal`). Python's reflection (`__annotations__`,
  `__origin__`, `is_dataclass`) is an explicit type descriptor (module
  `Dataclasses`). Runtime values are a value datatype (module `PyValues`).
- **Server-side instructions** (`Operation` factories, `InstructionEncoder.default`,
  `Instruction.serialize`; `core.py` and `slotomania/instructor.py`, module
  `Instructor`).
- **The client reducer** of `slotomania/instructor/instructor.ts`
  (`applyOperation` with its inner `merge`, `createReducer`, the
  `UpdateServerStateAction` handler; module `Reducer`). JSON is modelled as a
  JavaScript value datatype.
- **The marshmallow-field translator** (`slotomania/translator.py`, module
  `Translator`). It renders fields per language, generates Python slot
  classes and modules, and generates TypeScript interfaces and command stubs.
- **The schema adapter** (`slotomania/contrib/marshmallow_converter.py`,
  module `MarshmallowConverter`). Marshmallow fields are a tagged datatype.
- **The command registry** (`slotomania/__init__.py`, module `Commands`). The
  registry is a class whose three dictionaries are updated in place. The
  module also covers the automatic registration of `Command` subclasses and a
  command's authenticate / validate / resolve dispatch.
- **The slot serialisers** `_sloto_to_dict` (`slotomania/contracts.py`,
  `slotomania/datatypes.py`) and `to_dict` (`slotomania/slots.py`), with the
  slot classes' constructors (module `Slots`).

Support modules:
- `Errors`: the exceptions raised, and `Result`/`Option`.
- `Text`: `str.join` and `str.split` with one separator.
- `Sorting`: Python's stable `sorted` with a key.

Loops the source runs are methods proved equal to a specification function:
- `SchemaToContract`, `SchemasToSlots`, `LoadFromDict` (with its two loops
  `ConvertLoop`, `SequenceKeyLoop` and `MissingLoop`), `ContractsToTypescript` (with its loop
  `AppendRendered`), `ToDict`.

The Python registry dictionaries are fields of a class that the
`register_*` methods update.

Behaviour worth noting:
- Fields are not re-sorted by a `Contract`. `core.py` and `contractor.py` emit
  interface members in declaration order. `translator.py` sorts members by
  name, sorts constructor parameters required-first and lists `__slots__`
  alphabetically.
- In `translator.py` a class missing from the table renders as its own class
  name, with no error. The TypeScript `Float` spelling is `string`.
  `DateTime` has no TypeScript entry, so it renders as `DateTime`.
- The schema adapter raises `KeyError`, not an unknown-type error, for an
  unsupported field.
- `load_from_dict` always checks required fields, after converting the
  present keys.
- `load_from_dict` never checks that its data is a dict. A list is scanned
  item by item and a str character by character, and `name in data` then
  tests list membership or a substring.
- The reducer's `find` reads each target item's `id` before the old item's,
  so an empty target never reads an old item's `id`.
- There is no name-casing check and no re-raise around the formatter.

## Model

| member | source | states |
|---|---|---|
| TypeScript.RenderFailsIff | slotomania/core.py:242-269 | rendering a type fails, always with UnknowFieldType, exactly when an unrecognised type is reachable through lists and unions (TYPE_MAP, the marker class, dataclasses, NoneType, forward references and Enums all render) |
| TypeScript.RenderAll | slotomania/core.py:259-261 | a union's variants are rendered in declared order, one spelling per variant, each the rendering of that variant |
| TypeScript.RenderAllFailsIff | slotomania/core.py:259-261 | the union rendering fails exactly when some variant holds an unrecognised type |
| Dataclasses.OptionalAdmitsNone | slotomania/core.py:258-260 | `typing.Optional` always yields a type admitting None, leaves a type that already admits None unchanged, and is idempotent (`Optional[Optional[X]]` is `Optional[X]`) |
| TypeScript.RenderOptional | slotomania/core.py:252-261 | `Optional[T]` renders as T's spelling followed by `\|null` unless T already admits None (then as T), and fails exactly when T does |
| TypeScript.FieldToTypescriptSpec | slotomania/core.py:272-276 | a field renders as its type; it fails exactly when the type holds an unknown type, and the message then starts with `<field name>: ` |
| TypeScript.InterfaceFailsIff | slotomania/core.py:78-89 | an interface can be generated exactly when every field's type renders |
| TypeScript.InterfaceLayout | slotomania/core.py:78-89 | the interface text, split into lines, is the `export interface Name {` header, one `  name: T` / `  name?: T` line per field in declaration order (`?` exactly for a field with a plain default; a `default_factory` alone leaves it required), then `}`; the same for the copy at slotomania/contractor.py:88-99 |
| TypeScript.ActionFunctionNames | slotomania/core.py:286-293 | in a generated action stub, the text before the first `(` is `export function <name>`, the parameter type is the contract's class name and the first quoted string (the endpoint) is the action's name; the same for the copy at slotomania/contractor.py:144-151, which calls `instructor.callEndpoint` |
| TypeScript.ActionCreatorNames | slotomania/core.py:296-309 | the same three read-backs for `contract_to_redux_action_creator` with its separate function name |
| TypeScript.ActionCreatorsReadBack | slotomania/core.py:335-338 | SLOTO_ACTION_CREATORS cut at its commas gives one piece per action, in order, each holding that action's name (after the opening text, or after a line break), the last closing the brace; names must be free of commas |
| TypeScript.AppendRendered | slotomania/core.py:325-327 | the loop appending one rendered interface per dataclass yields the blocks so far followed by every rendering, in order, or the first failure |
| TypeScript.ContractsToTypescript | slotomania/core.py:312-340 | the loop collecting blocks computes the module: optional import line, one interface per dataclass in order, then the stubs and SLOTO_ACTION_CREATORS only when there are actions, joined by blank lines; the first failing interface is the result |
| TypeScript.ImportLineIff | slotomania/core.py:325 | the output begins with its import line (`import * as plugins from "./plugins"`, or `import * as instructor from "./instructor"` for the copy at slotomania/contractor.py:183-184) exactly when `import_plugins` is set |
| Marshal.FieldIndex | slotomania/core.py:116-117 | a data key is found among the declared fields exactly when it names one, at the first field of that name |
| Marshal.Iterate | slotomania/core.py:109 | `for item in value` yields a list's items, and fails exactly on values that are not iterable |
| Marshal.ConvertEntriesKeys | slotomania/core.py:115-118 | the keyword arguments are exactly the data keys that name a declared field |
| Marshal.MissingFromSpec | slotomania/core.py:120-122 | no field is reported missing exactly when every required field is present; otherwise the first required absent field, in declaration order, is reported |
| Marshal.ConstructSpec | slotomania/core.py:124 | `cls(**kwargs)` succeeds exactly when every field without any default has an argument; the instance has every field, in order, holding its argument |
| Marshal.ConvertLoop | slotomania/core.py:115-118 | the loop over the data's keys computes the specified keyword arguments, stopping at the first conversion that raises |
| Marshal.MissingLoop | slotomania/core.py:120-122 | the loop over the fields finds the specified first missing required field |
| Marshal.Argument | slotomania/core.py:124 | a field receives no value exactly when it has neither a keyword argument nor any default; a keyword argument wins |
| Marshal.LoadFromDict | slotomania/core.py:91-124 | the two loops of `load_from_dict` compute the specified load, for a dict and for any other data; slotomania/contractor.py:101-134 is the same code |
| Marshal.SequenceKeyLoop | slotomania/core.py:115-118 | the first loop over a list's items or a str's characters finds the specified first failure |
| Marshal.PresentNames | slotomania/core.py:121 | the names `name in data` finds are exactly the field names the data contains: a dict key, a list item, a substring of a str |
| Marshal.SequenceKeyErrorIff | slotomania/core.py:115-118 | over a list or a str the first loop fails exactly when some key is unhashable or names a field (the sequence is then indexed by a str), always with a TypeError |
| Marshal.LoadSequenceSucceedsIff | slotomania/core.py:115-124 | a load from a list or a str succeeds exactly when that loop passes, every required field's name is in the data, and every field has some default |
| Marshal.LoadListSucceedsIff | slotomania/core.py:115-124 | a load from a list succeeds exactly when every item is hashable and names no field, and every field has a plain default |
| Marshal.LoadEmptyList | slotomania/core.py:115-124 | an empty list loads a record without fields, and a record with a required field fails with MissingField |
| Marshal.LoadStrKeyError | slotomania/core.py:115-118 | a str is iterated by character: a one-letter field name among its characters fails |
| Marshal.LoadStrFactory | slotomania/core.py:120-124 | a field with only a `default_factory` passes the missing-field check when its name occurs in a str, and the factory supplies it |
| Marshal.PlainDataclassNotLoadable | slotomania/core.py:100-101 | a nested dataclass that is not a `Contract` has no `load_from_dict`, so converting to it fails with AttributeError; a Contract loads the value |
| Marshal.LoadRecordShape | slotomania/core.py:124 | a successful load yields an instance of the class with exactly the declared fields, in order |
| Marshal.LoadRecordSucceedsIff | slotomania/core.py:115-124 | a load from a dict succeeds exactly when every declared key converts and every required field is present; conversion errors surface before MissingField |
| Marshal.MissingFieldNamesFirstAbsent | slotomania/core.py:120-122 | when a required field is absent and the conversions succeed, the error is MissingField for the first absent required field |
| Marshal.LoadIgnoresUndeclared | slotomania/core.py:115-116 | keys that name no field make no difference to the result |
| Marshal.RoundTripValue | slotomania/core.py:97-113 | `convert_value(t, asdict(v)) == v` for every value conforming to t (primitives, records, lists, first union variant) |
| Marshal.RoundTripList | slotomania/core.py:106-109 | element-wise conversion inverts `asdict` on a list of conforming items |
| Marshal.RoundTripRecord | slotomania/tests/test_contract.py:51 | `load_from_dict(asdict(x)) == x` for every instance conforming to its dataclass |
| Marshal.UnhandledAnnotations | slotomania/core.py:102-113 | an annotation that is not a TYPE_MAP type, dataclass, Union or list fails: with the bare Exception when it has an `__origin__`, with AttributeError from reading `__origin__` otherwise |
| Marshal.OptionalNone | slotomania/core.py:102-105 | only the first union variant is tried: a `None` for `Optional[Record]` or `Optional[List]` fails, one for `Optional[primitive]` passes through |
| Instructor.FactoriesSpec | slotomania/core.py:133-156 | MERGE_APPEND and MERGE_PREPEND succeed exactly on a list target (an AssertionError otherwise); every factory sets its own verb and passes both arguments through unchanged; the same for the copy at slotomania/instructor.py:70-93 |
| Instructor.EncodeDefault | slotomania/core.py:159-170 | a value the encoder cannot write natively is encoded through `default`: Enum to its name, dataclass to its dict, datetime to isoformat, Decimal to str, otherwise the encoder's error |
| Instructor.EncodeAsDict | slotomania/core.py:163-164 | encoding a value's `asdict` gives the same JSON as encoding the value |
| Instructor.EncodeFailsIff | slotomania/instructor.py:96-107 | serialisation fails, with TypeError, exactly when an object with no JSON form occurs inside the value |
| Instructor.EncodeListItems | slotomania/instructor.py:96-107 | an encoded list holds its items' encodings in order, and fails exactly when one item fails |
| Instructor.EncodeEntriesKeys | slotomania/instructor.py:96-107 | an encoded dict keeps its keys in order, each with its value's encoding |
| Instructor.SerializeDefaults | slotomania/instructor.py:110-117 | a new instruction serialises to an object of `operations`, `errors: null`, `redirect: ""` |
| Instructor.SerializeOverwriteExample | slotomania/tests/test_instructor.py:7-32 | the OVERWRITE of one AuthenticateUserRequest serialises to the expected nested plain dict |
| Reducer.PropId | slotomania/instructor/instructor.ts:96 | reading `.id` throws exactly on null and undefined |
| Reducer.UnclaimedMembers | slotomania/instructor/instructor.ts:98-103 | the reference definition of the retained items: an item is kept exactly when no target item carries an id `===` to its id |
| Reducer.WithoutMembers | slotomania/instructor/instructor.ts:112-114 | the reference definition of DELETE: an item is kept exactly when its id is not `===` to the target's |
| Reducer.FindSpec | slotomania/instructor/instructor.ts:100 | over objects, `find` does not throw and its result is truthy exactly when some target item claims the old item's id |
| Reducer.RetainedSpec | slotomania/instructor/instructor.ts:99-101 | over objects, the filter in `merge` keeps exactly the unclaimed old items, in order |
| Reducer.MergeSpec | slotomania/instructor/instructor.ts:93-104 | MERGE of object lists yields the retained old items followed by the whole target; a falsy old value counts as empty; no other entity type changes |
| Reducer.MergeMembers | slotomania/instructor/instructor.ts:98-103 | the merged list holds every target item and exactly the old items no target item claims; no retained item shares an id with a target item |
| Reducer.MergeIntoMissing | slotomania/instructor/instructor.ts:94 | MERGE into an absent entity type yields the target list itself |
| Reducer.RetainedNoTarget | slotomania/instructor/instructor.ts:99-101 | against an empty target no old item's id is read, so every old item is kept, null and undefined ones too |
| Reducer.MergeNullIntoEmpty | slotomania/instructor/instructor.ts:93-104 | merging a list holding null with an empty list keeps the null |
| Reducer.MergeFalsyMatchKeeps | slotomania/instructor/instructor.ts:100 | `!find(...)` tests the found item: a falsy target item matching an old item's missing id keeps that old item |
| Reducer.RejectedFailsIff | slotomania/instructor/instructor.ts:110-116 | `u.reject` throws exactly when it reads `.id` of null or undefined, on an item or on the target |
| Reducer.RejectedSpec | slotomania/instructor/instructor.ts:112-114 | when it does not throw, `u.reject` keeps exactly the items whose id is not the target's, in order |
| Reducer.DeleteSpec | slotomania/instructor/instructor.ts:109-116 | DELETE succeeds exactly when the value is a list and no id read throws; it removes the matching items and changes nothing else |
| Reducer.OverwriteSpec | slotomania/instructor/instructor.ts:105-106 | OVERWRITE never throws and puts the target value at the entity type |
| Reducer.OtherVerbsThrow | slotomania/instructor/instructor.ts:117-119 | the operation throws `{operation}` exactly when the verb is not OVERWRITE, MERGE or DELETE (ADD included) |
| Reducer.ApplyOperationFrame | slotomania/instructor/instructor.ts:91-120 | an operation adds or changes its own entity type only |
| Reducer.EntityTypesMembers | slotomania/instructor/instructor.ts:130 | the entity types of a batch are exactly those its operations name |
| Reducer.ApplyAllFrame | slotomania/instructor/instructor.ts:125-133 | after the fold the keys are the old ones plus the named entity types, and every entity type no operation names keeps its value |
| Reducer.ApplyAllAppend | slotomania/instructor/instructor.ts:131 | folding two batches is folding the first, then the second |
| Reducer.ApplyAllThrows | slotomania/instructor/instructor.ts:131 | one operation with an unhandled verb makes the whole update throw |
| Reducer.CreateReducerSpec | slotomania/instructor/instructor.ts:81-89 | an undefined state is the initial state; an action with an own handler is given to that handler with the state; any other action returns the state unchanged |
| Reducer.ServerStateReducerSpec | slotomania/instructor/instructor.ts:122-135 | the server-state reducer starts from `{}`, folds the operations of an UpdateServerStateAction and returns the state for any other action |
| Translator.FieldTypeSpec | slotomania/translator.py:122-130 | a class missing from the table renders as its class name; rendering fails, with AttributeError, exactly when a List lacks `container` or a Nested lacks `nested` at some depth |
| Translator.Spellings | slotomania/translator.py:11-35 | Float is `float` in Python and `string` in TypeScript; DateTime is `datetime.datetime` in Python and `DateTime` (no entry) in TypeScript |
| Translator.ListSpellings | slotomania/translator.py:21-32 | a List renders as `typing.List[item]` in Python and `Array<item>` in TypeScript |
| Translator.TableIsPlain | slotomania/translator.py:11-35 | no table spelling contains a line break or a double quote |
| Translator.FieldTypeChars | slotomania/translator.py:122-130 | a rendering holds a line break or quote only if some class name inside the field does |
| Translator.MemberOptionalIff | slotomania/translator.py:53-54 | a member line starts with its name, followed by `?` exactly when `required` is false (a missing `required` counts as true) |
| Translator.TsMembersOrder | slotomania/translator.py:49-57 | interface members come one per field, sorted by field name; generation fails exactly when some field fails |
| Translator.InterfaceLines | slotomania/translator.py:49-58 | the interface, split into lines, is the header, the sorted member lines and `}` |
| Sorting.SortBy | slotomania/translator.py:77 | `sorted` with a key: the result is ordered by the key and is a permutation of the input |
| Translator.PythonSlotOrder | slotomania/translator.py:76-86 | constructor parameters and assignments are all the fields with the required ones first, each group by name; `__slots__` lists every quoted name in alphabetical order |
| Translator.ModulesSpec | slotomania/translator.py:67-70 | the imports are typing, decimal, datetime, plus a fourth exactly when the base class is dotted: the base class up to, not including, its last `.` |
| Translator.ModulesExample | slotomania/translator.py:67-70 | a base class `a.b.C` adds the import `a.b` |
| Translator.PythonParams | slotomania/translator.py:76-84 | the i-th constructor parameter, required fields first, is the field's name and Python type followed by ` = None` exactly when the field is not required; the class source exists exactly when every field's type renders |
| Translator.ModuleImports | slotomania/translator.py:72 | without a dotted base class the import text is the three fixed `import` lines |
| Translator.ReduxActionNames | slotomania/translator.py:99-115 | in a command stub the function name is the identifier after `export function` and the first quoted string (the `sendCommand` endpoint) |
| Translator.CommandStubNames | slotomania/translator.py:108-115 | the same read-back for any annotation text free of quotes |
| MarshmallowConverter.FieldToFieldSpec | slotomania/contrib/marshmallow_converter.py:13-42 | exact String, Integer, Decimal, Float and DateTime fields map to their value type under the given name with `required` copied; other fields that are neither Nested nor List raise KeyError |
| MarshmallowConverter.NestedFieldName | slotomania/contrib/marshmallow_converter.py:29-34 | a Nested field is named by its own bound name, and its contract is the nested schema's, converted recursively |
| MarshmallowConverter.ListFieldItem | slotomania/contrib/marshmallow_converter.py:35-40 | a List field keeps the given name, and its item is the container converted under that same name |
| MarshmallowConverter.ConvertFieldsSpec | slotomania/contrib/marshmallow_converter.py:47-49 | converting the fields succeeds exactly when each field does, giving one converted field per schema field, in order |
| MarshmallowConverter.SchemaContractSpec | slotomania/contrib/marshmallow_converter.py:45-51 | a non-Schema raises AssertionError; a schema's contract is named after its class, with its converted fields |
| MarshmallowConverter.SchemaToContract | slotomania/contrib/marshmallow_converter.py:45-51 | the loop appending to `ret` computes the specified contract |
| MarshmallowConverter.BlocksImportOnce | slotomania/contrib/marshmallow_converter.py:56-60 | block i asks for imports exactly when i is 0 |
| MarshmallowConverter.SchemasToSlots | slotomania/contrib/marshmallow_converter.py:54-62 | the result is the first schema's failure, or the blocks of all contracts joined with `\n` |
| MarshmallowConverter.BodyContract | slotomania/contrib/tests/test_marshmallow_converter.py:18-48 | the test's Body schema converts to the expected contract, with `hair` optional because of the test's misspelt `requried` |
| Commands.Registry.constructor | slotomania/__init__.py:55-58 | the three registries start empty |
| Commands.Registry.RegisterCommand | slotomania/__init__.py:61-67 | a taken name raises AssertionError and changes nothing; a fresh one adds exactly `name -> cls` and returns `cls`; the other registries are unchanged |
| Commands.Registry.RegisterFunction | slotomania/__init__.py:70-76 | the same insert-if-absent rule over `functions` |
| Commands.Registry.RegisterInterface | slotomania/__init__.py:79-85 | the class is keyed by its own name under the same rule; every interface stays filed under its own name |
| Commands.Registry.InitSubclass | slotomania/__init__.py:36-43 | validation comes first; a class with `resolve` is registered in `commands` and its validator in `functions` under the class name; a clash in `functions` leaves the command registered |
| Commands.ValidateClass | slotomania/__init__.py:31-34 | fails, with AssertionError, exactly when the class defines `resolve` without a ContextValidator |
| Commands.Authenticate | slotomania/__init__.py:45-47 | NotAuthenticated exactly when authentication is required and the request's user is not authenticated; it passes exactly when not required or the user is authenticated |
| Commands.Command.constructor | slotomania/__init__.py:27-29 | a command keeps its context and request |
| Commands.Command.ValidateContext | slotomania/__init__.py:14-16 | the context is loaded with the ContextValidator; a missing validator is a TypeError |
| Commands.Command.Dispatch | slotomania/__init__.py:49-52 | authenticate, then validate, then resolve; the first failing step's error is the result and resolve is not reached |
| PyValues.Lookup | slotomania/contracts.py:37 | `getattr` finds an attribute exactly when it was assigned, yielding an assigned value |
| Slots.ToDict | slotomania/contracts.py:34-42 | the loop over `__slots__` computes the specified dict, recursing through the nested object's own method; slotomania/datatypes.py:17-25 is the same serialiser and slotomania/slots.py:2-10 the same loop for `to_dict`, told apart only by the method it looks for |
| Slots.PutNew | slotomania/contracts.py:39-41 | assigning a new key appends it to the dict's order |
| Slots.SlotAttrSpec | slotomania/contracts.py:37-41 | a slot's converted attribute is the nested object's own dict or the value unchanged when `getattr` finds it, and an AttributeError when the slot was never assigned |
| Slots.SlotDictFold | slotomania/contracts.py:35-42 | the serialiser fills `ret` slot by slot in `__slots__` order, stopping at the first failure |
| Slots.FoldEntries | slotomania/contracts.py:35-42 | filling a dict over distinct names yields exactly those keys in order, each holding its converted value |
| Slots.FoldFailsIff | slotomania/contracts.py:35-42 | filling a dict fails exactly when one of its steps fails |
| Slots.SlotDictEntries | slotomania/contracts.py:34-42 | with distinct slot names the dict's keys are exactly `__slots__`, in order, each holding that slot's converted attribute |
| Slots.SlotDictFailsIff | slotomania/contracts.py:37 | the serialiser fails exactly when some slot's attribute is missing (AttributeError) or a nested object fails |
| Slots.CopiedUnchanged | slotomania/contracts.py:40-41 | a value without the method, a list of slot objects included, is copied unchanged |
| Slots.TwoSlotDict | slotomania/contracts.py:50-63 | a two-slot object with a plain first value serialises to its two arguments in slot order |
| Slots.ConstructorDicts | slotomania/contracts.py:50-73 | PrimitiveField and Contract store their arguments unchanged; a NestedField's contract becomes its own dict while the contract's field list is copied as it is |
| Slots.FieldCoercion | slotomania/datatypes.py:36-40 | a Field built from a member's name equals one built from the member; an unknown name raises KeyError |

## Left out

- Django and DRF views, request resolvers and `AuthenticateUser`: HTTP, transactions and framework plumbing outside the core.
- `slotomania/contrib/jwt_auth.py`: JWT cryptography, Django authentication, settings and the clock.
- `callSlotoEndpoint` and `callEndpoint` in `instructor.ts`: network, browser storage and async dispatch.
- `format_python_code` (yapf) is a function parameter of the translator, and `Contract.translate_to_slots` is a parameter of the schema adapter. Neither formatter is modelled.
- `Command.present`: marshmallow presenters are external.
- The command-line drivers, `setup.py`, and files holding only declarations or generated output.
- Python reflection is replaced by explicit type and field descriptors. `typing` objects, `isoformat` and `Decimal.__str__` text are given as strings.
- Marshal.Iterate: for a str or a dict the contract states only how many items `for item in value` yields (one per character, one per key), not the items themselves.
- Reducer.OverwriteSpec: the model puts the target at the entity type outright. updeep's `updateIn` gives a different result when the current value and the target are both plain objects. It keeps the current keys the target lacks, merging nested plain objects the same way. An empty `{}` target leaves the current value as it is. In those two cases the statement `value[entityType] == targetValue` describes the model, not updeep.
- Reducer.ApplyOperation: an entity type containing `.` is a path for updeep. The model treats it as one key.
- Reducer.DeleteSpec: `u.reject` on a non-array value is modelled as a throw. updeep's own handling of such a value is not modelled.
- Reducer.StrictEq: objects and arrays arrive fresh from JSON, so `===` between two of them is false. Object identity is not modelled otherwise.
- Numbers in the reducer's JSON are integers; floating point is not modelled.
- PyValues.VDict: a dict's entries may repeat a key, which no Python dict can. `Lookup` takes the last entry for a key, while the marshaller's and the encoder's loops visit every entry. The lemmas do not assume distinct keys, so for such data they describe the entries as given rather than a real dict.
- Python floats, tuples, sets and bytes are not values of the model, so `load_from_dict` over a tuple, a set or bytes, and the marshaller's handling of a float, are not modelled. Other objects are modelled as hashable and not iterable (a function, a class).
- TypeScript.ActionFunctions: the stubs block joined by blank lines is not read back into its stubs; each stub is read back on its own by ActionFunctionNames.
- The Python dict ordering of JSON keys is modelled as the order of insertion.
- Slot objects and commands' values are modelled as values. Aliasing, shared nested objects and reference cycles between slot objects are not modelled, and neither is mutation after construction.
- MarshmallowConverter: the adapter imports `ListField`, `SlotoField` and a `Contract(name, fields=...)` with `translate_to_slots` that `slotomania/contracts.py` does not define. The model gives the adapter the intermediate representation it evidently expects: PrimitiveField with `required`, NestedField, ListField and a named Contract.
- MarshmallowConverter.FieldToFieldSpec: a `field.name` of None (an unbound Nested field) is modelled as the field's bound name, which is always a string here.
- IntEnum, `auto()` numbering and Enum values other than member names are not modelled: the encoder only uses member names.
- The concrete `Person`/`Address` example of the contract tests is not reproduced. The round-trip lemmas cover every conforming dataclass, that one included.
