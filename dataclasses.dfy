/** The type information the Python code recovers by reflection
    (`__annotations__`, `__origin__`, `__args__`, `is_dataclass`,
    `__dataclass_fields__`), stated as an explicit descriptor. */
module Dataclasses {
  import opened PyValues

  /** The keys of TYPE_MAP (slotomania/core.py:229-239). */
  datatype PrimKind = Str | Bool | Int | Decimal | Float | DateTime | Dict | AnyType | BareList

  datatype PyType =
    | Prim(kind: PrimKind)          // a key of TYPE_MAP
    | Record(rec: RecordType)       // a dataclass
    | ListOf(item: PyType)          // typing.List[item]
    | UnionOf(args: seq<PyType>)    // typing.Union[args]
    | NoneType                      // type(None)
    | EnumType(name: string)        // an Enum subclass
    | ForwardRef(arg: string)       // typing.ForwardRef('arg')
    | Undefined                     // the `Undefined` / `undefined` marker class
    | Other(repr: string, hasOrigin: bool) // anything else, by its repr; whether it has an `__origin__`

  /** A dataclass: its `__name__`, its fields in declaration order, and
      whether it derives from `Contract` and so has `load_from_dict`. */
  datatype RecordType = RecordType(name: string, fields: seq<FieldDecl>, isContract: bool)

  /** A dataclass field's `default` / `default_factory`. */
  datatype Default = NoDefault | DefaultValue(value: Value) | DefaultFactory(made: Value)

  datatype FieldDecl = FieldDecl(name: string, typ: PyType, default: Default)

  /** `field.default is MISSING`: a field with only a `default_factory`
      counts as required too. */
  predicate IsFieldRequired(f: FieldDecl)
  {
    !f.default.DefaultValue?
  }

  /** `typing.Optional[t]`, that is `Union[t, None]`: a union argument is
      flattened into the new union, a NoneType already there is not added
      twice, and a union of NoneType alone is NoneType itself. */
  function Optional(t: PyType): PyType
  {
    match t
    case NoneType => NoneType
    case UnionOf(args) => if NoneType in args then t else UnionOf(args + [NoneType])
    case _ => UnionOf([t, NoneType])
  }

  /** The type already admits None: NoneType itself, or a union naming it. */
  predicate AdmitsNone(t: PyType)
  {
    t.NoneType? || (t.UnionOf? && NoneType in t.args)
  }

  /** Optional always yields a type that admits None, leaves one that
      already does alone, and so applying it twice changes nothing. */
  lemma OptionalAdmitsNone(t: PyType)
    ensures AdmitsNone(Optional(t))
    ensures AdmitsNone(t) <==> Optional(t) == t
    ensures Optional(Optional(t)) == Optional(t)
  {
    if t.UnionOf? && NoneType !in t.args {
      assert (t.args + [NoneType])[|t.args|] == NoneType;
      assert |t.args + [NoneType]| != |t.args|;
    }
  }

  function FieldNames(fields: seq<FieldDecl>): (r: seq<string>)
    ensures |r| == |fields|
    ensures forall i :: 0 <= i < |fields| ==> r[i] == fields[i].name
  {
    seq(|fields|, i requires 0 <= i < |fields| => fields[i].name)
  }
}
