/** The Python values the marshaller, the encoder and the slot serialisers
    handle. Objects are values here: a dataclass instance is its class name
    with its field values in declaration order, a `__slots__` object is its
    class name, its `__slots__` list and the attributes assigned so far. */
module PyValues {
  import opened Errors

  /** Which serialising method a slot object's class defines:
      `_sloto_to_dict` (slotomania/contracts.py, slotomania/datatypes.py)
      or `to_dict` (slotomania/slots.py). */
  datatype Hook = SlotoToDictHook | ToDictHook

  datatype Value =
    | VNone
    | VBool(b: bool)
    | VInt(i: int)
    | VStr(s: string)
    | VDecimal(text: string)                  // decimal.Decimal, by its exact str()
    | VDateTime(iso: string)                  // datetime, by its isoformat()
    | VEnum(enumName: string, member: string) // an Enum member
    | VList(items: seq<Value>)
    | VDict(entries: seq<(string, Value)>)    // a dict with str keys, in insertion order
    | VObj(cls: string, attrs: seq<(string, Value)>)
    | VSlots(hook: Hook, cls: string, slots: seq<string>, attrs: seq<(string, Value)>)
    | VOpaque(typeName: string)               // any other hashable, non-iterable object (a function, a class)

  function Keys(entries: seq<(string, Value)>): (r: seq<string>)
    ensures |r| == |entries|
    ensures forall i :: 0 <= i < |entries| ==> r[i] == entries[i].0
  {
    seq(|entries|, i requires 0 <= i < |entries| => entries[i].0)
  }

  /** `d[k]` for a dict built by assigning `entries` in order: the last
      assignment to `k` wins. */
  function Lookup(entries: seq<(string, Value)>, k: string): (r: Option<Value>)
    ensures r.None? <==> k !in Keys(entries)
    ensures r.Some? ==> exists i :: 0 <= i < |entries| && entries[i] == (k, r.value)
  {
    if |entries| == 0 then None
    else if entries[|entries| - 1].0 == k then Some(entries[|entries| - 1].1)
    else
      assert Keys(entries) == Keys(entries[..|entries| - 1]) + [entries[|entries| - 1].0];
      Lookup(entries[..|entries| - 1], k)
  }

  /** Where `d[k]` is found: the position of the last assignment to `k`. */
  function LastIndex(entries: seq<(string, Value)>, k: string): (r: Option<nat>)
    ensures r.Some? ==> r.value < |entries| && entries[r.value].0 == k
  {
    if |entries| == 0 then None
    else if entries[|entries| - 1].0 == k then Some(|entries| - 1)
    else LastIndex(entries[..|entries| - 1], k)
  }

  /** The position `LastIndex` finds holds the value `Lookup` returns. */
  lemma {:induction false} LastIndexLookup(entries: seq<(string, Value)>, k: string)
    ensures LastIndex(entries, k).None? <==> Lookup(entries, k).None?
    ensures LastIndex(entries, k).Some? ==> Lookup(entries, k) == Some(entries[LastIndex(entries, k).value].1)
  {
    if |entries| > 0 && entries[|entries| - 1].0 != k {
      LastIndexLookup(entries[..|entries| - 1], k);
    }
  }

  /** `dataclasses.asdict` (its recursive helper): dataclass instances become
      dicts of their fields, lists and dicts are rebuilt element by element,
      everything else is copied. */
  function AsDict(v: Value): Value
    decreases v
  {
    match v
    case VObj(_, attrs) => VDict(AsDictEntries(attrs))
    case VDict(entries) => VDict(AsDictEntries(entries))
    case VList(items) => VList(seq(|items|, i requires 0 <= i < |items| => AsDict(items[i])))
    case _ => v
  }

  function AsDictEntries(entries: seq<(string, Value)>): (r: seq<(string, Value)>)
    ensures Keys(r) == Keys(entries)
    decreases entries
  {
    if |entries| == 0 then []
    else
      var e := entries[|entries| - 1];
      assert e in entries;
      assert e.1 < e;
      AsDictEntries(entries[..|entries| - 1]) + [(e.0, AsDict(e.1))]
  }

  /** `asdict` keeps every key and converts every value in place. */
  lemma {:induction false} AsDictEntriesAt(entries: seq<(string, Value)>)
    ensures |AsDictEntries(entries)| == |entries|
    ensures forall i :: 0 <= i < |entries| ==> AsDictEntries(entries)[i] == (entries[i].0, AsDict(entries[i].1))
  {
    if |entries| > 0 {
      AsDictEntriesAt(entries[..|entries| - 1]);
    }
  }
}
