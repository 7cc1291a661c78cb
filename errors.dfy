/** Exceptions raised by the system (slotomania/exceptions.py and the Python
    built-ins the code relies on), and the failure-compatible result types
    that replace raising them. */
module Errors {

  datatype Error =
    | UnknowFieldType(message: string)   // a type with no TypeScript spelling
    | MissingField(field: string)        // a required field absent from the data
    | NotAuthenticated                   // Command.authenticate
    | AssertionError(message: string)    // a failed `assert`
    | KeyError(message: string)          // a dictionary or Enum lookup miss
    | AttributeError(message: string)    // getattr on a missing attribute
    | TypeError(message: string)         // Python TypeError, or a JavaScript TypeError
    | IndexError(message: string)        // indexing an empty sequence
    | ConversionError(message: string)   // the bare Exception raised by convert_value
    | ValidationError(message: string)   // raised by an external validator
    | Thrown(message: string)            // a JavaScript `throw` of a plain value

  datatype Option<+T> = None | Some(value: T)

  datatype Result<+T> = Ok(value: T) | Err(error: Error) {
    predicate IsFailure() { Err? }
    function PropagateFailure<U>(): Result<U>
      requires Err?
    {
      Err(error)
    }
    function Extract(): T
      requires Ok?
    {
      value
    }
  }

  /** Applies `f` to every element in order, stopping at the first failure,
      as a Python list comprehension or generator over `s` does. */
  function MapAll<A, B>(f: A -> Result<B>, s: seq<A>): Result<seq<B>>
  {
    if |s| == 0 then Ok([])
    else
      var init := MapAll(f, s[..|s| - 1]);
      if init.Err? then Err(init.error)
      else
        var last := f(s[|s| - 1]);
        if last.Err? then Err(last.error)
        else Ok(init.value + [last.value])
  }

  /** What the traversal computes: it succeeds exactly when every element
      does, with the elements' results in order, and otherwise fails with the
      error of the first element that fails. */
  lemma {:induction false} MapAllSpec<A, B>(f: A -> Result<B>, s: seq<A>)
    ensures MapAll(f, s).Ok? <==> forall i :: 0 <= i < |s| ==> f(s[i]).Ok?
    ensures MapAll(f, s).Ok? ==> |MapAll(f, s).value| == |s|
    ensures MapAll(f, s).Ok? ==> forall i :: 0 <= i < |s| ==> MapAll(f, s).value[i] == f(s[i]).value
    ensures MapAll(f, s).Err? ==> exists i :: 0 <= i < |s| && f(s[i]) == Err(MapAll(f, s).error)
                                    && forall j :: 0 <= j < i ==> f(s[j]).Ok?
  {
    if |s| > 0 {
      var init := s[..|s| - 1];
      MapAllSpec(f, init);
      assert forall i :: 0 <= i < |init| ==> init[i] == s[i];
    }
  }

  /** A traversal that succeeded has one result per element. */
  lemma MapAllLength<A, B>(f: A -> Result<B>, s: seq<A>)
    requires MapAll(f, s).Ok?
    ensures |MapAll(f, s).value| == |s|
  {
    MapAllSpec(f, s);
  }

  /** Traversing a rearrangement of `a`: it succeeds exactly when every
      element of `a` does, with one result per element of the rearrangement. */
  lemma MapAllPermuted<A, B>(f: A -> Result<B>, a: seq<A>, b: seq<A>)
    requires multiset(a) == multiset(b)
    ensures MapAll(f, b).Ok? <==> forall i :: 0 <= i < |a| ==> f(a[i]).Ok?
    ensures MapAll(f, b).Ok? ==> |MapAll(f, b).value| == |b|
    ensures MapAll(f, b).Ok? ==> forall i :: 0 <= i < |b| ==> f(b[i]) == Ok(MapAll(f, b).value[i])
  {
    MapAllSpec(f, b);
    forall i | 0 <= i < |b| ensures b[i] in a {
      assert b[i] in multiset(b);
    }
    forall i | 0 <= i < |a| ensures a[i] in b {
      assert a[i] in multiset(a);
    }
  }

  /** One element of a traversal that succeeded. */
  lemma MapAllOkAt<A, B>(f: A -> Result<B>, s: seq<A>, i: nat)
    requires MapAll(f, s).Ok? && i < |s|
    ensures |MapAll(f, s).value| == |s| && f(s[i]) == Ok(MapAll(f, s).value[i])
  {
    MapAllSpec(f, s);
  }

  /** The map built in steps by the loops that fill a list with `append`:
      extending the input by one element extends the output by one. */
  lemma MapAllSnoc<A, B>(f: A -> Result<B>, s: seq<A>, x: A)
    ensures MapAll(f, s + [x]) ==
      (if MapAll(f, s).Err? then MapAll(f, s)
       else if f(x).Err? then Err(f(x).error)
       else Ok(MapAll(f, s).value + [f(x).value]))
  {
    assert (s + [x])[..|s + [x]| - 1] == s;
  }

  /** Once a prefix fails, the whole traversal fails with the same error:
      the loop may stop at the first failure. */
  lemma {:induction false} MapAllPrefixErr<A, B>(f: A -> Result<B>, s: seq<A>, k: nat)
    requires k <= |s| && MapAll(f, s[..k]).Err?
    ensures MapAll(f, s) == MapAll(f, s[..k])
    decreases |s| - k
  {
    if k < |s| {
      MapAllSnoc(f, s[..k], s[k]);
      assert s[..k] + [s[k]] == s[..k + 1];
      MapAllPrefixErr(f, s, k + 1);
    } else {
      assert s[..k] == s;
    }
  }
}
