/** The client side of the instruction protocol
    (slotomania/instructor/instructor.ts:81-135): a Redux reducer over the
    server state that applies each operation of an UpdateServerStateAction
    in turn. JavaScript values are modelled as parsed JSON: objects and
    arrays are fresh, so `===` on them is never true. */
module Reducer {
  import opened Errors

  datatype JsValue =
    | JUndefined
    | JNull
    | JBool(b: bool)
    | JNum(n: int)
    | JStr(s: string)
    | JArr(items: seq<JsValue>)
    | JObj(props: map<string, JsValue>)

  /** The server state: entity type to its value. */
  type State = map<string, JsValue>

  /** `{verb, entity_type, target_value}`; the verb is any string. */
  datatype Operation = Operation(verb: string, entityType: string, targetValue: JsValue)

  datatype Action = Action(kind: string, operations: seq<Operation>)

  /** JavaScript truthiness. */
  predicate Truthy(v: JsValue)
  {
    match v
    case JUndefined => false
    case JNull => false
    case JBool(b) => b
    case JNum(n) => n != 0
    case JStr(s) => s != ""
    case _ => true
  }

  /** `===`: primitives by value; objects and arrays by identity, and no two
      parsed objects share one. */
  predicate StrictEq(a: JsValue, b: JsValue)
  {
    match (a, b)
    case (JUndefined, JUndefined) => true
    case (JNull, JNull) => true
    case (JBool(x), JBool(y)) => x == y
    case (JNum(x), JNum(y)) => x == y
    case (JStr(x), JStr(y)) => x == y
    case _ => false
  }

  /** `x.id`: a TypeError on null and undefined, `undefined` when there is
      no such property. */
  function PropId(x: JsValue): (r: Result<JsValue>)
    ensures r.Err? <==> x.JUndefined? || x.JNull?
  {
    match x
    case JUndefined => Err(TypeError("Cannot read properties of undefined (reading 'id')"))
    case JNull => Err(TypeError("Cannot read properties of null (reading 'id')"))
    case JObj(props) => Ok(if "id" in props then props["id"] else JUndefined)
    case _ => Ok(JUndefined)
  }

  /** `targetValue.find(x => x.id === item.id)`: the first element whose id
      is the item's, or undefined. Each step reads `x.id` and then
      `item.id`, so an empty target never reads the item's id. */
  function Find(target: seq<JsValue>, item: JsValue): (r: Result<JsValue>)
    ensures r.Err? ==> r.error.TypeError?
    ensures |target| == 0 ==> r == Ok(JUndefined)
  {
    if |target| == 0 then Ok(JUndefined)
    else
      var xid :- PropId(target[0]);
      var id :- PropId(item);
      if StrictEq(xid, id) then Ok(target[0]) else Find(target[1..], item)
  }

  /** `oldItems.filter(item => !targetValue.find(x => x.id === item.id))`.
      The `dupes` filter before it makes the same reads in the same order,
      so it throws exactly when this one does and its result is unused. */
  function Retained(olds: seq<JsValue>, target: seq<JsValue>): (r: Result<seq<JsValue>>)
    ensures r.Err? ==> r.error.TypeError?
  {
    if |olds| == 0 then Ok([])
    else
      var found :- Find(target, olds[0]);
      var rest :- Retained(olds[1..], target);
      Ok(if Truthy(found) then rest else [olds[0]] + rest)
  }

  /** `sourceValue || []`. */
  function OldItems(source: JsValue): (r: Result<seq<JsValue>>)
    ensures r.Err? ==> r.error.TypeError?
  {
    if !Truthy(source) then Ok([])
    else if source.JArr? then Ok(source.items)
    else Err(TypeError("oldItems.filter is not a function"))
  }

  /** The inner `merge`: the old items whose id no target item has, in
      order, then the whole target. */
  function MergeValue(source: JsValue, target: JsValue): (r: Result<JsValue>)
    ensures r.Err? ==> r.error.TypeError?
  {
    var olds :- OldItems(source);
    if target.JArr? then
      var kept :- Retained(olds, target.items);
      Ok(JArr(kept + target.items))
    else if |olds| > 0 then Err(TypeError("targetValue.find is not a function"))
    else if target.JStr? then Ok(JArr(seq(|target.s|, i requires 0 <= i < |target.s| => JStr([target.s[i]]))))
    else Err(TypeError("targetValue is not iterable"))
  }

  /** `u.reject(item => item.id === targetValue.id)` on the current value. */
  function DeleteValue(current: JsValue, target: JsValue): (r: Result<JsValue>)
    ensures r.Err? ==> r.error.TypeError?
  {
    if current.JArr? then
      var kept :- Rejected(current.items, target);
      Ok(JArr(kept))
    else Err(TypeError("reject expects an array"))
  }

  function Rejected(items: seq<JsValue>, target: JsValue): (r: Result<seq<JsValue>>)
    ensures r.Err? ==> r.error.TypeError?
  {
    if |items| == 0 then Ok([])
    else
      var id :- PropId(items[0]);
      var targetId :- PropId(target);
      var rest :- Rejected(items[1..], target);
      Ok(if StrictEq(id, targetId) then rest else [items[0]] + rest)
  }

  function Get(state: State, key: string): JsValue
  {
    if key in state then state[key] else JUndefined
  }

  /** `applyOperation`: OVERWRITE, MERGE and DELETE update the value at the
      entity type through `u.updateIn`; any other verb throws. */
  function ApplyOperation(state: State, op: Operation): Result<State>
  {
    if op.verb == "OVERWRITE" then Ok(state[op.entityType := op.targetValue])
    else if op.verb == "MERGE" then
      var merged :- MergeValue(Get(state, op.entityType), op.targetValue);
      Ok(state[op.entityType := merged])
    else if op.verb == "DELETE" then
      var kept :- DeleteValue(Get(state, op.entityType), op.targetValue);
      Ok(state[op.entityType := kept])
    else Err(Thrown("operation"))
  }

  /** `_.reduce(operations, applyOperation, ret)`: left to right, stopping
      at the first throw. */
  function ApplyAll(state: State, ops: seq<Operation>): Result<State>
  {
    if |ops| == 0 then Ok(state)
    else
      var before :- ApplyAll(state, ops[..|ops| - 1]);
      ApplyOperation(before, ops[|ops| - 1])
  }

  /** The UpdateServerStateAction handler: a shallow copy of the state, then
      the fold. */
  function UpdateServerState(state: State, action: Action): Result<State>
  {
    ApplyAll(state, action.operations)
  }

  /** `createReducer(initialState, handlers)` applied to a state (absent for
      `undefined`) and an action. */
  function CreateReducer(initialState: State, handlers: map<string, (State, Action) -> Result<State>>,
                         state: Option<State>, action: Action): Result<State>
  {
    var current := if state.None? then initialState else state.value;
    if action.kind in handlers then handlers[action.kind](current, action) else Ok(current)
  }

  /** `serverState`: the reducer made from `{}` and the one handler. */
  function ServerStateReducer(state: Option<State>, action: Action): Result<State>
  {
    CreateReducer(map[], map["UpdateServerStateAction" := UpdateServerState], state, action)
  }

  // ---------------------------------------------------------------------
  // Reference definitions for well-formed payloads, where every list item
  // is an object, and what the operations do in their terms.

  /** The id an item carries (`undefined` when it has none). */
  function IdOf(v: JsValue): JsValue
  {
    if v.JObj? && "id" in v.props then v.props["id"] else JUndefined
  }

  predicate AllObjects(items: seq<JsValue>)
  {
    forall i :: 0 <= i < |items| ==> items[i].JObj?
  }

  /** Some item of `target` carries an id `===` to `id`. */
  predicate Claimed(target: seq<JsValue>, id: JsValue)
  {
    exists j :: 0 <= j < |target| && StrictEq(IdOf(target[j]), id)
  }

  /** The items of `olds`, in order, whose id no item of `target` claims. */
  function Unclaimed(olds: seq<JsValue>, target: seq<JsValue>): (r: seq<JsValue>)
    ensures |r| <= |olds|
  {
    if |olds| == 0 then []
    else (if Claimed(target, IdOf(olds[0])) then [] else [olds[0]]) + Unclaimed(olds[1..], target)
  }

  /** The items of `items`, in order, whose id is not `===` to `id`. */
  function Without(items: seq<JsValue>, id: JsValue): (r: seq<JsValue>)
    ensures |r| <= |items|
  {
    if |items| == 0 then []
    else (if StrictEq(IdOf(items[0]), id) then [] else [items[0]]) + Without(items[1..], id)
  }

  lemma {:induction false} UnclaimedMembers(olds: seq<JsValue>, target: seq<JsValue>, x: JsValue)
    ensures x in Unclaimed(olds, target) <==> x in olds && !Claimed(target, IdOf(x))
  {
    if |olds| > 0 {
      UnclaimedMembers(olds[1..], target, x);
      assert olds == [olds[0]] + olds[1..];
    }
  }

  lemma {:induction false} WithoutMembers(items: seq<JsValue>, id: JsValue, x: JsValue)
    ensures x in Without(items, id) <==> x in items && !StrictEq(IdOf(x), id)
  {
    if |items| > 0 {
      WithoutMembers(items[1..], id, x);
      assert items == [items[0]] + items[1..];
    }
  }

  /** Over objects, `find` never throws and finds a truthy item exactly
      when some item claims the id. */
  lemma {:induction false} FindSpec(target: seq<JsValue>, item: JsValue)
    requires AllObjects(target) && item.JObj?
    ensures Find(target, item).Ok?
    ensures Truthy(Find(target, item).value) <==> Claimed(target, IdOf(item))
  {
    if |target| > 0 {
      var id := IdOf(item);
      assert PropId(target[0]) == Ok(IdOf(target[0]));
      assert PropId(item) == Ok(id);
      if !StrictEq(IdOf(target[0]), id) {
        FindSpec(target[1..], item);
        if Claimed(target, id) {
          var j :| 0 <= j < |target| && StrictEq(IdOf(target[j]), id);
          assert j > 0;
          assert target[1..][j - 1] == target[j];
        }
        if Claimed(target[1..], id) {
          var j :| 0 <= j < |target[1..]| && StrictEq(IdOf(target[1..][j]), id);
          assert target[j + 1] == target[1..][j];
        }
      }
    }
  }

  /** The filter inside `merge` keeps exactly the unclaimed old items. */
  lemma {:induction false} RetainedSpec(olds: seq<JsValue>, target: seq<JsValue>)
    requires AllObjects(olds) && AllObjects(target)
    ensures Retained(olds, target) == Ok(Unclaimed(olds, target))
  {
    if |olds| > 0 {
      FindSpec(target, olds[0]);
      assert AllObjects(olds[1..]) by {
        forall i | 0 <= i < |olds[1..]| ensures olds[1..][i].JObj? {
          assert olds[1..][i] == olds[i + 1];
        }
      }
      RetainedSpec(olds[1..], target);
      assert [] + Unclaimed(olds[1..], target) == Unclaimed(olds[1..], target);
    }
  }

  /** Against an empty target nothing reads an old item's id: every old
      item is kept, null and undefined ones included. */
  lemma {:induction false} RetainedNoTarget(olds: seq<JsValue>)
    ensures Retained(olds, []) == Ok(olds)
  {
    if |olds| > 0 {
      RetainedNoTarget(olds[1..]);
      assert olds == [olds[0]] + olds[1..];
    }
  }

  /** So merging a list holding null into an empty list keeps the null. */
  lemma MergeNullIntoEmpty()
    ensures MergeValue(JArr([JNull]), JArr([])) == Ok(JArr([JNull]))
  {
    RetainedNoTarget([JNull]);
    assert [JNull] + [] == [JNull];
  }

  /** `u.reject` throws exactly when it reads `id` of null or undefined:
      of an item, or of the target when there is at least one item. */
  lemma {:induction false} RejectedFailsIff(items: seq<JsValue>, target: JsValue)
    ensures Rejected(items, target).Err? <==>
            (exists i :: 0 <= i < |items| && (items[i].JNull? || items[i].JUndefined?)) ||
            (|items| > 0 && (target.JNull? || target.JUndefined?))
  {
    if |items| > 0 {
      RejectedFailsIff(items[1..], target);
      if exists i :: 0 <= i < |items[1..]| && (items[1..][i].JNull? || items[1..][i].JUndefined?) {
        var i :| 0 <= i < |items[1..]| && (items[1..][i].JNull? || items[1..][i].JUndefined?);
        assert items[i + 1] == items[1..][i];
      }
      if exists i :: 0 <= i < |items| && (items[i].JNull? || items[i].JUndefined?) {
        var i :| 0 <= i < |items| && (items[i].JNull? || items[i].JUndefined?);
        if i > 0 {
          assert items[1..][i - 1] == items[i];
        }
      }
    }
  }

  /** When it does not throw, `u.reject` keeps exactly the items whose id
      is not the target's. */
  lemma {:induction false} RejectedSpec(items: seq<JsValue>, target: JsValue)
    requires Rejected(items, target).Ok?
    ensures Rejected(items, target).value == Without(items, IdOf(target))
  {
    if |items| > 0 {
      assert PropId(items[0]).Ok? && PropId(items[0]).value == IdOf(items[0]);
      assert PropId(target).Ok? && PropId(target).value == IdOf(target);
      RejectedSpec(items[1..], target);
    }
  }

  /** MERGE on a list of objects with a list of objects: the old items whose
      id the target does not claim, in order, then the target; nothing but
      the entity type changes. */
  lemma MergeSpec(state: State, op: Operation)
    requires op.verb == "MERGE" && op.targetValue.JArr? && AllObjects(op.targetValue.items)
    requires !Truthy(Get(state, op.entityType)) ||
             (Get(state, op.entityType).JArr? && AllObjects(Get(state, op.entityType).items))
    ensures var olds := if Truthy(Get(state, op.entityType)) then Get(state, op.entityType).items else [];
            ApplyOperation(state, op) ==
            Ok(state[op.entityType := JArr(Unclaimed(olds, op.targetValue.items) + op.targetValue.items)])
  {
    var olds := if Truthy(Get(state, op.entityType)) then Get(state, op.entityType).items else [];
    assert OldItems(Get(state, op.entityType)) == Ok(olds);
    RetainedSpec(olds, op.targetValue.items);
  }

  /** What the merged list holds: every target item, and an old item exactly
      when no target item claims its id; so no kept item shares an id with
      a target item. */
  lemma MergeMembers(olds: seq<JsValue>, target: seq<JsValue>, x: JsValue)
    ensures x in Unclaimed(olds, target) + target <==>
            (x in olds && !Claimed(target, IdOf(x))) || x in target
    ensures x in Unclaimed(olds, target) ==> forall j :: 0 <= j < |target| ==> !StrictEq(IdOf(target[j]), IdOf(x))
  {
    UnclaimedMembers(olds, target, x);
  }

  /** MERGE into an entity type the state does not hold yet yields the target
      list itself, whatever its items. */
  lemma MergeIntoMissing(state: State, op: Operation)
    requires op.verb == "MERGE" && op.targetValue.JArr? && op.entityType !in state
    ensures ApplyOperation(state, op) == Ok(state[op.entityType := op.targetValue])
  {
    assert Retained([], op.targetValue.items) == Ok([]);
    assert [] + op.targetValue.items == op.targetValue.items;
  }

  /** `!find(...)` tests the found item, not whether one was found: a falsy
      target item whose (missing) id matches keeps the old item. */
  lemma MergeFalsyMatchKeeps()
    ensures MergeValue(JArr([JObj(map[])]), JArr([JNum(0)])) == Ok(JArr([JObj(map[]), JNum(0)]))
  {
    var item := JObj(map[]);
    assert "id" !in item.props;
    assert PropId(item) == Ok(JUndefined);
    assert Find([JNum(0)], item) == Ok(JNum(0));
    assert [item][1..] == [];
    assert Retained([item][1..], [JNum(0)]) == Ok([]);
    assert [item] + [] == [item];
    assert Retained([item], [JNum(0)]) == Ok([item]);
    assert [item] + [JNum(0)] == [item, JNum(0)];
  }

  /** DELETE succeeds exactly when the current value is a list and no `id`
      is read from null or undefined; it then drops the items whose id is
      the target's and changes nothing else. */
  lemma DeleteSpec(state: State, op: Operation)
    requires op.verb == "DELETE"
    ensures var current := Get(state, op.entityType);
            ApplyOperation(state, op).Ok? <==>
            current.JArr? && !Rejected(current.items, op.targetValue).Err?
    ensures var current := Get(state, op.entityType);
            ApplyOperation(state, op).Ok? ==>
            ApplyOperation(state, op).value == state[op.entityType := JArr(Without(current.items, IdOf(op.targetValue)))]
  {
    var current := Get(state, op.entityType);
    if current.JArr? && Rejected(current.items, op.targetValue).Ok? {
      RejectedSpec(current.items, op.targetValue);
    }
  }

  /** OVERWRITE never throws and puts the target value at the entity type. */
  lemma OverwriteSpec(state: State, op: Operation)
    requires op.verb == "OVERWRITE"
    ensures ApplyOperation(state, op).Ok?
    ensures op.entityType in ApplyOperation(state, op).value
    ensures ApplyOperation(state, op).value[op.entityType] == op.targetValue
  {
  }

  /** Only OVERWRITE, MERGE and DELETE are handled: any other verb, ADD
      included, throws `{operation}`. */
  lemma OtherVerbsThrow(state: State, op: Operation)
    ensures (ApplyOperation(state, op).Err? && ApplyOperation(state, op).error.Thrown?) <==>
            op.verb != "OVERWRITE" && op.verb != "MERGE" && op.verb != "DELETE"
    ensures op.verb != "OVERWRITE" && op.verb != "MERGE" && op.verb != "DELETE" ==>
            ApplyOperation(state, op) == Err(Thrown("operation"))
  {
  }

  /** An operation touches its own entity type and no other. */
  lemma ApplyOperationFrame(state: State, op: Operation)
    requires ApplyOperation(state, op).Ok?
    ensures ApplyOperation(state, op).value.Keys == state.Keys + {op.entityType}
    ensures forall k :: k in state && k != op.entityType ==> ApplyOperation(state, op).value[k] == state[k]
  {
  }

  /** The entity types a batch of operations names. */
  function EntityTypes(ops: seq<Operation>): set<string>
  {
    if |ops| == 0 then {} else EntityTypes(ops[..|ops| - 1]) + {ops[|ops| - 1].entityType}
  }

  lemma {:induction false} EntityTypesMembers(ops: seq<Operation>, k: string)
    ensures k in EntityTypes(ops) <==> exists i :: 0 <= i < |ops| && ops[i].entityType == k
  {
    if |ops| > 0 {
      var init := ops[..|ops| - 1];
      EntityTypesMembers(init, k);
      if exists i :: 0 <= i < |init| && init[i].entityType == k {
        var i :| 0 <= i < |init| && init[i].entityType == k;
        assert ops[i] == init[i];
      }
      if exists i :: 0 <= i < |ops| && ops[i].entityType == k {
        var i :| 0 <= i < |ops| && ops[i].entityType == k;
        if i < |init| {
          assert init[i] == ops[i];
        }
      }
    }
  }

  /** After the fold, the keys are the old ones plus the operations' entity
      types, and an entity type no operation names keeps its value. */
  lemma {:induction false} ApplyAllFrame(state: State, ops: seq<Operation>)
    requires ApplyAll(state, ops).Ok?
    ensures ApplyAll(state, ops).value.Keys == state.Keys + EntityTypes(ops)
    ensures forall k :: k in state && (forall i :: 0 <= i < |ops| ==> ops[i].entityType != k) ==>
                        ApplyAll(state, ops).value[k] == state[k]
  {
    if |ops| > 0 {
      var init := ops[..|ops| - 1];
      ApplyAllFrame(state, init);
      var before := ApplyAll(state, init).value;
      ApplyOperationFrame(before, ops[|ops| - 1]);
      forall k | k in state && (forall i :: 0 <= i < |ops| ==> ops[i].entityType != k)
        ensures ApplyAll(state, ops).value[k] == state[k]
      {
        forall i | 0 <= i < |init| ensures init[i].entityType != k {
          assert init[i] == ops[i];
        }
      }
    }
  }

  /** The fold over two batches is the fold over the first, then over the
      second. */
  lemma {:induction false} ApplyAllAppend(state: State, first: seq<Operation>, second: seq<Operation>)
    ensures ApplyAll(state, first + second) ==
            (if ApplyAll(state, first).Err? then ApplyAll(state, first)
             else ApplyAll(ApplyAll(state, first).value, second))
  {
    if |second| == 0 {
      assert first + second == first;
    } else {
      var all := first + second;
      assert all[..|all| - 1] == first + second[..|second| - 1];
      assert all[|all| - 1] == second[|second| - 1];
      ApplyAllAppend(state, first, second[..|second| - 1]);
    }
  }

  /** One operation with an unhandled verb makes the whole update throw. */
  lemma {:induction false} ApplyAllThrows(state: State, ops: seq<Operation>, i: nat)
    requires i < |ops|
    requires ops[i].verb != "OVERWRITE" && ops[i].verb != "MERGE" && ops[i].verb != "DELETE"
    ensures ApplyAll(state, ops).Err?
  {
    if i < |ops| - 1 {
      var init := ops[..|ops| - 1];
      assert init[i] == ops[i];
      ApplyAllThrows(state, init, i);
    }
  }

  /** `createReducer`: an undefined state is the initial state, and an action
      with no own handler returns the state unchanged. */
  lemma CreateReducerSpec(initialState: State, handlers: map<string, (State, Action) -> Result<State>>,
                          state: Option<State>, action: Action)
    ensures CreateReducer(initialState, handlers, None, action) ==
            CreateReducer(initialState, handlers, Some(initialState), action)
    ensures action.kind !in handlers ==>
            CreateReducer(initialState, handlers, state, action) ==
            Ok(if state.None? then initialState else state.value)
    ensures action.kind in handlers ==>
            CreateReducer(initialState, handlers, state, action) ==
            handlers[action.kind](if state.None? then initialState else state.value, action)
  {
  }

  /** The server-state reducer starts from `{}`, folds the operations of an
      UpdateServerStateAction and ignores every other action. */
  lemma ServerStateReducerSpec(state: Option<State>, action: Action)
    ensures var current := if state.None? then map[] else state.value;
            ServerStateReducer(state, action) ==
            if action.kind == "UpdateServerStateAction" then ApplyAll(current, action.operations) else Ok(current)
  {
  }
}
