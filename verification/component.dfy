/**
 * The `Component` super class of the driver's graph objects: its constructor
 * defaults, the property, computed and meta maps with their type checks, and
 * the payloads `persist` and `destroy` build, pushed into the open bulk area
 * or handed to the RPC layer.
 */
module Components {
  import opened Wrappers

  /**
   * The JavaScript values the class can meet. Numbers are integral (or NaN);
   * `Ref` is any other object, by identity.
   */
  datatype JsValue =
    | Undefined
    | Null
    | Bool(b: bool)
    | Num(x: int)
    | NaN
    | Str(s: string)
    | Symbol(description: string)
    | BigInt(n: int)
    | Date(time: int)
    | Array(items: seq<JsValue>)
    | Object(fields: map<string, JsValue>)
    | Function(name: string)
    | Ref(identity: nat)

  /** JavaScript truthiness: `false`, `0`, `NaN`, `""`, `0n`, `null` and `undefined` are falsy. */
  predicate Truthy(v: JsValue) {
    match v
    case Undefined => false
    case Null => false
    case Bool(b) => b
    case Num(x) => x != 0
    case NaN => false
    case Str(s) => s != ""
    case BigInt(n) => n != 0
    case _ => true
  }

  /**
   * The value test of `_validatePropAndVal`: `typeof` is boolean, number or
   * string, or the value is a Date, an Array or an Object (functions are
   * objects too). `null`, `undefined`, symbols and bigints fail.
   */
  predicate AcceptedValue(v: JsValue) {
    match v
    case Undefined => false
    case Null => false
    case Symbol(_) => false
    case BigInt(_) => false
    case _ => true
  }

  /** Why a call throws. */
  datatype ComponentError =
    | PropNameNotString
    | PropValueRejected
    | AlgoNameNotString
    | AlgoNotPresent(algo: string)
    | AlgoPropNotPresent(prop: string)
    | LabelRequired
    | IdRequired
    | ComponentTypeRejected
    | ComponentTypeNotString
    | NoConnection

  /**
   * The message of the `Error` a failure raised in this class throws; None for
   * the rejection of `_validateCmp` and for the TypeErrors of calling
   * `toLowerCase` on a non-string or reading `_isBulkOpen` of `undefined`.
   */
  function ErrorMessage(e: ComponentError): Option<string> {
    match e
    case PropNameNotString => Some("Property name must be of type: string")
    case PropValueRejected => Some("Property value must be of type: boolean | number | string | Date| Array| Object")
    case AlgoNameNotString => Some("Algorithm name must be of type: string")
    case AlgoNotPresent(a) => Some("Provided algorithm(" + a + ") is not present")
    case AlgoPropNotPresent(p) => Some("Provided algorithm property(" + p + ") is not present")
    case LabelRequired => Some("Graph label is required to persist")
    case IdRequired => Some("Component id is required ")
    case _ => None
  }

  /** A call's value, or the error it throws. */
  datatype Outcome<T> = Returns(value: T) | Throws(error: ComponentError)

  /** A parent graph other than the component itself: its label and, when it has one, whether its connection's bulk area is open. */
  datatype GraphRef = GraphRef(graphLabel: JsValue, bulkOpen: Option<bool>)

  /**
   * The instance fields. `parent == None` stands for `__parentGraph` being the
   * component itself, whose own connection (a graph's `__conn`) is `conn`.
   */
  datatype Component = Component(
    ref: string,
    ctype: JsValue,
    parent: Option<GraphRef>,
    debug: JsValue,
    id: JsValue,
    labelValue: JsValue,
    prop: map<string, JsValue>,
    computed: map<string, map<string, JsValue>>,
    meta: map<string, JsValue>,
    conn: Option<bool>)

  /** The constructor's `param` object; a falsy or absent map is `None`. */
  datatype Param = Param(
    debug: JsValue,
    id: JsValue,
    labelValue: JsValue,
    prop: Option<map<string, JsValue>>,
    computed: Option<map<string, map<string, JsValue>>>,
    meta: Option<map<string, JsValue>>)

  function OrElse(v: JsValue, default: JsValue): JsValue {
    if Truthy(v) then v else default
  }

  /** `new Component(param, type, g)`, with `uuid.v1()` given as `ref` and the connection of the component itself as `conn`. */
  function New(param: Param, ctype: JsValue, g: Option<GraphRef>, ref: string, conn: Option<bool>): (c: Component)
    ensures Truthy(c.id) <==> Truthy(param.id)
    ensures Truthy(c.id) ==> c.id == param.id
    ensures !Truthy(param.id) ==> c.id == Null
    ensures Truthy(c.labelValue) <==> Truthy(param.labelValue)
    ensures Truthy(c.labelValue) ==> c.labelValue == param.labelValue
    ensures !Truthy(param.labelValue) ==> c.labelValue == Null
    ensures param.prop.None? ==> c.prop == map[]
    ensures param.prop.Some? ==> c.prop == param.prop.value
    ensures param.computed.None? ==> c.computed == map[]
    ensures param.computed.Some? ==> c.computed == param.computed.value
    ensures param.meta.None? ==> c.meta == map[]
    ensures param.meta.Some? ==> c.meta == param.meta.value
    ensures c.debug == param.debug
    ensures c.parent == g && c.ctype == ctype
  {
    Component(ref, ctype, g, param.debug, OrElse(param.id, Null), OrElse(param.labelValue, Null),
              if param.prop.Some? then param.prop.value else map[],
              if param.computed.Some? then param.computed.value else map[],
              if param.meta.Some? then param.meta.value else map[],
              conn)
  }

  /** `this.__parentGraph.getLabel()`. */
  function ParentLabel(c: Component): JsValue {
    if c.parent.Some? then c.parent.value.graphLabel else c.labelValue
  }

  /** `this.__parentGraph.__conn._isBulkOpen`, or None when there is no connection to read it from. */
  function ParentBulkOpen(c: Component): Option<bool> {
    if c.parent.Some? then c.parent.value.bulkOpen else c.conn
  }

  /** `_validatePropAndVal(prop, value)`: the name is checked before the value. */
  function ValidatePropAndVal(prop: JsValue, value: JsValue): (r: Option<ComponentError>)
    ensures r.None? <==> prop.Str? && AcceptedValue(value)
    ensures r == Some(PropNameNotString) <==> !prop.Str?
  {
    if !prop.Str? then Some(PropNameNotString)
    else if !AcceptedValue(value) then Some(PropValueRejected)
    else None
  }

  /** `_validateAlgoType(algo)`. */
  function ValidateAlgoType(algo: JsValue): (r: Option<ComponentError>)
    ensures r.None? <==> algo.Str?
    ensures r.Some? ==> r.value == AlgoNameNotString
  {
    if algo.Str? then None else Some(AlgoNameNotString)
  }

  /** `setProperty(prop, value)`. */
  function SetProperty(c: Component, prop: JsValue, value: JsValue): (r: Outcome<Component>)
    ensures r.Returns? <==> prop.Str? && AcceptedValue(value)
    ensures r.Returns? ==> r.value.prop == c.prop[prop.s := value]
    ensures r.Returns? ==> r.value == c.(prop := r.value.prop)
  {
    match ValidatePropAndVal(prop, value)
    case Some(e) => Throws(e)
    case None => Returns(c.(prop := c.prop[prop.s := value]))
  }

  /** `getProperty(prop)`: the stored value, `undefined` when absent. */
  function GetProperty(c: Component, prop: JsValue): (r: Outcome<JsValue>)
    ensures r.Throws? <==> !prop.Str?
    ensures r.Throws? ==> r.error == PropNameNotString
  {
    match ValidatePropAndVal(prop, Str(""))
    case Some(e) => Throws(e)
    case None => Returns(if prop.s in c.prop then c.prop[prop.s] else Undefined)
  }

  /** `removeProperty(prop)`. */
  function RemoveProperty(c: Component, prop: JsValue): (r: Outcome<Component>)
    ensures r.Throws? <==> !prop.Str?
    ensures r.Returns? ==> r.value.prop.Keys == c.prop.Keys - {prop.s}
    ensures r.Returns? ==> r.value == c.(prop := r.value.prop)
  {
    match ValidatePropAndVal(prop, Str(""))
    case Some(e) => Throws(e)
    case None => Returns(c.(prop := c.prop - {prop.s}))
  }

  /** `setComputed(algo, prop, value)`: create the algorithm's bucket if absent, then set one entry of it. */
  function SetComputed(c: Component, algo: JsValue, prop: JsValue, value: JsValue): (r: Outcome<Component>)
    ensures r.Returns? <==> algo.Str? && prop.Str? && AcceptedValue(value)
    ensures !algo.Str? ==> r == Throws(AlgoNameNotString)
    ensures r.Returns? ==> r.value == c.(computed := r.value.computed)
    ensures r.Returns? ==> r.value.computed.Keys == c.computed.Keys + {algo.s}
  {
    match ValidateAlgoType(algo)
    case Some(e) => Throws(e)
    case None =>
      match ValidatePropAndVal(prop, value)
      case Some(e) => Throws(e)
      case None =>
        var bucket := if algo.s in c.computed then c.computed[algo.s] else map[];
        Returns(c.(computed := c.computed[algo.s := bucket[prop.s := value]]))
  }

  /** The lookup `getComputed` and `removeComputed` share: a missing algorithm, or a falsy stored value, throws. */
  function LookupComputed(c: Component, algo: JsValue, prop: JsValue): (r: Outcome<JsValue>)
    ensures r.Returns? ==> algo.Str? && prop.Str? && algo.s in c.computed && prop.s in c.computed[algo.s]
    ensures r.Returns? ==> r.value == c.computed[algo.s][prop.s] && Truthy(r.value)
  {
    match ValidateAlgoType(algo)
    case Some(e) => Throws(e)
    case None =>
      match ValidatePropAndVal(prop, Str(""))
      case Some(e) => Throws(e)
      case None =>
        if algo.s !in c.computed then Throws(AlgoNotPresent(algo.s))
        else if prop.s !in c.computed[algo.s] || !Truthy(c.computed[algo.s][prop.s]) then Throws(AlgoPropNotPresent(prop.s))
        else Returns(c.computed[algo.s][prop.s])
  }

  /** `getComputed(algo, prop)`. */
  function GetComputed(c: Component, algo: JsValue, prop: JsValue): (r: Outcome<JsValue>)
    ensures r.Returns? <==>
      algo.Str? && prop.Str? && algo.s in c.computed && prop.s in c.computed[algo.s] && Truthy(c.computed[algo.s][prop.s])
    ensures r.Returns? ==> r.value == c.computed[algo.s][prop.s]
  {
    LookupComputed(c, algo, prop)
  }

  /** `removeComputed(algo, prop)`: delete one entry; the bucket stays, even when emptied. */
  function RemoveComputed(c: Component, algo: JsValue, prop: JsValue): (r: Outcome<Component>)
    ensures r.Returns? <==> GetComputed(c, algo, prop).Returns?
    ensures r.Returns? ==> r.value.computed.Keys == c.computed.Keys
    ensures r.Returns? ==> r.value.computed[algo.s].Keys == c.computed[algo.s].Keys - {prop.s}
    ensures r.Returns? ==> forall a :: a in c.computed && a != algo.s ==> r.value.computed[a] == c.computed[a]
    ensures r.Returns? ==> forall p :: p in r.value.computed[algo.s] ==> r.value.computed[algo.s][p] == c.computed[algo.s][p]
    ensures r.Returns? ==> r.value == c.(computed := r.value.computed)
  {
    match LookupComputed(c, algo, prop)
    case Throws(e) => Throws(e)
    case Returns(_) =>
      Returns(c.(computed := c.computed[algo.s := c.computed[algo.s] - {prop.s}]))
  }

  /** `getMeta(prop)`: the stored value, `undefined` when absent (`Object.freeze` hands its argument back). */
  function GetMeta(c: Component, prop: JsValue): (r: Outcome<JsValue>)
    ensures r.Throws? <==> !prop.Str?
    ensures r.Returns? && prop.s in c.meta ==> r.value == c.meta[prop.s]
    ensures r.Returns? && prop.s !in c.meta ==> r.value == Undefined
  {
    match ValidatePropAndVal(prop, Str(""))
    case Some(e) => Throws(e)
    case None => Returns(if prop.s in c.meta then c.meta[prop.s] else Undefined)
  }

  /** `k.includes('__')`. */
  predicate HasDoubleUnderscore(k: string)
    decreases |k|
  {
    |k| >= 2 && ((k[0] == '_' && k[1] == '_') || HasDoubleUnderscore(k[1..]))
  }

  /** `k.substring(1)`. */
  function DropFirst(k: string): string {
    if |k| == 0 then "" else k[1..]
  }

  /** The own enumerable fields of an instance, in the order the constructor creates them: the `__` ones first. */
  function OwnFields(c: Component): seq<(string, JsValue)> {
    [("__ref", Str(c.ref)), ("__type", c.ctype), ("__parentGraph", Ref(0)), ("__debug", c.debug)] + DataFields(c)
  }

  /** The fields that hold the component's data. */
  function DataFields(c: Component): seq<(string, JsValue)> {
    [("_id", c.id), ("_label", c.labelValue), ("_prop", Object(c.prop)), ("_computed", ComputedObject(c)), ("_meta", Object(c.meta))]
  }

  /** `_computed` as a plain object: one nested object per algorithm. */
  function ComputedObject(c: Component): JsValue {
    Object(map a | a in c.computed :: Object(c.computed[a]))
  }

  /** The `obj` `persist` builds: every field whose name lacks `__`, renamed by dropping its first character; a later field wins a clash. */
  function Serialize(fields: seq<(string, JsValue)>): (obj: map<string, JsValue>)
    decreases |fields|
  {
    if fields == [] then map[]
    else
      var obj := Serialize(fields[..|fields| - 1]);
      var (k, v) := fields[|fields| - 1];
      if HasDoubleUnderscore(k) then obj else obj[DropFirst(k) := v]
  }

  /** A message `persist` or `destroy` hands on (`Message.buildMessage` is not part of this model). */
  datatype Message =
    | PersistMsg(graph: JsValue, ctype: JsValue, obj: map<string, JsValue>)
    | DestroyByType(graph: JsValue, cmpType: string, ftr: JsValue)
    | DestroyById(graph: JsValue, ctype: JsValue, id: JsValue)

  /** Pushed into the open bulk area (the call returns `undefined`), or handed to `_rpc.call` (the call returns its promise). */
  datatype Request = Pushed(apiFunc: string, msg: Message) | Called(apiFunc: string, msg: Message)

  /** `pushOperation` when the bulk area is open, the RPC otherwise; no connection to read the flag from throws. */
  function Dispatch(c: Component, apiFunc: string, msg: Message): (r: Outcome<Request>)
    ensures r.Throws? <==> ParentBulkOpen(c).None?
    ensures r.Returns? ==> r.value.apiFunc == apiFunc && r.value.msg == msg
    ensures r.Returns? ==> (r.value.Pushed? <==> ParentBulkOpen(c) == Some(true))
  {
    match ParentBulkOpen(c)
    case None => Throws(NoConnection)
    case Some(open) => Returns(if open then Pushed(apiFunc, msg) else Called(apiFunc, msg))
  }

  /** The state after a call that may change the component before it throws, and the call's outcome. */
  datatype Persisted = Persisted(state: Component, outcome: Outcome<Request>)

  /** `persist()`. */
  function Persist(c: Component): (p: Persisted)
    ensures !Truthy(ParentLabel(c)) ==> p == Persisted(c, Throws(LabelRequired))
    ensures p.state == c.(id := p.state.id)
    ensures c.ctype == Str("g") && Truthy(ParentLabel(c)) ==> p.state.id == c.labelValue
    ensures c.ctype != Str("g") ==> p.state == c
  {
    if !Truthy(ParentLabel(c)) then Persisted(c, Throws(LabelRequired))
    else
      var s := if c.ctype == Str("g") then c.(id := c.labelValue) else c;
      var msg := PersistMsg(ParentLabel(s), s.ctype, Serialize(OwnFields(s)));
      Persisted(s, Dispatch(s, "ex_persist", msg))
  }

  /** ASCII `toLowerCase` of one character. */
  function LowerChar(ch: char): (r: char)
    ensures 'A' <= ch <= 'Z' ==> r as int == ch as int + 32
    ensures !('A' <= ch <= 'Z') ==> r == ch
  {
    if 'A' <= ch <= 'Z' then (ch as int + 32) as char else ch
  }

  /** `toLowerCase`, on ASCII letters. */
  function Lower(s: string): (r: string)
    ensures |r| == |s|
    decreases |s|
  {
    if s == [] then [] else [LowerChar(s[0])] + Lower(s[1..])
  }

  /**
   * `destroy(cmp, ftr)`: a graph given a component type destroys by type and
   * filter; otherwise a component with an id destroys itself; otherwise it
   * throws. `getFilters` and `_validateCmp` are parameters, the latter
   * answering whether the type is accepted.
   */
  function Destroy(c: Component, cmp: JsValue, ftr: JsValue, getFilters: JsValue -> JsValue, validCmp: JsValue -> bool): (r: Outcome<Request>)
    ensures r.Returns? ==> r.value.apiFunc == "ex_destroy"
    ensures c.ctype == Str("g") && Truthy(cmp) && validCmp(cmp) && cmp.Str? && ParentBulkOpen(c).Some? ==>
      r.Returns? && r.value.msg.DestroyByType? && r.value.msg.cmpType == Lower(cmp.s)
    ensures !(c.ctype == Str("g") && Truthy(cmp)) && Truthy(c.id) && ParentBulkOpen(c).Some? ==>
      r.Returns? && r.value.msg == DestroyById(ParentLabel(c), c.ctype, c.id)
    ensures !(c.ctype == Str("g") && Truthy(cmp)) && !Truthy(c.id) ==> r == Throws(IdRequired)
  {
    var filter := if Truthy(ftr) then getFilters(ftr) else ftr;
    if c.ctype == Str("g") && Truthy(cmp) then
      if !validCmp(cmp) then Throws(ComponentTypeRejected)
      else if !cmp.Str? then Throws(ComponentTypeNotString)
      else Dispatch(c, "ex_destroy", DestroyByType(ParentLabel(c), Lower(cmp.s), filter))
    else if Truthy(c.id) then
      Dispatch(c, "ex_destroy", DestroyById(ParentLabel(c), c.ctype, c.id))
    else
      Throws(IdRequired)
  }
}
