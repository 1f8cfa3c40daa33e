/** The parsed fare-provider response: a JSON value, and the three Python
    operations the result-shaping code applies to it — subscripting with a
    string key (`msg['Id']`), iterating (`for leg in ret['Legs']`) and using a
    value as a dictionary key. Each can raise; the exceptions become `Error`. */
module Messages {

  datatype Json =
    | Null
    | Bool(b: bool)
    | Num(n: real)
    | Str(s: string)
    | Arr(items: seq<Json>)
    | Obj(fields: map<string, Json>)

  /** The exceptions the modelled code can raise. */
  datatype Error =
    | KeyMissing(key: Json)   // KeyError
    | NotSubscriptable        // TypeError: subscripting a non-dict with a string
    | NotIterable             // TypeError: object is not iterable
    | Unhashable              // TypeError: unhashable type (list or dict) as a dict key
    | NotANumber              // float() of a value that is not a number
    | EmptyMin                // ValueError: min() arg is an empty sequence

  datatype Result<T> = Success(value: T) | Failure(error: Error) {
    predicate IsFailure() { Failure? }
    function PropagateFailure<U>(): Result<U> requires Failure? { Failure(error) }
    function Extract(): T requires Success? { value }
  }

  /** `msg[key]` */
  function Get(msg: Json, key: string): (r: Result<Json>)
    ensures r.Success? <==> msg.Obj? && key in msg.fields
    ensures r.Success? ==> r.value == msg.fields[key]
    ensures r.Failure? ==> r.error == if msg.Obj? then KeyMissing(Str(key)) else NotSubscriptable
  {
    match msg
    case Obj(m) => if key in m then Success(m[key]) else Failure(KeyMissing(Str(key)))
    case _ => Failure(NotSubscriptable)
  }

  /** The elements `for x in v` visits, when every visited element is then
      subscripted with a string key (as every loop of the core does): a list
      yields its items; an empty dict or string yields nothing; a non-empty
      dict or string yields strings, whose subscripting fails; scalars are not
      iterable. */
  function Elements(v: Json): (r: Result<seq<Json>>)
    ensures r.Success? <==> v.Arr? || v == Obj(map[]) || v == Str("")
    ensures v.Arr? ==> r == Success(v.items)
    ensures r.Success? && !v.Arr? ==> r.value == []
    ensures r.Failure? ==> r.error == if v.Obj? || v.Str? then NotSubscriptable else NotIterable
  {
    match v
    case Arr(items) => Success(items)
    case Obj(m) => if m == map[] then Success([]) else Failure(NotSubscriptable)
    case Str(s) => if s == "" then Success([]) else Failure(NotSubscriptable)
    case _ => Failure(NotIterable)
  }

  /** Lists and dicts cannot be dictionary keys. */
  predicate Hashable(v: Json) {
    !v.Arr? && !v.Obj?
  }

  /** `float(v)` on the values a JSON decoder produces. */
  function ToFloat(v: Json): (r: Result<real>)
    ensures r.Success? <==> v.Num? || v.Bool?
    ensures v.Num? ==> r == Success(v.n)
    ensures v.Bool? ==> r == Success(if v.b then 1.0 else 0.0)
  {
    match v
    case Num(x) => Success(x)
    case Bool(b) => Success(if b then 1.0 else 0.0)
    case _ => Failure(NotANumber)
  }

  /** `[build(x) for x in items]`: builds one record per item, left to right,
      stopping at the first item whose build raises. */
  function MapAll<R>(items: seq<Json>, build: Json -> Result<R>): Result<seq<R>>
    decreases |items|
  {
    if items == [] then Success([])
    else
      var init :- MapAll(items[..|items| - 1], build);
      var last :- build(items[|items| - 1]);
      Success(init + [last])
  }

  predicate AllBuild<R>(items: seq<Json>, build: Json -> Result<R>) {
    forall i | 0 <= i < |items| :: build(items[i]).Success?
  }

  /** `MapAll` succeeds exactly when every item builds, and then yields one
      record per item, in the items' order. */
  lemma {:induction false} MapAllSuccess<R>(items: seq<Json>, build: Json -> Result<R>)
    ensures MapAll(items, build).Success? <==> AllBuild(items, build)
    ensures MapAll(items, build).Success? ==>
      |MapAll(items, build).value| == |items| &&
      forall i | 0 <= i < |items| :: MapAll(items, build).value[i] == build(items[i]).value
    decreases |items|
  {
    if items != [] {
      var init := items[..|items| - 1];
      MapAllSuccess(init, build);
      assert forall i | 0 <= i < |init| :: init[i] == items[i];
    }
  }

  /** On failure, the error is the one raised by the first item that fails. */
  lemma {:induction false} MapAllFirstError<R>(items: seq<Json>, build: Json -> Result<R>)
    requires MapAll(items, build).Failure?
    ensures exists k | 0 <= k < |items| ::
      build(items[k]).Failure? && AllBuild(items[..k], build) &&
      MapAll(items, build).error == build(items[k]).error
    decreases |items|
  {
    var init := items[..|items| - 1];
    var k := |items| - 1;
    if MapAll(init, build).Failure? {
      MapAllFirstError(init, build);
      var j :| 0 <= j < |init| && build(init[j]).Failure? && AllBuild(init[..j], build) &&
               MapAll(init, build).error == build(init[j]).error;
      assert init[..j] == items[..j];
      assert build(items[j]).Failure? && AllBuild(items[..j], build);
    } else {
      MapAllSuccess(init, build);
      assert items[..k] == init;
      assert build(items[k]).Failure? && AllBuild(items[..k], build);
    }
  }

  /** `msg[keys[0]], msg[keys[1]], ...` read one after the other. */
  function GetAll(msg: Json, keys: seq<string>): (r: Result<seq<Json>>)
    ensures r.Success? ==> |r.value| == |keys|
    decreases |keys|
  {
    if keys == [] then Success([])
    else
      var init :- GetAll(msg, keys[..|keys| - 1]);
      var last :- Get(msg, keys[|keys| - 1]);
      Success(init + [last])
  }

  /** Reading several keys succeeds exactly when `msg` is a dict holding all
      of them, and yields their values in order; otherwise it raises at the
      first key that is absent. */
  lemma {:induction false} GetAllSpec(msg: Json, keys: seq<string>)
    ensures GetAll(msg, keys).Success? <==> keys == [] || (msg.Obj? && forall i | 0 <= i < |keys| :: keys[i] in msg.fields)
    ensures GetAll(msg, keys).Success? ==>
      |GetAll(msg, keys).value| == |keys| &&
      forall i | 0 <= i < |keys| :: GetAll(msg, keys).value[i] == msg.fields[keys[i]]
    ensures keys != [] && !msg.Obj? ==> GetAll(msg, keys) == Failure(NotSubscriptable)
    ensures forall k | 0 <= k < |keys| ::
      msg.Obj? && keys[k] !in msg.fields && (forall j | 0 <= j < k :: keys[j] in msg.fields) ==>
      GetAll(msg, keys) == Failure(KeyMissing(Str(keys[k])))
    decreases |keys|
  {
    if keys != [] {
      var init := keys[..|keys| - 1];
      GetAllSpec(msg, init);
      forall k | 0 <= k < |keys| &&
        msg.Obj? && keys[k] !in msg.fields && (forall j | 0 <= j < k :: keys[j] in msg.fields)
        ensures GetAll(msg, keys) == Failure(KeyMissing(Str(keys[k])))
      {
        if k < |init| {
          assert init[k] == keys[k];
          assert forall j | 0 <= j < k :: init[j] == keys[j];
        } else {
          assert forall j | 0 <= j < |init| :: init[j] == keys[j];
        }
      }
    }
  }
}
