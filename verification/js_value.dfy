/** The slice of JavaScript values the union layer inspects: serialized data
    handed to `initialize`, payloads and transition attributes. */
module JsValues {

  /** The integers a JavaScript number holds exactly (`Number.isSafeInteger`). */
  type SafeInt = n: int | -0x1F_FFFF_FFFF_FFFF <= n <= 0x1F_FFFF_FFFF_FFFF

  /** A JavaScript value. Numbers are restricted to safe integers; an object
      is its list of own enumerable properties in insertion order. */
  datatype JsValue =
    | Undefined
    | Null
    | Bool(b: bool)
    | Num(n: SafeInt)
    | Str(s: string)
    | Arr(items: seq<JsValue>)
    | Obj(props: seq<Prop>)

  /** One own property of an object. */
  datatype Prop = Prop(key: string, val: JsValue)

  /** `v == null`: loose equality with null holds for null and undefined only. */
  predicate IsNullish(v: JsValue) {
    v.Undefined? || v.Null?
  }

  /** The `typeof` operator; note that `typeof null` is "object". */
  function TypeOf(v: JsValue): (r: string)
    ensures r == "object" <==> v.Null? || v.Arr? || v.Obj?
  {
    match v
    case Undefined => "undefined"
    case Null => "object"
    case Bool(_) => "boolean"
    case Num(_) => "number"
    case Str(_) => "string"
    case Arr(_) => "object"
    case Obj(_) => "object"
  }

  predicate HasKey(props: seq<Prop>, key: string) {
    exists p :: p in props && p.key == key
  }

  /** Property lookup; a missing property reads as undefined. */
  function Get(props: seq<Prop>, key: string): (r: JsValue)
    ensures !HasKey(props, key) ==> r == Undefined
    ensures !r.Undefined? ==> HasKey(props, key) && Prop(key, r) in props
  {
    if |props| == 0 then Undefined
    else if props[0].key == key then props[0].val
    else Get(props[1..], key)
  }

  /** Property assignment `o[key] = val`: an existing property keeps its
      position and takes the new value, a new one is appended. */
  function SetProp(props: seq<Prop>, key: string, val: JsValue): (r: seq<Prop>)
    ensures HasKey(r, key)
  {
    if |props| == 0 then [Prop(key, val)]
    else if props[0].key == key then [Prop(key, val)] + props[1..]
    else [props[0]] + SetProp(props[1..], key, val)
  }

  /** `v.key` on a value that is not null or undefined: only objects carry
      the properties the union layer reads. */
  function Member(v: JsValue, key: string): JsValue {
    if v.Obj? then Get(v.props, key) else Undefined
  }

  /** Structural replacement of one field of an object-shaped value. */
  function SetField(v: JsValue, key: string, val: JsValue): (r: JsValue)
    requires v.Obj?
    ensures r.Obj?
  {
    Obj(SetProp(v.props, key, val))
  }

  /** Reading a property right after writing it sees the written value;
      every other property reads as before. */
  lemma {:induction false} GetSetProp(props: seq<Prop>, key: string, val: JsValue, other: string)
    ensures Get(SetProp(props, key, val), other) == if other == key then val else Get(props, other)
  {
    if |props| > 0 && props[0].key != key {
      GetSetProp(props[1..], key, val, other);
    }
  }

  /** A second write of the same property overrides the first entirely. */
  lemma {:induction false} SetPropTwice(props: seq<Prop>, key: string, v1: JsValue, v2: JsValue)
    ensures SetProp(SetProp(props, key, v1), key, v2) == SetProp(props, key, v2)
  {
    if |props| > 0 && props[0].key != key {
      SetPropTwice(props[1..], key, v1, v2);
    }
  }

  /** Writing the value a property already holds leaves the object as it was. */
  lemma {:induction false} SetPropSame(props: seq<Prop>, key: string, val: JsValue)
    requires Get(props, key) == val && !val.Undefined?
    ensures SetProp(props, key, val) == props
  {
    if props[0].key != key {
      SetPropSame(props[1..], key, val);
    }
  }
}
