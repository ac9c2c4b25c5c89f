/** The tagged-union factory: from an ordered list of case names it builds a
    base type and one case type per name, a dispatcher that routes serialized
    `{type, value}` data to the matching case, an `isX` predicate per case,
    a per-case `initialize` shortcut, `toX` transitions between every pair of
    cases and a `create` helper per case.

    The state-tree engine underneath is abstract: constructing a node of a
    type from raw data and then calling that type's `initialize` hook, and
    rebuilding the root with the same type (and calling `initialize` again)
    after a structural `set` or `assign`. What `.state` materialises and what
    `.assign` merges are left as parameters (`Engine`). */
module Unions {
  import opened Results
  import opened JsValues
  import opened JsonText

  /** The errors construction can raise. */
  datatype Error =
    /** The assertion in the base `initialize`: the discriminator is missing or unknown. */
    | InvalidDiscriminator(message: string)
    /** The TypeError of reading `type` off a null or undefined backing value. */
    | NullishRead
    /** The TypeError of registering `UnionType[C] = Constructor` (strict code)
        when `C` names a property of the class that cannot be assigned. */
    | UnassignableStatic(key: string)

  /** A union instance: the case class it is an instance of, and its backing
      raw value (what `valueOf` returns). */
  datatype Inst = Inst(cls: string, raw: JsValue)

  /** A type the engine can be asked to construct: the union's base type or
      the case type registered under a name. */
  datatype Cls = Base | Case(name: string)

  /** What the factory installs on one case type: its display name, its own
      `isX` properties, and the targets `T` it has a `toT` method for. */
  datatype CaseType = CaseType(name: string, flags: map<string, bool>, targets: set<string>)

  /** The union type: its case names in declaration order, the `isX`
      properties of its own prototype, and the registry `UnionType[C]`. */
  datatype UnionType = UnionType(keys: seq<string>, flags: map<string, bool>, cases: map<string, CaseType>) {

    /** The shape the factory gives every union type it returns. */
    predicate Valid() {
      && flags == (map k | k in keys :: false)
      && cases.Keys == (set k | k in keys)
      && forall c :: c in cases ==> cases[c] == CaseType(c, map[c := true], set k | k in keys)
    }
  }

  /** The two engine operations whose internals are not part of this model:
      `state(c, p)` is what `.state` materialises for the `value` field of a
      case-`c` instance whose raw payload is `p`; `assign(p, attrs)` is the raw
      payload `.assign(attrs)` produces from raw payload `p`. */
  datatype Engine = Engine(state: (string, JsValue) -> JsValue, assign: (JsValue, JsValue) -> JsValue)

  /** The `type` field of an instance. */
  function Tag(inst: Inst): JsValue {
    Member(inst.raw, "type")
  }

  /** The raw payload in the `value` field of an instance. */
  function Payload(inst: Inst): JsValue {
    Member(inst.raw, "value")
  }

  /** An instance of a declared case whose backing value is an object tagged
      with that case: the consistency every union instance keeps. */
  predicate Wf(u: UnionType, inst: Inst) {
    inst.cls in u.keys && inst.raw.Obj? && Tag(inst) == Str(inst.cls)
  }

  // ---------------------------------------------------------------------
  // The factory

  /** `Union(members)`, where `keys` is `Object.keys(members)`: for each case,
      in order, the base prototype gets `isC = false`, the case prototype gets
      `isC = true`, the case is named `C`, receives a `toT` for every case `T`
      and is registered as `UnionType[C]`. That registration throws at the
      first case whose name the class cannot be assigned (`Unassignable`). */
  method Union(keys: seq<string>) returns (r: Result<UnionType, Error>)
    ensures r.Success? <==> forall k :: k in keys ==> !Unassignable(k)
    ensures r.Success? ==> r.value.keys == keys && r.value.Valid()
    ensures r.Failure? ==> exists i :: 0 <= i < |keys| && r.error == UnassignableStatic(keys[i])
                                       && Unassignable(keys[i]) && forall j :: 0 <= j < i ==> !Unassignable(keys[j])
  {
    var flags: map<string, bool> := map[];
    var cases: map<string, CaseType> := map[];
    var all := set k | k in keys;
    var i := 0;
    while i < |keys|
      invariant 0 <= i <= |keys|
      invariant flags == (map k | k in keys[..i] :: false)
      invariant cases.Keys == (set k | k in keys[..i])
      invariant forall c :: c in cases ==> cases[c] == CaseType(c, map[c := true], all)
      invariant forall j :: 0 <= j < i ==> !Unassignable(keys[j])
    {
      var c := keys[i];
      if Unassignable(c) {
        return Failure(UnassignableStatic(c));
      }
      assert keys[..i + 1] == keys[..i] + [c];
      flags := flags[c := false];
      cases := cases[c := CaseType(c, map[c := true], all)];
      i := i + 1;
    }
    assert keys[..i] == keys;
    r := Success(UnionType(keys, flags, cases));
  }

  /** The names `UnionType[C] = …` cannot assign in strict code: the class's
      own read-only `name`, `length` and `prototype`; the `caller` and
      `arguments` accessors of `Function.prototype`, whose setter throws; and
      the `__proto__` accessor of `Object.prototype`, whose setter throws
      because the case type already extends the union type and the new
      prototype would close a cycle. */
  predicate Unassignable(key: string) {
    key in ["name", "length", "prototype", "caller", "arguments", "__proto__"]
  }

  // ---------------------------------------------------------------------
  // Construction and dispatch

  /** The discriminator the base `initialize` reads: a null or undefined
      argument is read as `{}`. */
  function DispatchTag(raw: JsValue): (r: JsValue)
    ensures raw.Obj? ==> r == Get(raw.props, "type")
    ensures !raw.Obj? ==> r == Undefined
    ensures !r.Undefined? ==> raw.Obj? && Prop("type", r) in raw.props
  {
    Member(if IsNullish(raw) then Obj([]) else raw, "type")
  }

  /** The condition the base `initialize` asserts: the discriminator is a
      declared case name. */
  predicate Admissible(u: UnionType, raw: JsValue): (b: bool)
    ensures b <==> raw.Obj? && Get(raw.props, "type").Str? && Get(raw.props, "type").s in u.keys
  {
    var t := DispatchTag(raw);
    !IsNullish(t) && t.Str? && t.s in u.keys
  }

  /** The assertion message: the case names comma-joined in brackets, then
      the offending discriminator as `JSON.stringify` writes it. The message
      names every case, and the whole comma-joined list appears in brackets. */
  function Message(keys: seq<string>, t: JsValue): (m: string)
    ensures Contains(m, "[" + Join(keys, ",") + "]")
    ensures forall k :: k in keys ==> Contains(m, k)
  {
    var listing := MessageListing(keys);
    var shown := "'" + Render(Stringify(t)) + "'";
    ContainsPrefix(listing, shown, "[" + Join(keys, ",") + "]");
    assert forall k :: k in keys ==> Contains(listing + shown, k) by {
      forall k | k in keys
        ensures Contains(listing + shown, k)
      {
        ContainsPrefix(listing, shown, k);
      }
    }
    listing + shown
  }

  /** The part of the message before the discriminator. */
  function MessageListing(keys: seq<string>): (m: string)
    ensures Contains(m, "[" + Join(keys, ",") + "]")
    ensures forall k :: k in keys ==> Contains(m, k)
  {
    var list := "[" + Join(keys, ",") + "]";
    var post := ", but it was ";
    ContainsMiddle(MessageHead, list, post);
    ContainsMiddle("[", Join(keys, ","), "]");
    assert forall k :: k in keys ==> Contains(MessageHead + list + post, k) by {
      forall k | k in keys
        ensures Contains(MessageHead + list + post, k)
      {
        JoinContains(keys, ",", k);
        ContainsTransitive(list, Join(keys, ","), k);
        ContainsTransitive(MessageHead + list + post, list, k);
      }
    }
    MessageHead + list + post
  }

  const MessageHead := "when re-structuring a Union type, the 'type' field must be one of "

  function CreateRank(cls: Cls, raw: JsValue): nat {
    match cls
    case Base => 3
    case Case(c) => if !IsNullish(raw) && Tag(Inst(c, raw)) == Str(c) then 1 else 4
  }

  /** The base `initialize`: route the raw data to the case its `type`
      names, constructing it through that case type. */
  function Dispatch(u: UnionType, raw: JsValue): (r: Result<Inst, Error>)
    ensures r.Success? <==> Admissible(u, raw)
    ensures r.Success? ==> r.value.cls == DispatchTag(raw).s && r.value.raw == raw && Wf(u, r.value)
    ensures r.Failure? ==> r.error == InvalidDiscriminator(Message(u.keys, DispatchTag(raw)))
    decreases 2
  {
    var t := DispatchTag(raw);
    if !IsNullish(t) && t.Str? && t.s in u.keys then
      Create(u, Case(t.s), raw)
    else
      Failure(InvalidDiscriminator(Message(u.keys, t)))
  }

  /** The `initialize` installed on case `c`, called on node `self` with the
      arguments `args`: nothing to do when the node is already tagged `c`,
      the base dispatch otherwise. */
  function CaseInitialize(u: UnionType, c: string, self: Inst, args: JsValue): (r: Result<Inst, Error>)
    ensures IsNullish(self.raw) ==> r == Failure(NullishRead)
    ensures !IsNullish(self.raw) ==> (r.Success? <==> Tag(self) == Str(c) || Admissible(u, args))
    ensures !IsNullish(self.raw) && Tag(self) == Str(c) ==> r == Success(self)
    ensures !IsNullish(self.raw) && Tag(self) != Str(c) ==>
              && (r.Success? ==> r.value.raw == args && Wf(u, r.value))
              && (r.Failure? ==> r.error == InvalidDiscriminator(Message(u.keys, DispatchTag(args))))
    decreases if !IsNullish(self.raw) && Tag(self) == Str(c) then 0 else 3
  {
    if IsNullish(self.raw) then Failure(NullishRead)
    else if Tag(self) == Str(c) then Success(self)
    else Dispatch(u, args)
  }

  /** The engine's `create(Type, raw)`: a node of the type backed by `raw`,
      finished by the type's `initialize(raw)`. */
  function Create(u: UnionType, cls: Cls, raw: JsValue): (r: Result<Inst, Error>)
    ensures r.Success? ==> r.value.raw == raw && Tag(r.value) == Str(r.value.cls)
    ensures r.Success? && cls.Base? ==> Wf(u, r.value)
    ensures r.Success? && cls.Case? ==> r.value.cls == cls.name || Wf(u, r.value)
    ensures cls.Case? && !IsNullish(raw) && Tag(Inst(cls.name, raw)) == Str(cls.name) ==> r == Success(Inst(cls.name, raw))
    decreases CreateRank(cls, raw)
  {
    match cls
    case Base => Dispatch(u, raw)
    case Case(c) => CaseInitialize(u, c, Inst(c, raw), raw)
  }

  /** `C.create(payload)`: construct case `c` from `{type: c, value: payload}`. */
  function CaseCreate(u: UnionType, c: string, payload: JsValue): (r: Result<Inst, Error>)
    ensures r.Success? && r.value.cls == c
    ensures Tag(r.value) == Str(c) && Payload(r.value) == payload
    ensures c in u.keys ==> Wf(u, r.value)
  {
    var raw := Obj([Prop("type", Str(c)), Prop("value", payload)]);
    assert Get(raw.props[1..], "value") == payload;
    Create(u, Case(c), raw)
  }

  // ---------------------------------------------------------------------
  // Predicates

  /** `inst.isX`, looked up along the prototype chain: the case prototype's
      own properties first, then the union prototype's; None when neither
      defines it (properties inherited from `Object.prototype` are not
      modelled). In a valid union, among the properties the union installs,
      `isX` exists exactly for the declared cases and is true exactly for the
      instance's own case. */
  function IsFlag(u: UnionType, inst: Inst, x: string): (r: Option<bool>)
    requires inst.cls in u.cases
    ensures u.Valid() ==> (r.Some? <==> x in u.keys)
    ensures u.Valid() && x in u.keys ==> (r == Some(true) <==> x == inst.cls)
  {
    var own := u.cases[inst.cls].flags;
    if x in own then Some(own[x])
    else if x in u.flags then Some(u.flags[x])
    else None
  }

  // ---------------------------------------------------------------------
  // Transitions

  /** `inst.toT(attrs)`: rebuild with the `type` field set to `target`; with
      attributes, a current payload whose materialised state is not of type
      "object" is merged with `assign`, one that is (null included) is
      replaced with `set`. */
  function To(u: UnionType, eng: Engine, inst: Inst, target: string, attrs: JsValue): (r: Result<Inst, Error>)
    requires Wf(u, inst)
    requires target in u.keys
    ensures r.Success? && Wf(u, r.value) && r.value.cls == target
    ensures forall k :: k != "type" && k != "value" ==> Member(r.value.raw, k) == Member(inst.raw, k)
    ensures IsNullish(attrs) ==> Payload(r.value) == Payload(inst)
    ensures (!IsNullish(attrs) && TypeOf(eng.state(inst.cls, Payload(inst))) != "object")
              ==> Payload(r.value) == eng.assign(Payload(inst), attrs)
    ensures (!IsNullish(attrs) && TypeOf(eng.state(inst.cls, Payload(inst))) == "object")
              ==> Payload(r.value) == attrs
  {
    var retagged := SetField(inst.raw, "type", Str(target));
    RetaggedFields(inst.raw, "type", Str(target));
    RebuildTagged(u, inst.cls, retagged, target);
    var moved := Create(u, Case(inst.cls), retagged);
    if IsNullish(attrs) then moved
    else match moved
      case Failure(e) => Failure(e)
      case Success(t) =>
        var current := eng.state(inst.cls, Payload(inst));
        var payload := if TypeOf(current) != "object" then eng.assign(Payload(t), attrs) else attrs;
        var refilled := SetField(t.raw, "value", payload);
        RetaggedFields(t.raw, "value", payload);
        RebuildTagged(u, t.cls, refilled, target);
        Create(u, Case(t.cls), refilled)
  }

  /** A field write on an object changes that field and no other. */
  lemma RetaggedFields(raw: JsValue, key: string, val: JsValue)
    requires raw.Obj?
    ensures Member(SetField(raw, key, val), key) == val
    ensures forall k :: k != key ==> Member(SetField(raw, key, val), k) == Member(raw, k)
  {
    forall k {
      GetSetProp(raw.props, key, val, k);
    }
  }

  /** Rebuilding an object tagged with a declared case, through any case
      type, lands on the case the tag names with the data untouched: either
      the case type already matches, or its `initialize` re-dispatches. */
  lemma RebuildTagged(u: UnionType, c: string, raw: JsValue, t: string)
    requires t in u.keys && raw.Obj? && Tag(Inst(t, raw)) == Str(t)
    ensures Create(u, Case(c), raw) == Success(Inst(t, raw))
  {
  }
}
