/** Properties relating the union operations to each other: dispatch and
    its error message, the exclusivity of the `isX` predicates, the per-case
    `initialize` shortcut, and transitions. */
module UnionProperties {
  import opened Results
  import opened JsValues
  import opened JsonText
  import opened Unions

  /** When the offending discriminator is a string, its JSON-quoted body
      sits in the message just before the last two characters (the closing
      double and single quote), and decodes back to the discriminator. */
  lemma MessageQuotesDiscriminator(keys: seq<string>, s: string)
    ensures var m := Message(keys, Str(s));
      var q := Quote(s);
      && |m| >= |q| + 4
      && m[|m| - |q| - 2..|m| - 2] == q
      && Unquote(q) == Some(s)
  {
    MessageEndsWithQuote(keys, s);
    QuotedTail(Message(keys, Str(s)), MessageListing(keys), Quote(s));
    UnquoteQuote(s);
  }

  /** A string discriminator is shown as its JSON literal in single quotes. */
  lemma MessageEndsWithQuote(keys: seq<string>, s: string)
    ensures Message(keys, Str(s)) == MessageListing(keys) + ("'" + ("\"" + Quote(s) + "\"") + "'")
  {
    var shown := Render(Stringify(Str(s)));
    assert Message(keys, Str(s)) == MessageListing(keys) + ("'" + shown + "'");
    RenderString(s);
  }

  lemma QuotedTail(m: string, head: string, q: string)
    requires m == head + ("'" + ("\"" + q + "\"") + "'")
    ensures |m| == |head| + |q| + 4
    ensures m[|m| - |q| - 2..|m| - 2] == q
  {
  }

  /** Constructing the union type itself from null or undefined fails the
      discriminator check, and the error lists the case names. */
  lemma NullishIsRejected(u: UnionType, raw: JsValue)
    requires IsNullish(raw)
    ensures Create(u, Base, raw) == Failure(InvalidDiscriminator(Message(u.keys, Undefined)))
    ensures Contains(Message(u.keys, Undefined), "[" + Join(u.keys, ",") + "]")
  {
  }

  /** For a well-formed instance, `isX` is defined exactly for the declared
      cases, and true only for the instance's own case. */
  lemma PredicatesExclusive(u: UnionType, inst: Inst, x: string)
    requires u.Valid() && Wf(u, inst)
    ensures IsFlag(u, inst, x) == if x in u.keys then Some(x == inst.cls) else None
  {
  }

  /** Exactly one declared case has its predicate true: the instance's own. */
  lemma ExactlyOnePredicate(u: UnionType, inst: Inst)
    requires u.Valid() && Wf(u, inst)
    ensures (set x | x in u.keys && IsFlag(u, inst, x) == Some(true)) == {inst.cls}
  {
  }

  /** The per-case `initialize` shortcut never changes the outcome: for any
      non-null data, constructing through a declared case type gives what
      constructing through the base type gives. */
  lemma CaseAgreesWithBase(u: UnionType, c: string, raw: JsValue)
    requires c in u.keys && !IsNullish(raw)
    ensures Create(u, Case(c), raw) == Create(u, Base, raw)
  {
  }

  /** Constructing a case type from null or undefined fails on the read of
      `type`, before any dispatch. */
  lemma CaseRejectsNullish(u: UnionType, c: string, raw: JsValue)
    requires IsNullish(raw)
    ensures Create(u, Case(c), raw) == Failure(NullishRead)
  {
  }

  /** A transition without attributes only rewrites the tag. */
  lemma ToWithoutAttrs(u: UnionType, eng: Engine, inst: Inst, target: string, attrs: JsValue)
    requires Wf(u, inst) && target in u.keys && IsNullish(attrs)
    ensures To(u, eng, inst, target, attrs) == Success(Inst(target, SetField(inst.raw, "type", Str(target))))
  {
  }

  /** `toC()` on an instance of case `C` gives back an equal instance. */
  lemma ToSameCaseIsIdentity(u: UnionType, eng: Engine, inst: Inst, attrs: JsValue)
    requires Wf(u, inst) && IsNullish(attrs)
    ensures To(u, eng, inst, inst.cls, attrs) == Success(inst)
  {
    ToWithoutAttrs(u, eng, inst, inst.cls, attrs);
    SetPropSame(inst.raw.props, "type", Str(inst.cls));
  }

  /** Going to another case and back without attributes restores the
      original instance, payload included. */
  lemma RoundTrip(u: UnionType, eng: Engine, inst: Inst, other: string, a1: JsValue, a2: JsValue)
    requires Wf(u, inst) && other in u.keys && IsNullish(a1) && IsNullish(a2)
    ensures var there := To(u, eng, inst, other, a1).value;
      To(u, eng, there, inst.cls, a2) == Success(inst)
  {
    ToWithoutAttrs(u, eng, inst, other, a1);
    var there := To(u, eng, inst, other, a1).value;
    ToWithoutAttrs(u, eng, there, inst.cls, a2);
    SetPropTwice(inst.raw.props, "type", Str(other), Str(inst.cls));
    SetPropSame(inst.raw.props, "type", Str(inst.cls));
  }

  /** With attributes, a null payload takes the replacing branch, because
      `typeof null` is "object" (when the engine materialises null as null). */
  lemma NullPayloadIsReplaced(u: UnionType, eng: Engine, inst: Inst, target: string, attrs: JsValue)
    requires Wf(u, inst) && target in u.keys && !IsNullish(attrs)
    requires Payload(inst) == Null && eng.state(inst.cls, Null) == Null
    ensures To(u, eng, inst, target, attrs).value.cls == target
    ensures Payload(To(u, eng, inst, target, attrs).value) == attrs
  {
  }

  /** With attributes, a scalar or missing payload (materialised as itself)
      takes the merging branch. */
  lemma ScalarPayloadIsMerged(u: UnionType, eng: Engine, inst: Inst, target: string, attrs: JsValue)
    requires Wf(u, inst) && target in u.keys && !IsNullish(attrs)
    requires eng.state(inst.cls, Payload(inst)) == Payload(inst)
    requires !(Payload(inst).Null? || Payload(inst).Arr? || Payload(inst).Obj?)
    ensures Payload(To(u, eng, inst, target, attrs).value) == eng.assign(Payload(inst), attrs)
  {
  }

  /** `C.create(p)` followed by `toC()` is the same instance: creating
      already yields a value tagged `C`. */
  lemma CreateThenSameCase(u: UnionType, eng: Engine, c: string, payload: JsValue, attrs: JsValue)
    requires c in u.keys && IsNullish(attrs)
    ensures To(u, eng, CaseCreate(u, c, payload).value, c, attrs) == CaseCreate(u, c, payload)
  {
    ToSameCaseIsIdentity(u, eng, CaseCreate(u, c, payload).value, attrs);
  }
}
