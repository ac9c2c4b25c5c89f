/** The two-case `Maybe` union of the repository's tests (`Just` carrying a
    number, `Nothing`), stated over the model. */
module Maybe {
  import opened Results
  import opened JsValues
  import opened JsonText
  import opened Unions
  import opened UnionProperties

  predicate IsMaybe(u: UnionType) {
    u.Valid() && u.keys == ["Just", "Nothing"]
  }

  /** Both cases are registered under their own names, each with a
      transition to both cases. */
  lemma MaybeRegistry(u: UnionType)
    requires IsMaybe(u)
    ensures "Just" in u.cases && u.cases["Just"].name == "Just"
    ensures "Nothing" in u.cases && u.cases["Nothing"].name == "Nothing"
    ensures u.cases["Just"].targets == {"Just", "Nothing"} == u.cases["Nothing"].targets
  {
  }

  /** `create(Maybe)` with no value throws, naming `[Just,Nothing]`. */
  lemma MaybeRejectsMissingValue(u: UnionType)
    requires IsMaybe(u)
    ensures var r := Create(u, Base, Undefined);
      r.Failure? && r.error.InvalidDiscriminator? && Contains(r.error.message, "[Just,Nothing]")
  {
    NullishIsRejected(u, Undefined);
    MaybeList();
  }

  lemma MaybeList()
    ensures "[" + Join(["Just", "Nothing"], ",") + "]" == "[Just,Nothing]"
  {
    assert ["Just", "Nothing"][1..] == ["Nothing"];
  }

  /** `Just.create(5)` is a `Just` holding 5, and not a `Nothing`. */
  lemma JustFive(u: UnionType)
    requires IsMaybe(u)
    ensures var j := CaseCreate(u, "Just", Num(5)).value;
      && j.cls == "Just" && Tag(j) == Str("Just") && Payload(j) == Num(5)
      && IsFlag(u, j, "Just") == Some(true) && IsFlag(u, j, "Nothing") == Some(false)
  {
  }

  /** `Just.create(5).toNothing()` is a `Nothing`, and `.toJust()` after it
      is a `Just` holding 5 again. */
  lemma JustNothingJust(u: UnionType, eng: Engine)
    requires IsMaybe(u)
    ensures var j := CaseCreate(u, "Just", Num(5)).value;
      var n := To(u, eng, j, "Nothing", Undefined).value;
      && n.cls == "Nothing" && IsFlag(u, n, "Nothing") == Some(true)
      && To(u, eng, n, "Just", Undefined) == Success(j)
      && Payload(To(u, eng, n, "Just", Undefined).value) == Num(5)
  {
    var j := CaseCreate(u, "Just", Num(5)).value;
    RoundTrip(u, eng, j, "Nothing", Undefined, Undefined);
    var n := To(u, eng, j, "Nothing", Undefined).value;
    PredicatesExclusive(u, n, "Nothing");
  }

  /** `Just.create().toJust()` is the instance it started from. */
  lemma JustToJust(u: UnionType, eng: Engine)
    requires IsMaybe(u)
    ensures var j := CaseCreate(u, "Just", Undefined);
      To(u, eng, j.value, "Just", Undefined) == j
  {
    CreateThenSameCase(u, eng, "Just", Undefined, Undefined);
  }
}
