# Tagged unions over an immutable state tree — a Dafny model

This project models `Union`, the factory of the microstates `union` package.
`Union` takes an ordered table of case names and builds the following:

- a base union type;
- one case type per name;
- a dispatcher (the base `initialize`) that routes serialized `{type, value}`
  data to the case named by `type`, or throws an error naming the valid cases;
- an `isX` predicate per case, false on the base prototype and true on the
  case's own prototype;
- a per-case `initialize` that does nothing when the node is already tagged
  with that case, and otherwise re-runs the base dispatch;
- `toT(attrs?)` transitions from every case to every case, including itself;
- a `C.create(payload)` helper per case.

The state-tree engine underneath is treated as a small set of abstract, pure
operations:

- `create(Type, raw)` builds a node of `Type` backed by `raw`, then calls the
  type's `initialize(raw)`;
- `.set` and `.assign` on a field rebuild the root with the same type and call
  `initialize` again;
- what `.state` materialises and what `.assign` merges are function
  parameters (`Unions.Engine`).

Files:

- `results.dfy`: `Result` and `Option`.
- `js_value.dfy`: the JavaScript values the union layer inspects, with
  `typeof`, `== null`, property reads and structural field writes.
- `json_text.dfy`: `Array.prototype.join`, `JSON.stringify` (with the
  own-property key order it writes objects in) and template rendering, used
  to build the dispatch error message. It also holds `split` and a JSON
  string decoder as their inverses.
- `union.dfy`: the factory (`Unions.Union`), dispatch, engine construction,
  the per-case `initialize`, `create`, the `isX` lookup and `toT`.
- `union_properties.dfy`: lemmas relating these operations.
- `maybe.dfy`: the repository's `Maybe` scenario (`Just` / `Nothing`).

An instance is `Inst(cls, raw)`: the case class it is an instance of, plus
its backing raw value (what `valueOf` returns). The predicates come from the
class and the discriminator from the raw value. `Unions.Wf` states the
invariant that ties the two together. Every constructor is proved to
establish it, and every transition to preserve it.

Note the branch direction in `toT(attrs)` (src/index.js:65-70). When the
current payload's materialised state has `typeof` other than `"object"`,
the attributes are merged into it with `assign`. Any other payload is
replaced with `set`. Since `typeof null` is `"object"`, a null payload is
replaced.

## Model

| member | source | states |
|---|---|---|
| Unions.Union | src/index.js:24-84 | The factory succeeds exactly when no case name is `name`, `length`, `prototype`, `caller`, `arguments` or `__proto__`; otherwise it fails at the first such name, where `UnionType[C] = Constructor` throws. On success, for every case `C`, in order: the base prototype's `isC` is false and the case's own `isC` is true; the case is named `C` and registered as `UnionType[C]`; it has a `toT` for every case `T`, itself included. |
| Unions.Dispatch | src/index.js:15-21 | Dispatch succeeds iff the `type` of the argument (read from `{}` when the argument is null or undefined) is non-null and a declared case name. On success the instance belongs to that case and keeps the raw data unchanged. On failure the error is the assertion message for that discriminator. |
| Unions.Create | src/index.js:37-48 | Any construction that succeeds is tagged with its own class and keeps the raw data. Construction through a case type whose tag already matches returns that node as it is. Anything built through the base type belongs to a declared case. |
| Unions.CaseCreate | src/index.js:78-80 | `C.create(p)` always succeeds, with no membership check: the result is of class `C`, tagged `C`, with payload `p`, and well-formed when `C` is declared. |
| Unions.To | src/index.js:57-76 | `toT(attrs)` always yields a well-formed instance of `T`. Fields other than `type` and `value` are unchanged. Without attributes the payload is unchanged. With attributes, the new payload is `assign(old, attrs)` when the old payload's state is not an object, and `attrs` when it is. |
| Unions.DispatchTag | src/index.js:16 | The discriminator of an object argument is its `type` property (the first entry with that key). For any other argument, null and undefined included, it is undefined; a defined discriminator is one of the argument's own properties. |
| Unions.Admissible | src/index.js:17 | An argument is admissible exactly when it is an object whose `type` property reads as a declared case name. Null and undefined are never admissible. |
| Unions.Message | src/index.js:17-18 | The assertion message contains `[` + the comma-joined case names + `]`, and contains every case name. |
| Unions.CaseInitialize | src/index.js:41-47 | A case's `initialize` on a node backed by null or undefined fails reading `type`. A node already tagged with the case is returned as it is. Any other node is re-dispatched on the arguments: it succeeds exactly when they are admissible, with a well-formed instance backed by them, and otherwise fails with the assertion message for their discriminator. |
| Unions.IsFlag | src/index.js:27-35 | In a valid union, among the properties the union installs, `isX` is defined exactly for the declared cases, and is true exactly for the instance's own case. |
| Unions.RebuildTagged | src/index.js:41-46 | Rebuilding an object tagged with a declared case, through any case type, lands on the case named by the tag, with the data untouched. |
| JsValues.TypeOf | src/index.js:66 | `typeof v` is `"object"` exactly for null, arrays and objects. |
| JsonText.Stringify | src/index.js:18 | `JSON.stringify` produces no text exactly for undefined, and the text of a string starts with a double quote. |
| JsonText.PropertyOrder | src/index.js:18 | `JSON.stringify` writes an object's properties in own-property key order: the same properties, array-index keys first in ascending numeric order, then the other keys in insertion order. |
| JsonText.ArrayIndexText | src/index.js:18 | A key is an array index exactly when it is the decimal form, without leading zeros, of an integer below 2^32 - 1. |
| JsonText.PropertyOrderPlain | src/index.js:18 | Without array-index keys, the properties are written in insertion order. |
| JsonText.IndexKeyFirst | src/index.js:18 | The key `"1"` is written before the earlier-inserted key `"b"`. |
| JsonText.UnquoteQuote | src/index.js:18 | The JSON quoting of a string decodes back to that string. |
| JsonText.RenderString | src/index.js:18 | The rendering of a string discriminator is a double-quoted literal whose body is the string's JSON quoting and decodes back to the string. |
| JsonText.JoinContains | src/index.js:18 | Every case name occurs in the comma-joined list of `${types}`. |
| JsonText.SplitJoin | src/index.js:18 | Splitting the comma-joined list on commas gives back the case names, provided no name contains a comma. |
| UnionProperties.MessageQuotesDiscriminator | src/index.js:18 | For a string discriminator, the body of its JSON quoting sits in the message just before the last two characters, and decodes back to the discriminator. |
| UnionProperties.NullishIsRejected | src/index.js:16-18 | Constructing the union from null or undefined fails with the assertion for an undefined `type`, and the message lists the bracketed case names. |
| UnionProperties.PredicatesExclusive | src/index.js:27-35 | On a well-formed instance, `isX` (among the properties the union installs) is defined exactly for the declared cases, and is true iff `X` is the instance's case. |
| UnionProperties.ExactlyOnePredicate | src/index.js:27-35 | Exactly one declared case has its predicate true: the instance's own case. |
| UnionProperties.CaseAgreesWithBase | src/index.js:41-46 | For any non-null data, constructing through a declared case type gives exactly what constructing through the base type gives. The shortcut never changes the outcome. |
| UnionProperties.CaseRejectsNullish | src/index.js:42 | A case type constructed from null or undefined fails reading `type`, before any dispatch. |
| UnionProperties.ToWithoutAttrs | src/index.js:62-73 | Without attributes (undefined or null), `toT` rewrites only the `type` field, to `T`. |
| UnionProperties.ToSameCaseIsIdentity | src/index.js:63 | `toC()` on an instance of case `C` yields an instance equal to the original. |
| UnionProperties.RoundTrip | tests/union.test.js:101-108 | Going to any case and back, without attributes, restores the original instance, payload included. |
| UnionProperties.NullPayloadIsReplaced | src/index.js:64-70 | With attributes, a null payload (materialised as null) takes the `set` branch: the new payload is exactly `attrs`. |
| UnionProperties.ScalarPayloadIsMerged | src/index.js:64-67 | With attributes, a payload that is not null, an array or an object (materialised as itself) takes the `assign` branch. |
| UnionProperties.CreateThenSameCase | src/index.js:78-80 | `C.create(p).toC()` equals `C.create(p)`. |
| Maybe.MaybeRegistry | tests/union.test.js:26-43 | `Just` and `Nothing` are registered under their own names, and each has transitions to both. |
| Maybe.MaybeRejectsMissingValue | tests/union.test.js:22-24 | `create(Maybe)` without a value fails with a message containing `[Just,Nothing]`. |
| Maybe.JustFive | tests/union.test.js:46-62 | `Just.create(5)` is a `Just` tagged `"Just"` holding 5, with `isJust` true and `isNothing` false. |
| Maybe.JustNothingJust | tests/union.test.js:89-108 | `Just.create(5).toNothing()` is a `Nothing`; calling `.toJust()` on it gives back the original `Just` holding 5. |
| Maybe.JustToJust | tests/union.test.js:111-115 | `Just.create().toJust()` equals the instance it started from. |

## Left out

- The `state` getter on the union (src/index.js:8-10). It is an observability passthrough to the engine's `valueOf`.
- The `Base` superclass parameter, `instanceof`, and the `enumerable`, `configurable` and `writable` property flags. `Function.name` is modelled only as "the case type's name is its key".
- The case-definition functions `members[C](UnionType)` and the fields they declare, such as a narrowed `value` type. The model assumes each returns a distinct class that extends the union type and defines no `isX`, `toX` or `initialize` of its own.
- The key order of `Object.keys`, such as integer-like keys coming first. The model takes the ordered list of case names as given.
- Engine internals: materialisation of `.state`, the merge done by `.assign`, and construction of nested typed fields. The first two are parameters of `Unions.Engine`. The last is not modelled.
- Reference identity (`toBe`). The model states value equality of instances.
- Numbers other than safe integers (fractions, numbers of magnitude 2^53 or more, `NaN`, `Infinity`, `-0`), `BigInt`, functions and symbols. `JsValues.Num` holds a safe integer, whose `JSON.stringify` text is its plain decimal form. These values would only matter as payloads or as the offending discriminator in the message.
- `JSON.stringify` of objects with `toJSON` methods, getters, non-enumerable or symbol keys, and cyclic values. An object is its list of own enumerable string-keyed data properties.
- The numeric `increment` transition of the tests (tests/union.test.js:64-73). It exercises the engine's number type, not the union logic.
- Calling `toT` for a `T` that is not a case (a JavaScript TypeError, because the method does not exist). `Unions.To` requires `T` to be declared.
- Unions.To: requires a well-formed instance, tagged with its own declared case and backed by an object. Only such instances can be produced by dispatch, `create` and transitions.
- UnionProperties.PredicatesExclusive: properties inherited from `Object.prototype` (such as `isPrototypeOf`) are not modelled. The `None` case speaks only of the properties the union installs.
- Unions.IsFlag: properties inherited from `Object.prototype` (such as `isPrototypeOf`) are not modelled. The `None` result speaks only of the properties the union installs.
- Strings are sequences of Unicode scalar values, not of UTF-16 code units. A string holding a lone surrogate (such as `'\uD800'`) cannot be represented, so `JSON.stringify`'s `\udxxx` escaping of lone surrogates is not modelled in `JsonText.EscapeChar`.
