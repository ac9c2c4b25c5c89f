/** Text produced for diagnostics: `Array.prototype.join`, `JSON.stringify`
    and the way a template literal renders a value. */
module JsonText {
  import opened Results
  import opened JsValues

  // ---------------------------------------------------------------------
  // Substrings

  predicate StartsWith(s: string, t: string) {
    |t| <= |s| && s[..|t|] == t
  }

  /** `t` occurs somewhere inside `s`. */
  ghost predicate Contains(s: string, t: string) {
    exists i :: 0 <= i <= |s| && StartsWith(s[i..], t)
  }

  lemma ContainsMiddle(a: string, b: string, c: string)
    ensures Contains(a + b + c, b)
  {
    var s := a + b + c;
    assert s[|a|..] == b + c;
    assert StartsWith(s[|a|..], b);
  }

  lemma ContainsPrefix(s: string, t: string, w: string)
    requires Contains(s, w)
    ensures Contains(s + t, w)
  {
    var i :| 0 <= i <= |s| && StartsWith(s[i..], w);
    assert (s + t)[i..][..|w|] == s[i..][..|w|];
  }

  lemma ContainsTransitive(s: string, t: string, w: string)
    requires Contains(s, t) && Contains(t, w)
    ensures Contains(s, w)
  {
    var i :| 0 <= i <= |s| && StartsWith(s[i..], t);
    var j :| 0 <= j <= |t| && StartsWith(t[j..], w);
    assert s[i..][..|t|] == t;
    assert s[i + j..][..|w|] == t[j..][..|w|];
    assert StartsWith(s[i + j..], w);
  }

  // ---------------------------------------------------------------------
  // Array.prototype.join and its inverse

  /** `xs.join(sep)` for an array of strings. */
  function Join(xs: seq<string>, sep: string): string {
    if |xs| == 0 then ""
    else if |xs| == 1 then xs[0]
    else xs[0] + sep + Join(xs[1..], sep)
  }

  /** `s.split(sep)` for a one-character separator. */
  function Split(s: string, sep: char): (r: seq<string>)
    ensures |r| > 0
  {
    if |s| == 0 then [""]
    else if s[0] == sep then [""] + Split(s[1..], sep)
    else
      var rest := Split(s[1..], sep);
      [[s[0]] + rest[0]] + rest[1..]
  }

  /** Every element of a joined list occurs in the joined text. */
  lemma {:induction false} JoinContains(xs: seq<string>, sep: string, k: string)
    requires k in xs
    ensures Contains(Join(xs, sep), k)
  {
    if |xs| == 1 {
      ContainsMiddle("", k, "");
      assert "" + k + "" == Join(xs, sep);
    } else if xs[0] == k {
      ContainsMiddle("", k, sep + Join(xs[1..], sep));
      assert "" + k + (sep + Join(xs[1..], sep)) == Join(xs, sep);
    } else {
      JoinContains(xs[1..], sep, k);
      ContainsMiddle(xs[0] + sep, Join(xs[1..], sep), "");
      assert xs[0] + sep + Join(xs[1..], sep) + "" == Join(xs, sep);
      ContainsTransitive(Join(xs, sep), Join(xs[1..], sep), k);
    }
  }

  lemma {:induction false} SplitPlain(a: string, sep: char)
    requires sep !in a
    ensures Split(a, sep) == [a]
  {
    if |a| > 0 {
      SplitPlain(a[1..], sep);
      assert [a[0]] + a[1..] == a;
    }
  }

  lemma {:induction false} SplitAtFirst(a: string, sep: char, b: string)
    requires sep !in a
    ensures Split(a + [sep] + b, sep) == [a] + Split(b, sep)
  {
    var s := a + [sep] + b;
    if |a| == 0 {
      assert s[1..] == b;
    } else {
      assert s[1..] == a[1..] + [sep] + b;
      SplitAtFirst(a[1..], sep, b);
      assert [a[0]] + a[1..] == a;
    }
  }

  /** Splitting a comma-joined list on the comma gives the list back,
      provided no element contains the separator. */
  lemma {:induction false} SplitJoin(xs: seq<string>, sep: char)
    requires |xs| > 0
    requires forall x :: x in xs ==> sep !in x
    ensures Split(Join(xs, [sep]), sep) == xs
  {
    if |xs| == 1 {
      SplitPlain(xs[0], sep);
    } else {
      SplitJoin(xs[1..], sep);
      SplitAtFirst(xs[0], sep, Join(xs[1..], [sep]));
      assert [xs[0]] + xs[1..] == xs;
    }
  }

  // ---------------------------------------------------------------------
  // JSON string literals (QuoteJSONString) and their decoding

  function HexDigit(d: int): char
    requires 0 <= d < 16
  {
    if d < 10 then ('0' as int + d) as char else ('a' as int + d - 10) as char
  }

  function HexValue(c: char): (r: Option<int>)
    ensures r.Some? ==> 0 <= r.value < 16
  {
    if '0' <= c <= '9' then Some(c as int - '0' as int)
    else if 'a' <= c <= 'f' then Some(c as int - 'a' as int + 10)
    else if 'A' <= c <= 'F' then Some(c as int - 'A' as int + 10)
    else None
  }

  /** The JSON escape of one character: the two-character escapes for
      quote, backslash, backspace, form feed, newline, carriage return and
      tab; a lower-case `\u00xx` escape for the remaining control
      characters; the character itself otherwise. */
  function EscapeChar(c: char): (r: string)
    ensures |r| > 0
  {
    var n := c as int;
    if c == '"' then ['\\', '"']
    else if c == '\\' then ['\\', '\\']
    else if n == 8 then ['\\', 'b']
    else if n == 9 then ['\\', 't']
    else if n == 10 then ['\\', 'n']
    else if n == 12 then ['\\', 'f']
    else if n == 13 then ['\\', 'r']
    else if n < 0x20 then ['\\', 'u', '0', '0', HexDigit(n / 16), HexDigit(n % 16)]
    else [c]
  }

  /** The body of a JSON string literal for `s` (without the surrounding quotes). */
  function Quote(s: string): string {
    if |s| == 0 then "" else EscapeChar(s[0]) + Quote(s[1..])
  }

  /** The character a two-character JSON escape `\e` stands for. */
  function ShortEscape(e: char): Option<char> {
    if e == '"' then Some('"')
    else if e == '\\' then Some('\\')
    else if e == '/' then Some('/')
    else if e == 'b' then Some(8 as char)
    else if e == 't' then Some(9 as char)
    else if e == 'n' then Some(10 as char)
    else if e == 'f' then Some(12 as char)
    else if e == 'r' then Some(13 as char)
    else None
  }

  function Hex4(h: string): (r: Option<int>)
    requires |h| == 4
    ensures r.Some? ==> 0 <= r.value < 0x10000
  {
    match (HexValue(h[0]), HexValue(h[1]), HexValue(h[2]), HexValue(h[3]))
    case (Some(a), Some(b), Some(c), Some(d)) => Some(((a * 16 + b) * 16 + c) * 16 + d)
    case _ => None
  }

  function Prepend(c: char, rest: Option<string>): Option<string> {
    match rest
    case None => None
    case Some(s) => Some([c] + s)
  }

  /** Decodes the escape sequence at the start of `t` (which begins with a
      backslash): the character it stands for and how many characters it
      spans; None when it is malformed or a `\u` escape names a surrogate. */
  function Unescape(t: string): (r: Option<(char, nat)>)
    requires |t| > 0 && t[0] == '\\'
    ensures r.Some? ==> 2 <= r.value.1 <= |t|
  {
    if |t| < 2 then None
    else if t[1] == 'u' then
      if |t| < 6 then None
      else match Hex4(t[2..6])
        case None => None
        case Some(n) => if n < 0xD800 || 0xE000 <= n then Some((n as char, 6)) else None
    else match ShortEscape(t[1])
      case None => None
      case Some(c) => Some((c, 2))
  }

  /** Decodes the body of a JSON string literal; None when it is malformed
      (a bad escape, or an unescaped quote or control character). */
  function Unquote(t: string): Option<string>
    decreases |t|
  {
    if |t| == 0 then Some("")
    else if t[0] == '\\' then
      match Unescape(t)
      case None => None
      case Some((c, n)) => Prepend(c, Unquote(t[n..]))
    else if t[0] == '"' || (t[0] as int) < 0x20 then None
    else Prepend(t[0], Unquote(t[1..]))
  }

  lemma UnquoteEscapeChar(c: char, rest: string)
    ensures Unquote(EscapeChar(c) + rest) == Prepend(c, Unquote(rest))
  {
  }

  /** Decoding a quoted string gives back exactly the original string, so
      the quoted form identifies it unambiguously. */
  lemma {:induction false} UnquoteQuote(s: string)
    ensures Unquote(Quote(s)) == Some(s)
  {
    if |s| > 0 {
      UnquoteQuote(s[1..]);
      UnquoteEscapeChar(s[0], Quote(s[1..]));
      assert [s[0]] + s[1..] == s;
    }
  }

  // ---------------------------------------------------------------------
  // JSON.stringify

  function Digit(d: int): char
    requires 0 <= d < 10
  {
    ('0' as int + d) as char
  }

  function NatText(n: nat): (r: string)
    ensures |r| > 0
  {
    if n < 10 then [Digit(n)] else NatText(n / 10) + [Digit(n % 10)]
  }

  /** The decimal form of an integer-valued number. */
  function IntText(n: int): string {
    if n < 0 then "-" + NatText(-n) else NatText(n)
  }

  // ---------------------------------------------------------------------
  // Own-property key order (OrdinaryOwnPropertyKeys)

  predicate AllDigits(k: string) {
    forall i :: 0 <= i < |k| ==> '0' <= k[i] <= '9'
  }

  /** The value of a string of decimal digits. */
  function DecimalValue(k: string): nat
    requires AllDigits(k)
  {
    if |k| == 0 then 0 else DecimalValue(k[..|k| - 1]) * 10 + (k[|k| - 1] as int - '0' as int)
  }

  /** The array index a property key denotes: the canonical decimal form of
      an integer below 2^32 - 1, without leading zeros; None for any other key. */
  function ArrayIndex(k: string): Option<nat> {
    if |k| == 0 || !AllDigits(k) || (k[0] == '0' && |k| > 1) then None
    else if DecimalValue(k) < 0xFFFF_FFFF then Some(DecimalValue(k))
    else None
  }

  lemma {:induction false} NatTextCanonical(n: nat)
    ensures AllDigits(NatText(n))
    ensures DecimalValue(NatText(n)) == n
    ensures n > 0 ==> NatText(n)[0] != '0'
  {
    if n >= 10 {
      NatTextCanonical(n / 10);
      var t := NatText(n);
      assert t[..|t| - 1] == NatText(n / 10);
    }
  }

  /** The keys that are array indices are exactly the decimal forms of the
      integers below 2^32 - 1. */
  lemma ArrayIndexText(k: string, n: nat)
    ensures ArrayIndex(k) == Some(n) <==> n < 0xFFFF_FFFF && k == NatText(n)
  {
    if ArrayIndex(k) == Some(n) {
      DecimalText(k);
    }
    if n < 0xFFFF_FFFF && k == NatText(n) {
      NatTextCanonical(n);
    }
  }

  /** A digit string without a leading zero is the decimal form of its value. */
  lemma {:induction false} DecimalText(k: string)
    requires |k| > 0 && AllDigits(k) && (k[0] == '0' ==> |k| == 1)
    ensures NatText(DecimalValue(k)) == k
  {
    var d := k[|k| - 1] as int - '0' as int;
    if |k| > 1 {
      var front := k[..|k| - 1];
      DecimalText(front);
      DecimalPositive(front);
      assert DecimalValue(k) / 10 == DecimalValue(front) && DecimalValue(k) % 10 == d;
      assert [Digit(d)] == [k[|k| - 1]];
      assert k == front + [k[|k| - 1]];
    } else {
      assert [Digit(d)] == k;
    }
  }

  lemma {:induction false} DecimalPositive(k: string)
    requires |k| > 0 && AllDigits(k) && k[0] != '0'
    ensures DecimalValue(k) > 0
  {
    if |k| > 1 {
      DecimalPositive(k[..|k| - 1]);
    }
  }

  /** The sort key of a property: its array index, or -1 for any other key. */
  function Rank(p: Prop): int {
    match ArrayIndex(p.key)
    case Some(i) => i
    case None => -1
  }

  predicate IsIndexed(p: Prop) {
    ArrayIndex(p.key).Some?
  }

  predicate Ascending(ps: seq<Prop>) {
    forall i, j :: 0 <= i < j < |ps| ==> Rank(ps[i]) <= Rank(ps[j])
  }

  /** The properties of `ps` with (`indexed`) or without an array-index key,
      in their original order. */
  function Select(ps: seq<Prop>, indexed: bool): (r: seq<Prop>)
    ensures forall p :: p in r ==> p in ps && IsIndexed(p) == indexed
  {
    if |ps| == 0 then []
    else if IsIndexed(ps[0]) == indexed then [ps[0]] + Select(ps[1..], indexed)
    else Select(ps[1..], indexed)
  }

  lemma {:induction false} SelectSplits(ps: seq<Prop>)
    ensures multiset(Select(ps, true)) + multiset(Select(ps, false)) == multiset(ps)
  {
    if |ps| > 0 {
      SelectSplits(ps[1..]);
      assert ps == [ps[0]] + ps[1..];
    }
  }

  lemma {:induction false} SelectAppend(a: seq<Prop>, b: seq<Prop>, indexed: bool)
    ensures Select(a + b, indexed) == Select(a, indexed) + Select(b, indexed)
  {
    if |a| > 0 {
      SelectAppend(a[1..], b, indexed);
      assert (a + b)[1..] == a[1..] + b;
    } else {
      assert a + b == b;
    }
  }

  lemma {:induction false} SelectNone(ps: seq<Prop>, indexed: bool)
    requires forall p :: p in ps ==> IsIndexed(p) != indexed
    ensures Select(ps, indexed) == []
  {
    if |ps| > 0 {
      SelectNone(ps[1..], indexed);
    }
  }

  lemma {:induction false} SelectAll(ps: seq<Prop>, indexed: bool)
    requires forall p :: p in ps ==> IsIndexed(p) == indexed
    ensures Select(ps, indexed) == ps
  {
    if |ps| > 0 {
      SelectAll(ps[1..], indexed);
      assert ps == [ps[0]] + ps[1..];
    }
  }

  function InsertByIndex(p: Prop, ps: seq<Prop>): (r: seq<Prop>)
    requires Ascending(ps)
    ensures Ascending(r)
    ensures multiset(r) == multiset(ps) + multiset{p}
  {
    if |ps| == 0 then [p]
    else if Rank(p) <= Rank(ps[0]) then
      PrependAscending(p, ps);
      [p] + ps
    else
      assert ps == [ps[0]] + ps[1..];
      var rest := InsertByIndex(p, ps[1..]);
      InsertedAscending(ps[0], p, ps[1..], rest);
      [ps[0]] + rest
  }

  lemma PrependAscending(p: Prop, ps: seq<Prop>)
    requires Ascending(ps) && |ps| > 0 && Rank(p) <= Rank(ps[0])
    ensures Ascending([p] + ps)
  {
    var r := [p] + ps;
    forall i, j | 0 <= i < j < |r| ensures Rank(r[i]) <= Rank(r[j]) {
      if i > 0 {
        assert r[i] == ps[i - 1] && r[j] == ps[j - 1];
      } else {
        assert r[j] == ps[j - 1];
      }
    }
  }

  lemma InsertedAscending(first: Prop, p: Prop, tail: seq<Prop>, rest: seq<Prop>)
    requires Ascending([first] + tail) && Rank(first) < Rank(p)
    requires Ascending(rest) && multiset(rest) == multiset(tail) + multiset{p}
    ensures Ascending([first] + rest)
  {
    forall q | q in rest ensures Rank(first) <= Rank(q) {
      assert q in multiset(tail) + multiset{p};
      if q != p {
        assert q in multiset(tail);
        assert q in tail;
        var k :| 0 <= k < |tail| && tail[k] == q;
        var s := [first] + tail;
        assert s[0] == first && s[k + 1] == q;
        assert Rank(s[0]) <= Rank(s[k + 1]);
      }
    }
    var r := [first] + rest;
    forall i, j | 0 <= i < j < |r| ensures Rank(r[i]) <= Rank(r[j]) {
      if i > 0 {
        assert r[i] == rest[i - 1] && r[j] == rest[j - 1];
      } else {
        assert r[j] in rest;
      }
    }
  }

  /** Insertion sort by array index. */
  function SortByIndex(ps: seq<Prop>): (r: seq<Prop>)
    ensures Ascending(r)
    ensures multiset(r) == multiset(ps)
  {
    if |ps| == 0 then []
    else
      assert ps == [ps[0]] + ps[1..];
      InsertByIndex(ps[0], SortByIndex(ps[1..]))
  }

  /** The order in which an object's own properties are enumerated: the
      array-index keys in ascending numeric order, then the other keys in
      insertion order. */
  function PropertyOrder(ps: seq<Prop>): (r: seq<Prop>)
    ensures multiset(r) == multiset(ps)
    ensures forall p :: p in r ==> p in ps
    ensures forall i, j :: 0 <= i < j < |r| && IsIndexed(r[j]) ==> IsIndexed(r[i]) && Rank(r[i]) <= Rank(r[j])
    ensures Select(r, false) == Select(ps, false)
  {
    var front := SortByIndex(Select(ps, true));
    SelectSplits(ps);
    IndexedFront(ps, front);
    var r := front + Select(ps, false);
    assert forall p :: p in r ==> p in multiset(ps);
    r
  }

  /** Sorted array-index properties followed by the other properties, in
      their original order, is the own-property key order. */
  lemma IndexedFront(ps: seq<Prop>, front: seq<Prop>)
    requires Ascending(front) && multiset(front) == multiset(Select(ps, true))
    ensures forall i, j :: 0 <= i < j < |front + Select(ps, false)| && IsIndexed((front + Select(ps, false))[j]) ==>
      IsIndexed((front + Select(ps, false))[i]) && Rank((front + Select(ps, false))[i]) <= Rank((front + Select(ps, false))[j])
    ensures Select(front + Select(ps, false), false) == Select(ps, false)
  {
    var back := Select(ps, false);
    assert forall p :: p in front ==> IsIndexed(p) by {
      forall p | p in front ensures IsIndexed(p) {
        assert p in multiset(Select(ps, true));
      }
    }
    SelectAppend(front, back, false);
    SelectNone(front, false);
    SelectAll(back, false);
    assert [] + back == back;
    var r := front + back;
    forall i, j | 0 <= i < j < |r| && IsIndexed(r[j])
      ensures IsIndexed(r[i]) && Rank(r[i]) <= Rank(r[j])
    {
      assert r[i] == front[i] && r[j] == front[j];
    }
  }

  /** Without array-index keys, own-property key order is insertion order. */
  lemma PropertyOrderPlain(ps: seq<Prop>)
    requires forall p :: p in ps ==> !IsIndexed(p)
    ensures PropertyOrder(ps) == ps
  {
    var r := PropertyOrder(ps);
    forall p | p in r ensures !IsIndexed(p) {
      assert p in multiset(ps);
    }
    SelectAll(r, false);
    SelectAll(ps, false);
  }

  /** The properties `JSON.stringify` writes: those whose value is not undefined. */
  function Written(props: seq<Prop>): (r: seq<Prop>)
    ensures forall p :: p in r ==> p in props && !p.val.Undefined?
  {
    if |props| == 0 then []
    else if props[0].val.Undefined? then Written(props[1..])
    else [props[0]] + Written(props[1..])
  }

  /** `JSON.stringify(v)` for a value other than undefined. Undefined array
      elements are written as null; undefined properties are skipped; the
      others are written in own-property key order. */
  function Text(v: JsValue): string
    requires !v.Undefined?
    decreases v
  {
    match v
    case Null => "null"
    case Bool(b) => if b then "true" else "false"
    case Num(n) => IntText(n)
    case Str(s) => "\"" + Quote(s) + "\""
    case Arr(items) =>
      "[" + Join(seq(|items|, i requires 0 <= i < |items| =>
                   if items[i].Undefined? then "null" else Text(items[i])), ",") + "]"
    case Obj(props) =>
      var kept := Written(PropertyOrder(props));
      "{" + Join(seq(|kept|, i requires 0 <= i < |kept| =>
                   assert kept[i] in props;
                   "\"" + Quote(kept[i].key) + "\":" + Text(kept[i].val)), ",") + "}"
  }

  /** `JSON.stringify(v)`: no text at all for undefined. */
  function Stringify(v: JsValue): (r: Option<string>)
    ensures r.None? <==> v.Undefined?
    ensures v.Str? ==> r.Some? && StartsWith(r.value, "\"")
  {
    if v.Undefined? then None else Some(Text(v))
  }

  /** An array-index key comes before an earlier-inserted ordinary key. */
  lemma IndexKeyFirst()
    ensures PropertyOrder([Prop("b", Null), Prop("1", Null)]) == [Prop("1", Null), Prop("b", Null)]
  {
    var ps := [Prop("b", Null), Prop("1", Null)];
    assert ArrayIndex("b") == None;
    assert DecimalValue("1") == 1;
    assert ArrayIndex("1") == Some(1);
    var r := PropertyOrder(ps);
    assert Prop("1", Null) in multiset(r) && Prop("b", Null) in multiset(r);
    assert |r| == 2;
  }

  /** How a template literal `${x}` renders the result of `JSON.stringify`. */
  function Render(r: Option<string>): string {
    match r
    case None => "undefined"
    case Some(s) => s
  }

  /** The rendering of a string value is its quoted form, which decodes
      back to the string itself. */
  lemma RenderString(s: string)
    ensures Render(Stringify(Str(s))) == "\"" + Quote(s) + "\""
    ensures var t := Render(Stringify(Str(s)));
      |t| >= 2 && t[0] == '"' && t[|t| - 1] == '"' && Unquote(t[1..|t| - 1]) == Some(s)
  {
    var t := Render(Stringify(Str(s)));
    assert t[1..|t| - 1] == Quote(s);
    UnquoteQuote(s);
  }
}
