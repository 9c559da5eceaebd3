/**
 * The fragment of JavaScript value semantics the pages rely on: parsed JSON
 * payloads, truthiness (`||`, `&&`, the `cond ? a : b` tests), nullish
 * coalescing (`??`), property access with and without optional chaining,
 * strict equality, and `String.prototype.trim`.
 */
module Js {
  import opened Wrappers

  /** A JavaScript value as produced by `JSON.parse` or carried by a posted message. */
  datatype JsValue =
    | Undefined
    | Null
    | Bool(b: bool)
    | Num(n: real)
    | NaN
    | Str(s: string)
    | Arr(items: seq<JsValue>)
    | Obj(fields: map<string, JsValue>)

  /**
   * How a `fetch(...).then(res => res.json())` chain ends: the response
   * arrived with its `ok` flag and parsed body, or the request or the JSON
   * parse failed and the chain's `catch` runs.
   */
  datatype FetchOutcome = Arrived(ok: bool, body: JsValue) | Failed

  /** ECMAScript ToBoolean. */
  predicate Truthy(v: JsValue) {
    match v
    case Undefined | Null | NaN => false
    case Bool(b) => b
    case Num(n) => n != 0.0
    case Str(s) => s != ""
    case Arr(_) | Obj(_) => true
  }

  /** The values `??` and `?.` treat as absent. */
  predicate Nullish(v: JsValue) {
    v.Undefined? || v.Null?
  }

  /** `a || b` */
  function Or(a: JsValue, b: JsValue): JsValue {
    if Truthy(a) then a else b
  }

  /** `a ?? b` */
  function Coalesce(a: JsValue, b: JsValue): JsValue {
    if Nullish(a) then b else a
  }

  /** The value of property `key` of a non-nullish value; missing properties read as `undefined`. */
  function Prop(v: JsValue, key: string): JsValue {
    if v.Obj? && key in v.fields then v.fields[key] else Undefined
  }

  /**
   * `v[i]` on a value that is not `null` or `undefined`: an array element,
   * a one-character string, an object's property named by the index's
   * decimal text; numbers and booleans have no indexed properties.
   */
  function Index(v: JsValue, i: nat): JsValue {
    match v
    case Arr(items) => if i < |items| then items[i] else Undefined
    case Str(s) => if i < |s| then Str([s[i]]) else Undefined
    case Obj(_) => Prop(v, NatText(i))
    case _ => Undefined
  }

  /** `v.key`: reading a property of `null` or `undefined` throws a TypeError (`None`). */
  function Get(v: JsValue, key: string): Option<JsValue> {
    if Nullish(v) then None else Some(Prop(v, key))
  }

  /** `v?.key` */
  function OptGet(v: JsValue, key: string): JsValue {
    if Nullish(v) then Undefined else Prop(v, key)
  }

  /**
   * The list a value stands for where the page expects an array: an
   * array's elements, and the empty list for anything else (so `v || []`
   * gives `[]` for a falsy `v`, and a truthy non-array is read as empty too).
   */
  function ArrayOrEmpty(v: JsValue): seq<JsValue> {
    if v.Arr? then v.items else []
  }

  /**
   * `a === b` on primitive JSON values, where NaN differs from itself.
   * Arrays and objects are compared by structure here; JavaScript compares
   * their references.
   */
  predicate StrictEq(a: JsValue, b: JsValue) {
    !a.NaN? && a == b
  }

  /** The characters `String.prototype.trim` removes (WhiteSpace and LineTerminator). */
  predicate IsTrimSpace(c: char) {
    c == ' ' || c == '\t' || c == '\n' || c == '\r' || c == '\U{000B}' || c == '\U{000C}'
    || c == '\U{00A0}' || c == '\U{1680}' || ('\U{2000}' <= c <= '\U{200A}')
    || c == '\U{2028}' || c == '\U{2029}' || c == '\U{202F}' || c == '\U{205F}'
    || c == '\U{3000}' || c == '\U{FEFF}'
  }

  ghost predicate AllSpace(s: string) {
    forall k :: 0 <= k < |s| ==> IsTrimSpace(s[k])
  }

  /** A string that starts and ends with a character `trim` keeps. */
  ghost predicate Untrimmable(s: string) {
    s == [] || (!IsTrimSpace(s[0]) && !IsTrimSpace(s[|s| - 1]))
  }

  function TrimStart(s: string): string {
    if |s| > 0 && IsTrimSpace(s[0]) then TrimStart(s[1..]) else s
  }

  function TrimEnd(s: string): string {
    if |s| > 0 && IsTrimSpace(s[|s| - 1]) then TrimEnd(s[..|s| - 1]) else s
  }

  /** `s.trim()` */
  function Trim(s: string): (r: string)
    ensures |r| <= |s|
    ensures Untrimmable(r)
    ensures r == [] <==> AllSpace(s)
  {
    TrimStartFacts(s);
    TrimEndFacts(TrimStart(s));
    TrimEnd(TrimStart(s))
  }

  lemma {:induction false} TrimStartFacts(s: string)
    ensures |TrimStart(s)| <= |s|
    ensures TrimStart(s) == [] || !IsTrimSpace(TrimStart(s)[0])
    ensures TrimStart(s) == [] <==> AllSpace(s)
    ensures exists pre :: AllSpace(pre) && s == pre + TrimStart(s)
  {
    if |s| > 0 && IsTrimSpace(s[0]) {
      TrimStartFacts(s[1..]);
      var pre :| AllSpace(pre) && s[1..] == pre + TrimStart(s[1..]);
      assert s == [s[0]] + pre + TrimStart(s);
      assert AllSpace([s[0]] + pre);
    } else {
      assert s == [] + TrimStart(s);
    }
  }

  lemma {:induction false} TrimEndFacts(s: string)
    ensures |TrimEnd(s)| <= |s|
    ensures TrimEnd(s) == [] || !IsTrimSpace(TrimEnd(s)[|TrimEnd(s)| - 1])
    ensures TrimEnd(s) == [] <==> AllSpace(s)
    ensures exists post :: AllSpace(post) && s == TrimEnd(s) + post
    ensures |s| > 0 && !IsTrimSpace(s[0]) ==> |TrimEnd(s)| > 0 && TrimEnd(s)[0] == s[0]
  {
    if |s| > 0 && IsTrimSpace(s[|s| - 1]) {
      var init := s[..|s| - 1];
      TrimEndFacts(init);
      var post :| AllSpace(post) && init == TrimEnd(init) + post;
      assert s == TrimEnd(s) + (post + [s[|s| - 1]]);
      assert AllSpace(post + [s[|s| - 1]]);
      if AllSpace(init) {
        assert AllSpace(s) by {
          forall k | 0 <= k < |s| ensures IsTrimSpace(s[k]) {
            if k < |init| { assert s[k] == init[k]; }
          }
        }
      }
      if |s| > 0 && !IsTrimSpace(s[0]) {
        assert |init| > 0 && init[0] == s[0];
      }
    } else {
      assert s == TrimEnd(s) + [];
    }
  }

  /**
   * `trim` only removes padding: the input is the trimmed text with
   * whitespace before and after it, so case and inner spacing are kept.
   */
  lemma TrimSplits(s: string) returns (pre: string, post: string)
    ensures AllSpace(pre) && AllSpace(post)
    ensures s == pre + Trim(s) + post
  {
    TrimStartFacts(s);
    pre :| AllSpace(pre) && s == pre + TrimStart(s);
    TrimEndFacts(TrimStart(s));
    post :| AllSpace(post) && TrimStart(s) == TrimEnd(TrimStart(s)) + post;
  }

  lemma {:induction false} TrimStartPadded(pre: string, rest: string)
    requires AllSpace(pre)
    requires rest == [] || !IsTrimSpace(rest[0])
    ensures TrimStart(pre + rest) == rest
  {
    if pre != [] {
      assert (pre + rest)[1..] == pre[1..] + rest;
      TrimStartPadded(pre[1..], rest);
    } else {
      assert pre + rest == rest;
    }
  }

  lemma {:induction false} TrimEndPadded(core: string, post: string)
    requires AllSpace(post)
    requires core == [] || !IsTrimSpace(core[|core| - 1])
    ensures TrimEnd(core + post) == core
  {
    if post != [] {
      var s := core + post;
      assert s[..|s| - 1] == core + post[..|post| - 1];
      TrimEndPadded(core, post[..|post| - 1]);
    } else {
      assert core + post == core;
    }
  }

  /**
   * The converse of TrimSplits: padding text that has no surrounding
   * whitespace with whitespace on either side and trimming gives the text back.
   */
  lemma TrimPadded(pre: string, core: string, post: string)
    requires AllSpace(pre) && AllSpace(post)
    requires Untrimmable(core)
    ensures Trim(pre + core + post) == core
  {
    if core == [] {
      assert pre + core + post == pre + post;
      assert AllSpace(pre + post);
      assert Trim(pre + post) == [];
    } else {
      assert pre + core + post == pre + (core + post);
      TrimStartPadded(pre, core + post);
      TrimEndPadded(core, post);
    }
  }

  /** Trimming twice is trimming once. */
  lemma TrimIdempotent(s: string)
    ensures Trim(Trim(s)) == Trim(s)
  {
    TrimPadded([], Trim(s), []);
    assert [] + Trim(s) + [] == Trim(s);
  }

  /** Decimal text of a non-negative integer, as `String(n)` writes it. */
  function NatText(n: nat): string {
    if n < 10 then [Digit(n)] else NatText(n / 10) + [Digit(n % 10)]
  }

  function Digit(d: nat): char
    requires d < 10
  {
    "0123456789"[d]
  }

  lemma {:induction false} NatTextLength(n: nat)
    ensures |NatText(n)| >= 1
    ensures n >= 10 <==> |NatText(n)| >= 2
  {
    if n >= 10 {
      NatTextLength(n / 10);
    }
  }

  lemma {:induction false} NatTextInjective(m: nat, n: nat)
    requires NatText(m) == NatText(n)
    ensures m == n
  {
    NatTextLength(m);
    NatTextLength(n);
    var s := NatText(m);
    if m >= 10 {
      assert s[..|s| - 1] == NatText(m / 10);
      assert s[..|s| - 1] == NatText(n / 10);
      NatTextInjective(m / 10, n / 10);
      assert "0123456789"[m % 10] == "0123456789"[n % 10];
    } else {
      assert "0123456789"[m] == "0123456789"[n];
    }
  }

}
