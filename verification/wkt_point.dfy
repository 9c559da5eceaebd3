/**
 * `parse_wkt_point` (backend/main.py): finds the first text of the form
 * `POINT (x y)` and returns its two coordinate tokens. It accepts a small
 * subset of the Point tagged text of OGC Well-Known Text (OGC 06-103r4,
 * Simple Feature Access Part 1, section 7): no whitespace inside the
 * parentheses except between the two tokens, and tokens made of the
 * characters `- 0-9 . E e +`. Converting the tokens with `float` is not
 * modelled; the tokens are returned as text.
 */
module WktPoint {
  import opened Wrappers

  /** `\s` of a Python `str` pattern: the characters `str.isspace` accepts. */
  predicate IsSpace(c: char) {
    c == ' ' || ('\t' <= c <= '\r') || ('\U{001C}' <= c <= '\U{001F}')
    || c == '\U{0085}' || c == '\U{00A0}' || c == '\U{1680}'
    || ('\U{2000}' <= c <= '\U{200A}') || c == '\U{2028}' || c == '\U{2029}'
    || c == '\U{202F}' || c == '\U{205F}' || c == '\U{3000}'
  }

  /** The class `[-0-9\.Ee+]`. */
  predicate IsTokenChar(c: char) {
    c == '-' || ('0' <= c <= '9') || c == '.' || c == 'E' || c == 'e' || c == '+'
  }

  datatype CharClass = Space | Token

  /** The two classes are disjoint, so each greedy run stops exactly where the next part begins. */
  lemma ClassesDisjoint(c: char)
    ensures !(IsSpace(c) && IsTokenChar(c))
  {
  }

  predicate InClass(c: char, cls: CharClass) {
    match cls
    case Space => IsSpace(c)
    case Token => IsTokenChar(c)
  }

  /** Every character of `s` is in `cls`. */
  ghost predicate AllIn(s: string, cls: CharClass) {
    s == [] || (InClass(s[0], cls) && AllIn(s[1..], cls))
  }

  /** The length of the longest run of `cls` characters starting at `i`: what a greedy `+` or `*` consumes. */
  function Run(s: string, i: nat, cls: CharClass): (n: nat)
    requires i <= |s|
    ensures i + n <= |s|
    decreases |s| - i
  {
    if i < |s| && InClass(s[i], cls) then 1 + Run(s, i + 1, cls) else 0
  }

  /** The run consists of `cls` characters and cannot be extended. */
  lemma {:induction false} RunMaximal(s: string, i: nat, cls: CharClass)
    requires i <= |s|
    ensures AllIn(s[i..i + Run(s, i, cls)], cls)
    ensures i + Run(s, i, cls) == |s| || !InClass(s[i + Run(s, i, cls)], cls)
    decreases |s| - i
  {
    if i < |s| && InClass(s[i], cls) {
      RunMaximal(s, i + 1, cls);
      var n := Run(s, i, cls);
      assert s[i..i + n][1..] == s[i + 1..i + n];
    }
  }

  /** A run bounded by a character outside the class is exactly the run `Run` finds. */
  lemma {:induction false} RunExact(s: string, i: nat, n: nat, cls: CharClass)
    requires i + n <= |s|
    requires AllIn(s[i..i + n], cls)
    requires i + n == |s| || !InClass(s[i + n], cls)
    ensures Run(s, i, cls) == n
    decreases n
  {
    if n > 0 {
      assert s[i..i + n][0] == s[i];
      assert s[i + 1..i + n] == s[i..i + n][1..];
      RunExact(s, i + 1, n - 1, cls);
    }
  }

  /** The literal `POINT` starts at `i` (compared character by character; the pattern is case-sensitive). */
  predicate KeywordAt(s: string, i: nat) {
    i + 5 <= |s| && s[i] == 'P' && s[i + 1] == 'O' && s[i + 2] == 'I' && s[i + 3] == 'N' && s[i + 4] == 'T'
  }

  /** The parts of one match: the gap after `POINT`, the two tokens and the whitespace between them. */
  datatype PointMatch = PointMatch(gap: string, x: string, sep: string, y: string)

  function PointText(m: PointMatch): string {
    "POINT" + m.gap + "(" + m.x + m.sep + m.y + ")"
  }

  /** The shape `POINT\s*\(tok+\s+tok+\)` demands of the parts. */
  ghost predicate WellFormed(m: PointMatch) {
    && AllIn(m.gap, Space)
    && |m.x| > 0 && AllIn(m.x, Token)
    && |m.sep| > 0 && AllIn(m.sep, Space)
    && |m.y| > 0 && AllIn(m.y, Token)
  }

  /** The text at `i` spells out `m`, part by part. */
  ghost predicate SpelledAt(s: string, i: nat, m: PointMatch) {
    var open := i + 5 + |m.gap|;
    var xEnd := open + 1 + |m.x|;
    var yStart := xEnd + |m.sep|;
    var close := yStart + |m.y|;
    && close < |s|
    && KeywordAt(s, i) && s[i + 5..open] == m.gap && s[open] == '('
    && s[open + 1..xEnd] == m.x && s[xEnd..yStart] == m.sep && s[yStart..close] == m.y
    && s[close] == ')'
  }

  /** The regular expression tried at position `i` (`POINT_RX.match(s, i)`). */
  function MatchAt(s: string, i: nat): (r: Option<PointMatch>)
    requires i <= |s|
    ensures r.Some? ==> KeywordAt(s, i)
  {
    if !KeywordAt(s, i) then None
    else
      var open := i + 5 + Run(s, i + 5, Space);
      if !(open < |s| && s[open] == '(') then None
      else
        var xEnd := open + 1 + Run(s, open + 1, Token);
        var yStart := xEnd + Run(s, xEnd, Space);
        var close := yStart + Run(s, yStart, Token);
        if xEnd == open + 1 || yStart == xEnd || close == yStart || !(close < |s| && s[close] == ')') then None
        else Some(PointMatch(s[i + 5..open], s[open + 1..xEnd], s[xEnd..yStart], s[yStart..close]))
  }

  /** A match has the shape the expression demands and is spelled out by the text at its position. */
  lemma MatchAtSound(s: string, i: nat)
    requires i <= |s| && MatchAt(s, i).Some?
    ensures WellFormed(MatchAt(s, i).value)
    ensures SpelledAt(s, i, MatchAt(s, i).value)
  {
    MatchAtWellFormed(s, i);
  }

  lemma MatchAtWellFormed(s: string, i: nat)
    requires i <= |s| && MatchAt(s, i).Some?
    ensures WellFormed(MatchAt(s, i).value)
  {
    GapShape(s, i);
    XShape(s, i);
    SepShape(s, i);
    YShape(s, i);
  }

  lemma GapShape(s: string, i: nat)
    requires i <= |s| && MatchAt(s, i).Some?
    ensures AllIn(MatchAt(s, i).value.gap, Space)
  {
    RunMaximal(s, i + 5, Space);
  }

  lemma XShape(s: string, i: nat)
    requires i <= |s| && MatchAt(s, i).Some?
    ensures AllIn(MatchAt(s, i).value.x, Token)
  {
    RunMaximal(s, i + 6 + Run(s, i + 5, Space), Token);
  }

  lemma SepShape(s: string, i: nat)
    requires i <= |s| && MatchAt(s, i).Some?
    ensures AllIn(MatchAt(s, i).value.sep, Space)
  {
    var xEnd := i + 6 + Run(s, i + 5, Space) + Run(s, i + 6 + Run(s, i + 5, Space), Token);
    RunMaximal(s, xEnd, Space);
  }

  lemma YShape(s: string, i: nat)
    requires i <= |s| && MatchAt(s, i).Some?
    ensures AllIn(MatchAt(s, i).value.y, Token)
  {
    var xEnd := i + 6 + Run(s, i + 5, Space) + Run(s, i + 6 + Run(s, i + 5, Space), Token);
    RunMaximal(s, xEnd + Run(s, xEnd, Space), Token);
  }

  /** Every well-formed point spelled out at `i` is recognised there, with its parts recovered. */
  lemma PointTextMatches(m: PointMatch, s: string, i: nat)
    requires WellFormed(m) && SpelledAt(s, i, m)
    ensures MatchAt(s, i) == Some(m)
  {
    RunsMatchParts(m, s, i);
  }

  /** Each greedy run in `MatchAt` consumes exactly the corresponding part. */
  lemma RunsMatchParts(m: PointMatch, s: string, i: nat)
    requires WellFormed(m) && SpelledAt(s, i, m)
    ensures Run(s, i + 5, Space) == |m.gap|
    ensures Run(s, i + 6 + |m.gap|, Token) == |m.x|
    ensures Run(s, i + 6 + |m.gap| + |m.x|, Space) == |m.sep|
    ensures Run(s, i + 6 + |m.gap| + |m.x| + |m.sep|, Token) == |m.y|
  {
    PartsBounded(m, s, i);
    GapRun(m, s, i);
    XRun(m, s, i);
    SepRun(m, s, i);
    YRun(m, s, i);
  }

  lemma GapRun(m: PointMatch, s: string, i: nat)
    requires WellFormed(m) && SpelledAt(s, i, m)
    requires !InClass(s[i + 5 + |m.gap|], Space)
    ensures Run(s, i + 5, Space) == |m.gap|
  {
    RunExact(s, i + 5, |m.gap|, Space);
  }

  lemma XRun(m: PointMatch, s: string, i: nat)
    requires WellFormed(m) && SpelledAt(s, i, m)
    requires !InClass(s[i + 6 + |m.gap| + |m.x|], Token)
    ensures Run(s, i + 6 + |m.gap|, Token) == |m.x|
  {
    RunExact(s, i + 6 + |m.gap|, |m.x|, Token);
  }

  lemma SepRun(m: PointMatch, s: string, i: nat)
    requires WellFormed(m) && SpelledAt(s, i, m)
    requires !InClass(s[i + 6 + |m.gap| + |m.x| + |m.sep|], Space)
    ensures Run(s, i + 6 + |m.gap| + |m.x|, Space) == |m.sep|
  {
    RunExact(s, i + 6 + |m.gap| + |m.x|, |m.sep|, Space);
  }

  lemma YRun(m: PointMatch, s: string, i: nat)
    requires WellFormed(m) && SpelledAt(s, i, m)
    requires !InClass(s[i + 6 + |m.gap| + |m.x| + |m.sep| + |m.y|], Token)
    ensures Run(s, i + 6 + |m.gap| + |m.x| + |m.sep|, Token) == |m.y|
  {
    RunExact(s, i + 6 + |m.gap| + |m.x| + |m.sep|, |m.y|, Token);
  }

  /** Each part of a spelled-out point ends at a character outside its class. */
  lemma PartsBounded(m: PointMatch, s: string, i: nat)
    requires WellFormed(m) && SpelledAt(s, i, m)
    ensures !InClass(s[i + 5 + |m.gap|], Space)
    ensures !InClass(s[i + 6 + |m.gap| + |m.x|], Token)
    ensures !InClass(s[i + 6 + |m.gap| + |m.x| + |m.sep|], Space)
    ensures !InClass(s[i + 6 + |m.gap| + |m.x| + |m.sep| + |m.y|], Token)
  {
    var xEnd := i + 6 + |m.gap| + |m.x|;
    var yStart := xEnd + |m.sep|;
    assert s[xEnd] == m.sep[0];
    ClassesDisjoint(s[xEnd]);
    assert s[yStart] == m.y[0];
    ClassesDisjoint(s[yStart]);
  }

  /** `PointText` spells its own parts. */
  lemma PointTextSpelled(m: PointMatch, rest: string)
    ensures SpelledAt(PointText(m) + rest, 0, m)
  {
    var s := PointText(m) + rest;
    var open := 5 + |m.gap|;
    var xEnd := open + 1 + |m.x|;
    var yStart := xEnd + |m.sep|;
    var close := yStart + |m.y|;
    assert s == "POINT" + m.gap + "(" + m.x + m.sep + m.y + ")" + rest;
    assert s[5..open] == m.gap;
    assert s[open] == '(';
    assert s[open + 1..xEnd] == m.x;
    assert s[xEnd..yStart] == m.sep;
    assert s[yStart..close] == m.y;
    assert s[close] == ')';
  }

  /** `POINT_RX.search(s, i)`: the leftmost position from `i` on where the expression matches. */
  function Search(s: string, i: nat): (r: Option<nat>)
    requires i <= |s|
    ensures r.Some? ==> i <= r.value <= |s| && MatchAt(s, r.value).Some?
    ensures r.Some? ==> forall q :: i <= q < r.value ==> MatchAt(s, q).None?
    ensures r.None? <==> forall q :: i <= q <= |s| ==> MatchAt(s, q).None?
    decreases |s| - i
  {
    if MatchAt(s, i).Some? then Some(i)
    else if i == |s| then None
    else Search(s, i + 1)
  }

  /** `p` is the leftmost position where the expression matches. */
  ghost predicate FirstMatchAt(s: string, p: nat) {
    p <= |s| && MatchAt(s, p).Some? && forall q :: 0 <= q < p ==> MatchAt(s, q).None?
  }

  /** `parse_wkt_point(s)`: the two coordinate tokens of the first match, or `None` for `(None, None)`. */
  function ParseWktPoint(s: string): (r: Option<(string, string)>)
    ensures r.None? <==> forall q :: 0 <= q <= |s| ==> MatchAt(s, q).None?
    ensures r.Some? ==> exists p :: FirstMatchAt(s, p) && r.value == (MatchAt(s, p).value.x, MatchAt(s, p).value.y)
  {
    match Search(s, 0)
    case None => None
    case Some(p) => Some((MatchAt(s, p).value.x, MatchAt(s, p).value.y))
  }

  /** A text that begins with a well-formed point yields that point's tokens, whatever follows. */
  lemma LeadingPointParses(m: PointMatch, rest: string)
    requires WellFormed(m)
    ensures ParseWktPoint(PointText(m) + rest) == Some((m.x, m.y))
  {
    PointTextSpelled(m, rest);
    PointTextMatches(m, PointText(m) + rest, 0);
  }

  /** No whitespace is accepted right inside either parenthesis. */
  lemma NoSpaceInsideParens(s: string, i: nat)
    requires i <= |s| && MatchAt(s, i).Some?
    ensures var m := MatchAt(s, i).value;
      var open := i + 5 + |m.gap|;
      var close := open + 1 + |m.x| + |m.sep| + |m.y|;
      && close < |s| && s[open] == '(' && s[close] == ')'
      && IsTokenChar(s[open + 1]) && IsTokenChar(s[close - 1])
  {
    var m := MatchAt(s, i).value;
    MatchAtSound(s, i);
    var open := i + 5 + |m.gap|;
    var yStart := open + 1 + |m.x| + |m.sep|;
    var close := yStart + |m.y|;
    assert s[open + 1] == m.x[0];
    assert s[close - 1] == m.y[|m.y| - 1];
    AllInIndex(m.x, Token, 0);
    AllInIndex(m.y, Token, |m.y| - 1);
  }

  lemma {:induction false} AllInIndex(s: string, cls: CharClass, k: nat)
    requires AllIn(s, cls) && k < |s|
    ensures InClass(s[k], cls)
  {
    if k > 0 {
      AllInIndex(s[1..], cls, k - 1);
    }
  }

  lemma ExampleParses()
    ensures ParseWktPoint("POINT (1.5 -2)") == Some(("1.5", "-2"))
  {
    var m := PointMatch(" ", "1.5", " ", "-2");
    assert WellFormed(m);
    assert PointText(m) + "" == "POINT (1.5 -2)";
    LeadingPointParses(m, "");
  }

  lemma ExampleSpaceAfterParen()
    ensures MatchAt("POINT( 1 2)", 0).None?
  {
  }

  lemma ExampleSpaceBeforeParen()
    ensures MatchAt("POINT(1 2 )", 0).None?
  {
  }
}
