/**
 * `escapeHtml` (utils/htmlGenerator.ts, and its copy in App.tsx): a chain of
 * five global replacements, `&` first, then `<`, `>`, `"` and `'`. The chain
 * is proved equal to a per-character escape, which is then shown to leave no
 * raw special character behind and to be undone by decoding the five entities.
 */
module HtmlEscape {
  import opened Wrappers
  import opened Text

  /** `s.replace(/c/g, rep)`: every occurrence of `c` replaced by `rep`. */
  function ReplaceAll(s: string, c: char, rep: string): (r: string)
    ensures c !in s ==> r == s
  {
    if s == [] then []
    else (if s[0] == c then rep else [s[0]]) + ReplaceAll(s[1..], c, rep)
  }

  /** The five replacements, in the order the source performs them. */
  function EscapeChain(s: string): string {
    ReplaceAll(ReplaceAll(ReplaceAll(ReplaceAll(ReplaceAll(s, '&', "&amp;"), '<', "&lt;"), '>', "&gt;"), '"', "&quot;"), '\'', "&#039;")
  }

  /** The entity that stands for one character, or the character itself. */
  function EscapeChar(c: char): (r: string)
    ensures |r| >= 1
  {
    match c
    case '&' => "&amp;"
    case '<' => "&lt;"
    case '>' => "&gt;"
    case '"' => "&quot;"
    case '\'' => "&#039;"
    case _ => [c]
  }

  /** Escaping character by character: the reference the chain is compared with. */
  function EscapeMap(s: string): (r: string)
    ensures |r| >= |s|
  {
    if s == [] then [] else EscapeChar(s[0]) + EscapeMap(s[1..])
  }

  /**
   * `escapeHtml(unsafe)`: the empty string for a value that is not a string
   * (`undefined` here), the five replacements otherwise.
   */
  function EscapeHtml(unsafe: Option<string>): (r: string)
    ensures unsafe.None? ==> r == ""
    ensures unsafe.Some? ==> r == EscapeMap(unsafe.value)
  {
    if unsafe.None? then ""
    else
      ChainIsPerCharacter(unsafe.value);
      EscapeChain(unsafe.value)
  }

  /** Concatenation regroups: `(x + y) + z == x + (y + z)`, on plain strings. */
  lemma Regroup(x: string, y: string, z: string)
    ensures (x + y) + z == x + (y + z)
  {
  }

  lemma {:induction false} ReplaceAllConcat(a: string, b: string, c: char, rep: string)
    ensures ReplaceAll(a + b, c, rep) == ReplaceAll(a, c, rep) + ReplaceAll(b, c, rep)
  {
    if a == [] {
      assert a + b == b;
    } else {
      var head := if a[0] == c then rep else [a[0]];
      var ab := a + b;
      assert ab[0] == a[0] && ab[1..] == a[1..] + b;
      assert ReplaceAll(ab, c, rep) == head + ReplaceAll(a[1..] + b, c, rep);
      ReplaceAllConcat(a[1..], b, c, rep);
      Regroup(head, ReplaceAll(a[1..], c, rep), ReplaceAll(b, c, rep));
    }
  }

  /** On a single character, a replacement gives `rep` or the character. */
  lemma ReplaceOne(x: char, c: char, rep: string)
    ensures ReplaceAll([x], c, rep) == if x == c then rep else [x]
  {
    assert [x][1..] == [];
  }

  lemma ChainConcat(a: string, b: string)
    ensures EscapeChain(a + b) == EscapeChain(a) + EscapeChain(b)
  {
    var a1, b1 := ReplaceAll(a, '&', "&amp;"), ReplaceAll(b, '&', "&amp;");
    ReplaceAllConcat(a, b, '&', "&amp;");
    var a2, b2 := ReplaceAll(a1, '<', "&lt;"), ReplaceAll(b1, '<', "&lt;");
    ReplaceAllConcat(a1, b1, '<', "&lt;");
    var a3, b3 := ReplaceAll(a2, '>', "&gt;"), ReplaceAll(b2, '>', "&gt;");
    ReplaceAllConcat(a2, b2, '>', "&gt;");
    var a4, b4 := ReplaceAll(a3, '"', "&quot;"), ReplaceAll(b3, '"', "&quot;");
    ReplaceAllConcat(a3, b3, '"', "&quot;");
    ReplaceAllConcat(a4, b4, '\'', "&#039;");
  }

  /** The later replacements leave an entity as it is. */
  lemma ReplaceInEntity(e: string, x: char, rep: string)
    requires e in ["&amp;", "&lt;", "&gt;", "&quot;", "&#039;"]
    requires x in "<>\"'"
    ensures ReplaceAll(e, x, rep) == e
  {
    assert x !in e;
  }

  /** On one character the chain produces that character's entity: no entity is escaped again. */
  lemma ChainOfChar(c: char)
    ensures EscapeChain([c]) == EscapeChar(c)
  {
    ReplaceOne(c, '&', "&amp;");
    match c
    case '&' =>
      ReplaceInEntity("&amp;", '<', "&lt;");
      ReplaceInEntity("&amp;", '>', "&gt;");
      ReplaceInEntity("&amp;", '"', "&quot;");
      ReplaceInEntity("&amp;", '\'', "&#039;");
    case '<' =>
      ReplaceOne(c, '<', "&lt;");
      ReplaceInEntity("&lt;", '>', "&gt;");
      ReplaceInEntity("&lt;", '"', "&quot;");
      ReplaceInEntity("&lt;", '\'', "&#039;");
    case '>' =>
      ReplaceOne(c, '<', "&lt;");
      ReplaceOne(c, '>', "&gt;");
      ReplaceInEntity("&gt;", '"', "&quot;");
      ReplaceInEntity("&gt;", '\'', "&#039;");
    case '"' =>
      ReplaceOne(c, '<', "&lt;");
      ReplaceOne(c, '>', "&gt;");
      ReplaceOne(c, '"', "&quot;");
      ReplaceInEntity("&quot;", '\'', "&#039;");
    case _ =>
      ReplaceOne(c, '<', "&lt;");
      ReplaceOne(c, '>', "&gt;");
      ReplaceOne(c, '"', "&quot;");
      ReplaceOne(c, '\'', "&#039;");
  }

  /**
   * Because `&` is replaced first, the chain escapes every character exactly
   * once: it equals the per-character escape.
   */
  lemma {:induction false} ChainIsPerCharacter(s: string)
    ensures EscapeChain(s) == EscapeMap(s)
  {
    if s != [] {
      assert s == [s[0]] + s[1..];
      ChainConcat([s[0]], s[1..]);
      ChainOfChar(s[0]);
      ChainIsPerCharacter(s[1..]);
    }
  }

  /** Escaping gives the empty string exactly for the empty string. */
  lemma EscapeEmpty(s: string)
    ensures EscapeHtml(Some(s)) == "" <==> s == ""
  {
  }

  /** No `<`, `>`, `"` or `'` occurs in `t`. */
  predicate NoRawSpecials(t: string) {
    forall k :: 0 <= k < |t| ==> t[k] != '<' && t[k] != '>' && t[k] != '"' && t[k] != '\''
  }

  /** The text from `k` on starts with one of the five entities. */
  predicate EntityAt(t: string, k: nat)
    requires k <= |t|
  {
    var u := t[k..];
    StartsWith(u, "&amp;") || StartsWith(u, "&lt;") || StartsWith(u, "&gt;")
    || StartsWith(u, "&quot;") || StartsWith(u, "&#039;")
  }

  /** Every `&` of `t` starts an entity. */
  predicate AmpersandsAreEntities(t: string) {
    forall k :: 0 <= k < |t| && t[k] == '&' ==> EntityAt(t, k)
  }

  /** Text that can be placed between tags or inside a quoted attribute as it is. */
  predicate Safe(t: string) {
    NoRawSpecials(t) && AmpersandsAreEntities(t)
  }

  lemma SafeConcat(a: string, b: string)
    requires Safe(a) && Safe(b)
    ensures Safe(a + b)
  {
    var t := a + b;
    forall k | 0 <= k < |t| && t[k] == '&' ensures EntityAt(t, k) {
      if k < |a| {
        assert t[k..] == a[k..] + b;
        assert EntityAt(a, k);
      } else {
        assert t[k..] == b[k - |a|..];
        assert t[k] == b[k - |a|];
      }
    }
    forall k | 0 <= k < |t| ensures t[k] != '<' && t[k] != '>' && t[k] != '"' && t[k] != '\'' {
      if k >= |a| {
        assert t[k] == b[k - |a|];
      }
    }
  }

  /** Text without any of the five special characters is safe. */
  lemma PlainIsSafe(t: string)
    requires '&' !in t && '<' !in t && '>' !in t && '"' !in t && '\'' !in t
    ensures Safe(t)
  {
    assert forall k :: 0 <= k < |t| ==> t[k] in t;
  }

  /** An entity: its `&` starts it, and it holds no other special character. */
  lemma SafeEntity(e: string)
    requires e in ["&amp;", "&lt;", "&gt;", "&quot;", "&#039;"]
    ensures Safe(e)
  {
    assert e[0..] == e;
    assert EntityAt(e, 0);
    forall k | 0 < k < |e| ensures e[k] != '&' && e[k] != '<' && e[k] != '>' && e[k] != '"' && e[k] != '\'' {
    }
  }

  lemma SafeChar(c: char)
    ensures Safe(EscapeChar(c))
  {
    var e := EscapeChar(c);
    if c == '&' || c == '<' || c == '>' || c == '"' || c == '\'' {
      SafeEntity(e);
    }
  }

  /** The escape of any text is safe: no raw special character, every `&` an entity. */
  lemma {:induction false} EscapeIsSafe(s: string)
    ensures Safe(EscapeMap(s))
  {
    if s != [] {
      SafeChar(s[0]);
      EscapeIsSafe(s[1..]);
      SafeConcat(EscapeChar(s[0]), EscapeMap(s[1..]));
    }
  }

  /** Decoding the five entities, left to right; every other character stands for itself. */
  function Unescape(t: string): (r: string)
    ensures |r| <= |t|
    decreases |t|
  {
    if t == [] then []
    else if StartsWith(t, "&amp;") then "&" + Unescape(t[5..])
    else if StartsWith(t, "&lt;") then "<" + Unescape(t[4..])
    else if StartsWith(t, "&gt;") then ">" + Unescape(t[4..])
    else if StartsWith(t, "&quot;") then "\"" + Unescape(t[6..])
    else if StartsWith(t, "&#039;") then "'" + Unescape(t[6..])
    else [t[0]] + Unescape(t[1..])
  }

  /** A text whose `i`-th character differs from that of `x` does not start with `x`. */
  lemma Mismatch(t: string, x: string, i: nat)
    requires i < |x| && i < |t| && t[i] != x[i]
    ensures !StartsWith(t, x)
  {
    if |x| <= |t| {
      assert t[..|x|][i] != x[i];
    }
  }

  lemma UnescapeStep(c: char, rest: string)
    ensures Unescape(EscapeChar(c) + rest) == [c] + Unescape(rest)
  {
    var e := EscapeChar(c);
    var t := e + rest;
    assert t[..|e|] == e;
    assert t[|e|..] == rest;
    assert t[0] == e[0];
    if |e| > 1 {
      assert t[1] == e[1];
    }
    match c
    case '&' =>
    case '<' =>
      Mismatch(t, "&amp;", 1);
    case '>' =>
      Mismatch(t, "&amp;", 1);
      Mismatch(t, "&lt;", 1);
    case '"' =>
      Mismatch(t, "&amp;", 1);
      Mismatch(t, "&lt;", 1);
      Mismatch(t, "&gt;", 1);
    case '\'' =>
      Mismatch(t, "&amp;", 1);
      Mismatch(t, "&lt;", 1);
      Mismatch(t, "&gt;", 1);
      Mismatch(t, "&quot;", 1);
    case _ =>
      Mismatch(t, "&amp;", 0);
      Mismatch(t, "&lt;", 0);
      Mismatch(t, "&gt;", 0);
      Mismatch(t, "&quot;", 0);
      Mismatch(t, "&#039;", 0);
  }

  /** Decoding the escape gives the text back: escaping loses nothing. */
  lemma {:induction false} UnescapeEscape(s: string)
    ensures Unescape(EscapeMap(s)) == s
  {
    if s != [] {
      UnescapeStep(s[0], EscapeMap(s[1..]));
      UnescapeEscape(s[1..]);
      assert s == [s[0]] + s[1..];
    }
  }

  /** `escapeHtml` is safe and reversible, so distinct texts stay distinct. */
  lemma EscapeHtmlSafeAndReversible(s: string)
    ensures Safe(EscapeHtml(Some(s)))
    ensures Unescape(EscapeHtml(Some(s))) == s
  {
    EscapeIsSafe(s);
    UnescapeEscape(s);
  }
}
