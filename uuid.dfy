/**
 * The identifier generator `uuidv4` (two identical copies, in App.tsx and in
 * services/geminiService.ts). It fills the template
 * `xxxxxxxx-xxxx-4xxx-yxxx-xxxxxxxxxxxx` from left to right: each `x` becomes
 * a random hexadecimal digit `r`, each `y` becomes `(r & 0x3) | 0x8`. The random
 * draws (`Math.random() * 16 | 0`, a value in 0..15) are a parameter here.
 */
module Uuid {
  import opened Types
  import opened Hex

  const Template: string := "xxxxxxxx-xxxx-4xxx-yxxx-xxxxxxxxxxxx"

  /** `(r & 0x3) | 0x8` for a draw `r` in 0..15: a value in 8..11. */
  function VariantBits(r: Nibble): (v: Nibble)
    ensures 8 <= v <= 11
  {
    r % 4 + 8
  }

  /** A character the `y` placeholder can become: one of `8 9 a b`. */
  predicate IsVariantDigit(c: char) {
    c == '8' || c == '9' || c == 'a' || c == 'b'
  }

  /** `s` is what `t` can be filled to: same length, placeholders replaced by digits of their kind. */
  predicate Fits(t: string, s: string) {
    && |s| == |t|
    && forall k :: 0 <= k < |t| ==>
         if t[k] == 'x' then IsLowerHex(s[k])
         else if t[k] == 'y' then IsVariantDigit(s[k])
         else s[k] == t[k]
  }

  /**
   * `t.replace(/[xy]/g, ...)` with the callback fed the draws in order: the
   * placeholders of `t` consume `draw(next)`, `draw(next + 1)`, ... from left to right.
   */
  function Fill(t: string, draw: nat -> Nibble, next: nat): (r: string)
    ensures Fits(t, r)
  {
    if t == [] then []
    else if t[0] == 'x' then [HexDigit(draw(next))] + Fill(t[1..], draw, next + 1)
    else if t[0] == 'y' then [HexDigit(VariantBits(draw(next)))] + Fill(t[1..], draw, next + 1)
    else [t[0]] + Fill(t[1..], draw, next)
  }

  /** One identifier; `draw(i)` is the `i`-th random draw of this call. */
  function Uuid4(draw: nat -> Nibble): Id {
    Fill(Template, draw, 0)
  }

  /**
   * The format of a version-4 identifier: 36 characters, hyphens at 8, 13, 18
   * and 23, `4` at 14, one of `8 9 a b` at 19, lower-case hexadecimal elsewhere.
   */
  predicate IsUuidV4(s: string) {
    && |s| == 36
    && s[8] == '-' && s[13] == '-' && s[18] == '-' && s[23] == '-'
    && s[14] == '4'
    && IsVariantDigit(s[19])
    && forall k :: 0 <= k < 36 && k != 8 && k != 13 && k != 14 && k != 18 && k != 19 && k != 23
         ==> IsLowerHex(s[k])
  }

  /** Fitting the template is exactly the identifier format. */
  lemma FitsTemplateIsFormat(s: string)
    ensures Fits(Template, s) <==> IsUuidV4(s)
  {
    if Fits(Template, s) {
      FittingIsFormat(s);
    }
    if IsUuidV4(s) {
      FormatFits(s);
    }
  }

  lemma FittingIsFormat(s: string)
    requires Fits(Template, s)
    ensures IsUuidV4(s)
  {
    forall k | 0 <= k < 36 && k != 8 && k != 13 && k != 14 && k != 18 && k != 19 && k != 23
      ensures IsLowerHex(s[k])
    {
      assert Template[k] == 'x';
    }
  }

  lemma FormatFits(s: string)
    requires IsUuidV4(s)
    ensures Fits(Template, s)
  {
    forall k | 0 <= k < |Template|
      ensures if Template[k] == 'x' then IsLowerHex(s[k])
              else if Template[k] == 'y' then IsVariantDigit(s[k])
              else s[k] == Template[k]
    {
    }
  }

  /** Every identifier `uuidv4` produces has the version-4 format. */
  lemma Uuid4WellFormed(draw: nat -> Nibble)
    ensures IsUuidV4(Uuid4(draw))
  {
    FitsTemplateIsFormat(Uuid4(draw));
  }

  predicate IsPlaceholder(c: char) {
    c == 'x' || c == 'y'
  }

  /** The draw that makes placeholder `p` become the digit `c`. */
  function DrawOf(p: char, c: char): (r: Nibble)
    requires (p == 'x' && IsLowerHex(c)) || (p == 'y' && IsVariantDigit(c))
    ensures p == 'x' ==> HexDigit(r) == c
    ensures p == 'y' ==> HexDigit(VariantBits(r)) == c
  {
    if p == 'x' then DigitValue(c) else DigitValue(c) - 8
  }

  lemma FitsTail(t: string, s: string)
    requires t != [] && Fits(t, s)
    ensures Fits(t[1..], s[1..])
  {
    forall k | 0 <= k < |t| - 1 ensures (t[1..][k] == t[k + 1] && s[1..][k] == s[k + 1]) { }
  }

  /** The draws that make `Fill(t, _, _)` produce `s`, in the order they are consumed. */
  function DrawsFor(t: string, s: string): seq<Nibble>
    requires Fits(t, s)
  {
    if t == [] then []
    else
      FitsTail(t, s);
      if IsPlaceholder(t[0]) then [DrawOf(t[0], s[0])] + DrawsFor(t[1..], s[1..])
      else DrawsFor(t[1..], s[1..])
  }

  /** How many draws a template character consumes. */
  function Step(c: char): (n: nat)
    ensures n == 1 <==> IsPlaceholder(c)
    ensures n <= 1
  {
    if IsPlaceholder(c) then 1 else 0
  }

  /** One step of `Fill`: the first character becomes `s[0]` when the draw is the right one. */
  lemma FillHead(t: string, s: string, draw: nat -> Nibble, next: nat)
    requires t != [] && Fits(t, s)
    requires IsPlaceholder(t[0]) ==> draw(next) == DrawOf(t[0], s[0])
    ensures Fill(t, draw, next) == [s[0]] + Fill(t[1..], draw, next + Step(t[0]))
  {
  }

  /** A random source that replays the draws `d`, then draws zeros. */
  function Replay(d: seq<Nibble>): (nat -> Nibble) {
    (i: nat) => if i < |d| then d[i] else 0
  }

  /**
   * Filling `t` while replaying `DrawsFor(t, s)`, after draws `pre` already
   * consumed, produces `s`.
   */
  lemma {:induction false} FillReplays(t: string, s: string, pre: seq<Nibble>)
    requires Fits(t, s)
    ensures Fill(t, Replay(pre + DrawsFor(t, s)), |pre|) == s
  {
    if t != [] {
      FitsTail(t, s);
      var d, rest := DrawsFor(t, s), DrawsFor(t[1..], s[1..]);
      var consumed := if IsPlaceholder(t[0]) then pre + [DrawOf(t[0], s[0])] else pre;
      assert consumed + rest == pre + d;
      FillReplays(t[1..], s[1..], consumed);
      FillHead(t, s, Replay(pre + d), |pre|);
      assert s == [s[0]] + s[1..];
    }
  }

  /** Conversely, every string of the version-4 format is what some draws produce. */
  lemma EveryUuidIsGenerated(s: string)
    requires IsUuidV4(s)
    ensures exists draw: nat -> Nibble :: Uuid4(draw) == s
  {
    FitsTemplateIsFormat(s);
    var draw := Replay([] + DrawsFor(Template, s));
    FillReplays(Template, s, []);
    assert Uuid4(draw) == s;
  }

  /**
   * The identifier source of one extraction: its `k`-th call of `uuidv4` draws
   * its random digits from `draws(k)`.
   */
  function Generator(draws: nat -> (nat -> Nibble)): (gen: nat -> Id)
    ensures forall k :: IsUuidV4(gen(k))
  {
    var gen := (k: nat) => Uuid4(draws(k));
    assert forall k: nat :: IsUuidV4(gen(k)) by {
      forall k: nat ensures IsUuidV4(gen(k)) {
        Uuid4WellFormed(draws(k));
      }
    }
    gen
  }
}
