/**
 * `toHex` (utils/colorExtractor.ts): an RGB colour, as the colour library
 * returns it (a list of channel values), becomes `#` followed by each channel
 * in hexadecimal, padded to two digits.
 */
module ColorExtractor {
  import opened Hex

  /** One channel: `x.toString(16)`, with a `0` in front when that is a single digit. */
  function Channel(x: nat): (r: string)
    ensures AllLowerHex(r)
    ensures |r| >= 2
  {
    var h := ToBase16(x);
    if |h| == 1 then "0" + h else h
  }

  /** The channels written one after the other (`map` then `join('')`). */
  function Channels(rgb: seq<nat>): (r: string)
    ensures AllLowerHex(r)
  {
    if rgb == [] then "" else Channel(rgb[0]) + Channels(rgb[1..])
  }

  /** `toHex(rgb)`. */
  function ToHex(rgb: seq<nat>): (r: string)
    ensures |r| >= 1 && r[0] == '#'
    ensures AllLowerHex(r[1..])
  {
    "#" + Channels(rgb)
  }

  /** A channel value as the colour library produces it. */
  predicate IsByte(x: nat) {
    x < 256
  }

  predicate AllBytes(rgb: seq<nat>) {
    forall k :: 0 <= k < |rgb| ==> IsByte(rgb[k])
  }

  /**
   * A channel from 0 to 255 takes exactly two lower-case hexadecimal digits,
   * the first being `0` exactly when the value is below 16, and they read back
   * as the value.
   */
  lemma ByteChannel(x: nat)
    requires IsByte(x)
    ensures |Channel(x)| == 2
    ensures Channel(x)[0] == '0' <==> x < 16
    ensures FromBase16(Channel(x)) == x
  {
    var h := ToBase16(x);
    Base16RoundTrip(x);
    if x < 16 {
      LeadingZero(h);
    } else {
      assert ToBase16(x / 16) == [HexDigit(x / 16)];
      assert HexDigit(x / 16) == h[0];
      DigitRoundTrip(x / 16);
    }
  }

  /** Reads a string of hexadecimal digits two at a time; a last odd digit is ignored. */
  function ReadChannels(s: string): (rgb: seq<nat>)
    requires AllLowerHex(s)
    ensures |rgb| == |s| / 2
  {
    if |s| < 2 then [] else [FromBase16(s[..2])] + ReadChannels(s[2..])
  }

  /** The `k`-th pair of characters of `s`. */
  function Pair(s: string, k: nat): string
    requires 2 * k + 2 <= |s|
  {
    s[2 * k..2 * k + 2]
  }

  lemma PairShift(c: string, rest: string, k: nat)
    requires |c| == 2 && 1 <= k && 2 * k <= |rest|
    ensures Pair(c + rest, k) == Pair(rest, k - 1)
  {
    assert forall i :: 2 * k <= i < 2 * k + 2 ==> (c + rest)[i] == rest[i - 2];
  }

  /**
   * For channels from 0 to 255 the digits are two per channel, channel `k`
   * being the `k`-th pair.
   */
  lemma {:induction false} ChannelsLayout(rgb: seq<nat>)
    requires AllBytes(rgb)
    ensures |Channels(rgb)| == 2 * |rgb|
    ensures forall k :: 0 <= k < |rgb| ==> Pair(Channels(rgb), k) == Channel(rgb[k])
  {
    if rgb != [] {
      ByteChannel(rgb[0]);
      ChannelsLayout(rgb[1..]);
      var c, rest := Channel(rgb[0]), Channels(rgb[1..]);
      assert Pair(c + rest, 0) == c;
      forall k | 1 <= k < |rgb|
        ensures Pair(Channels(rgb), k) == Channel(rgb[k])
      {
        PairShift(c, rest, k);
        assert rgb[1..][k - 1] == rgb[k];
      }
    }
  }

  /** Behind a one-character prefix, every slice of `c` moves one place to the right. */
  lemma SliceAfterHash(c: string, i: nat, j: nat)
    requires i <= j <= |c|
    ensures ("#" + c)[1 + i..1 + j] == c[i..j]
  {
    assert forall n :: 0 <= n < j - i ==> ("#" + c)[1 + i..1 + j][n] == c[i..j][n];
  }

  /** The colour is `#` and two digits per channel, channel `k` at positions `1 + 2k` and `2 + 2k`. */
  lemma ToHexLayout(rgb: seq<nat>)
    requires AllBytes(rgb)
    ensures |ToHex(rgb)| == 1 + 2 * |rgb|
    ensures forall k :: 0 <= k < |rgb| ==> ToHex(rgb)[1 + 2 * k..3 + 2 * k] == Channel(rgb[k])
  {
    ChannelsLayout(rgb);
    var c := Channels(rgb);
    forall k | 0 <= k < |rgb|
      ensures ToHex(rgb)[1 + 2 * k..3 + 2 * k] == Channel(rgb[k])
    {
      SliceAfterHash(c, 2 * k, 2 * k + 2);
    }
  }

  /** An RGB triple gives a seven-character colour. */
  lemma TripleLength(r: nat, g: nat, b: nat)
    requires IsByte(r) && IsByte(g) && IsByte(b)
    ensures |ToHex([r, g, b])| == 7
  {
    ToHexLayout([r, g, b]);
  }

  /** Reading the digits after `#` two at a time gives the channels back, in order. */
  lemma {:induction false} ChannelsRoundTrip(rgb: seq<nat>)
    requires AllBytes(rgb)
    ensures ReadChannels(Channels(rgb)) == rgb
  {
    if rgb != [] {
      ByteChannel(rgb[0]);
      ChannelsRoundTrip(rgb[1..]);
      var c, rest := Channel(rgb[0]), Channels(rgb[1..]);
      assert (c + rest)[..2] == c;
      assert (c + rest)[2..] == rest;
    }
  }

  lemma ToHexRoundTrip(rgb: seq<nat>)
    requires AllBytes(rgb)
    ensures ReadChannels(ToHex(rgb)[1..]) == rgb
  {
    ChannelsRoundTrip(rgb);
    assert ToHex(rgb)[1..] == Channels(rgb);
  }
}
