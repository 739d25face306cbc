/** The hex swatch of the shared colour control
    (src/Components/shared/ColorController.jsx): `rgbToHex` writes each
    channel, already scaled to 0..255 and rounded, as a two-digit
    lower-case hexadecimal pair, giving the six-digit `#rrggbb` form of
    the CSS hex colour notation (CSS Color Module Level 4, section 5.2). */
module ColorController {
  import opened Wrappers

  /** The lower-case digit for 0..15, as `toString(16)` writes it. */
  function HexDigit(d: int): char
    requires 0 <= d < 16
  {
    if d < 10 then ('0' as int + d) as char else ('a' as int + d - 10) as char
  }

  predicate IsHexDigit(c: char)
  {
    ('0' <= c <= '9') || ('a' <= c <= 'f')
  }

  /** `n.toString(16)` for a non-negative integer: base-16 digits, most
      significant first, no leading zeros, "0" for zero. */
  function Base16(n: nat): (r: string)
    ensures |r| >= 1
    ensures forall i :: 0 <= i < |r| ==> IsHexDigit(r[i])
    decreases n
  {
    if n < 16 then [HexDigit(n)] else Base16(n / 16) + [HexDigit(n % 16)]
  }

  /** `Number.prototype.toString(16)` on an integer: a minus sign and the
      digits of the magnitude for a negative number. */
  function NumberToHex(k: int): string
  {
    if k < 0 then "-" + Base16(-k) else Base16(k)
  }

  /** The inner `toHex`: pads a one-character result with a leading '0'. */
  function ToHex(k: int): string
  {
    var hex := NumberToHex(k);
    if |hex| == 1 then "0" + hex else hex
  }

  /** `rgbToHex`: '#' and the three channel pairs, red first. */
  function RgbToHex(r: int, g: int, b: int): string
  {
    "#" + ToHex(r) + ToHex(g) + ToHex(b)
  }

  // ---- Reading hex back: the partner of the encoder

  function DigitValue(c: char): (v: Option<nat>)
    ensures v.Some? <==> IsHexDigit(c)
    ensures v.Some? ==> v.value < 16 && HexDigit(v.value) == c
  {
    if '0' <= c <= '9' then Some(c as int - '0' as int)
    else if 'a' <= c <= 'f' then Some(c as int - 'a' as int + 10)
    else None
  }

  /** Reads a non-empty string of lower-case hex digits in base 16. */
  function ParseBase16(s: string): Option<nat>
  {
    if s == [] then None
    else
      var last := DigitValue(s[|s| - 1]);
      if last.None? then None
      else if |s| == 1 then Some(last.value)
      else
        var front := ParseBase16(s[..|s| - 1]);
        if front.None? then None else Some(front.value * 16 + last.value)
  }

  /** Reads a `#rrggbb` string back into its three channels. */
  function ParseRgb(s: string): Option<(nat, nat, nat)>
  {
    if |s| != 7 || s[0] != '#' then None
    else
      var r, g, b := ParseBase16(s[1..3]), ParseBase16(s[3..5]), ParseBase16(s[5..7]);
      if r.None? || g.None? || b.None? then None
      else Some((r.value, g.value, b.value))
  }

  lemma DigitRoundTrip(d: nat)
    requires d < 16
    ensures DigitValue(HexDigit(d)) == Some(d)
  {
  }

  /** Reading the digits of `Base16(n)` back gives `n`. */
  lemma {:induction false} Base16RoundTrip(n: nat)
    ensures ParseBase16(Base16(n)) == Some(n)
    decreases n
  {
    DigitRoundTrip(n % 16);
    if n >= 16 {
      Base16RoundTrip(n / 16);
      var s := Base16(n);
      assert s[..|s| - 1] == Base16(n / 16);
      assert s[|s| - 1] == HexDigit(n % 16);
    }
  }

  /** The number of digits of `Base16(n)`: one below 16, two below 256,
      and at least three from 256 on. */
  lemma {:induction false} Base16Length(n: nat)
    ensures n < 16 <==> |Base16(n)| == 1
    ensures 16 <= n < 256 <==> |Base16(n)| == 2
    ensures n >= 256 <==> |Base16(n)| >= 3
  {
    if n >= 16 {
      Base16Length(n / 16);
    }
  }

  /** For a channel in 0..255 `toHex` returns exactly two lower-case hex
      digits: '0' and the one digit for 0..15, the unpadded pair for
      16..255. */
  lemma ToHexChannel(k: int)
    requires 0 <= k <= 255
    ensures |ToHex(k)| == 2
    ensures IsHexDigit(ToHex(k)[0]) && IsHexDigit(ToHex(k)[1])
    ensures k < 16 ==> ToHex(k) == ['0', HexDigit(k)]
    ensures k >= 16 ==> ToHex(k) == Base16(k) == [HexDigit(k / 16), HexDigit(k % 16)]
  {
    Base16Length(k);
    if k >= 16 {
      assert Base16(k / 16) == [HexDigit(k / 16)];
    }
  }

  /** Round trip of one channel: reading the pair back in base 16 yields
      the channel. */
  lemma ToHexRoundTrip(k: int)
    requires 0 <= k <= 255
    ensures ParseBase16(ToHex(k)) == Some(k)
  {
    ToHexChannel(k);
    DigitRoundTrip(k % 16);
    if k < 16 {
      assert ToHex(k)[..1] == "0";
    } else {
      Base16RoundTrip(k);
    }
  }

  /** '#' followed by three pairs splits back into those pairs. */
  lemma SplitPairs(x: string, y: string, z: string)
    requires |x| == 2 && |y| == 2 && |z| == 2
    ensures |"#" + x + y + z| == 7
    ensures ("#" + x + y + z)[1..3] == x
    ensures ("#" + x + y + z)[3..5] == y
    ensures ("#" + x + y + z)[5..7] == z
  {
    var s := "#" + x + y + z;
    assert s[1..3] == x;
    assert s[3..5] == y;
    assert s[5..7] == z;
  }

  /** For in-range channels the colour is `#` and three pairs, seven
      characters, red first. */
  lemma RgbToHexShape(r: int, g: int, b: int)
    requires 0 <= r <= 255 && 0 <= g <= 255 && 0 <= b <= 255
    ensures |RgbToHex(r, g, b)| == 7
    ensures RgbToHex(r, g, b)[0] == '#'
    ensures RgbToHex(r, g, b)[1..3] == ToHex(r)
    ensures RgbToHex(r, g, b)[3..5] == ToHex(g)
    ensures RgbToHex(r, g, b)[5..7] == ToHex(b)
  {
    ToHexChannel(r);
    ToHexChannel(g);
    ToHexChannel(b);
    SplitPairs(ToHex(r), ToHex(g), ToHex(b));
  }

  /** Round trip of the whole colour: reading `#rrggbb` back yields the
      three channels. */
  lemma RgbToHexRoundTrip(r: int, g: int, b: int)
    requires 0 <= r <= 255 && 0 <= g <= 255 && 0 <= b <= 255
    ensures ParseRgb(RgbToHex(r, g, b)) == Some((r, g, b))
  {
    RgbToHexShape(r, g, b);
    ToHexRoundTrip(r);
    ToHexRoundTrip(g);
    ToHexRoundTrip(b);
  }

  /** There is no clamping: a channel above 255 gives three or more digits,
      so the colour string is longer than seven characters. */
  lemma NoClamping(r: int, g: int, b: int)
    requires r > 255
    ensures |ToHex(r)| >= 3
    ensures |RgbToHex(r, g, b)| > 7
  {
    Base16Length(r);
  }

  /** A negative channel keeps its minus sign, and a one-digit magnitude is
      then not padded, because the pad test looks at the whole string. */
  lemma NegativeChannel(k: int)
    requires -15 <= k <= -1
    ensures ToHex(k) == ['-', HexDigit(-k)]
  {
  }
}
