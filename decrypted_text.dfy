/** The scrambling text (src/Components/animations/DecryptedText.jsx).
    `scrambleText` starts an interval that, on each tick, shows a random
    scramble of `text` (spaces kept, every other character drawn from a
    fixed alphabet), counts the tick, and on the tick where the count
    equals `iterations` stops and shows `text` again. `Math.random` is
    modelled as a nondeterministic choice of an alphabet index. */
module DecryptedText {

  /** `n` consecutive code points starting at `first`. */
  function CharRange(first: char, n: nat): (r: string)
    requires first as int + n <= 0xD800
    ensures |r| == n
  {
    seq(n, i requires 0 <= i < n => (first as int + i) as char)
  }

  lemma CharRangeMembers(first: char, n: nat, c: char)
    requires first as int + n <= 0xD800
    ensures c in CharRange(first, n) <==> first <= c && (c as int) < first as int + n
  {
    if first <= c && (c as int) < first as int + n {
      assert CharRange(first, n)[c as int - first as int] == c;
    }
  }

  /** The `characters` alphabet: A-Z, a-z, 0-9, then `!@#$%^&*()`. */
  const Characters := CharRange('A', 26) + CharRange('a', 26) + CharRange('0', 10) + "!@#$%^&*()"

  /** `s` is one of the frames a tick may show for `text`. */
  predicate IsScrambleOf(s: string, text: string)
  {
    |s| == |text|
    && forall i :: 0 <= i < |text| ==>
         if text[i] == ' ' then s[i] == ' ' else s[i] in Characters
  }

  /** The alphabet has 72 characters: exactly the ASCII letters, the
      digits and ten symbols. Space is not among them. */
  lemma AlphabetMembers(c: char)
    ensures |Characters| == 72
    ensures c in Characters <==>
              'A' <= c <= 'Z' || 'a' <= c <= 'z' || '0' <= c <= '9' || c in "!@#$%^&*()"
    ensures c == ' ' ==> c !in Characters
  {
    CharRangeMembers('A', 26, c);
    CharRangeMembers('a', 26, c);
    CharRangeMembers('0', 10, c);
  }

  /** A frame has its spaces exactly where `text` has them. */
  lemma ScrambleKeepsSpaces(s: string, text: string)
    requires IsScrambleOf(s, text)
    ensures forall i :: 0 <= i < |text| ==> (s[i] == ' ' <==> text[i] == ' ')
  {
    AlphabetMembers(' ');
  }

  /** The text itself is a frame only if it already consists of spaces
      and alphabet characters; the final restore is therefore a separate
      step, not a scramble. */
  lemma TextIsScrambleIff(text: string)
    ensures IsScrambleOf(text, text) <==>
              forall i :: 0 <= i < |text| ==> text[i] == ' ' || text[i] in Characters
  {
  }

  /** One scrambled frame: `text.split('').map(...).join('')`. */
  method Scramble(text: string) returns (s: string)
    ensures IsScrambleOf(s, text)
  {
    s := "";
    var i := 0;
    while i < |text|
      invariant 0 <= i <= |text|
      invariant IsScrambleOf(s, text[..i])
    {
      if text[i] == ' ' {
        s := s + " ";
      } else {
        var k :| 0 <= k < |Characters|;
        s := s + [Characters[k]];
      }
      i := i + 1;
    }
    assert text[..i] == text;
  }

  /** The values of `iterations` the stop test `count === iterations` can
      meet: the counts 1, 2, 3, ... A fractional, zero or negative
      `iterations` is never met. */
  predicate IsCount(x: real)
  {
    x >= 1.0 && x == x.Floor as real
  }

  /** A fractional value such as 2.5 is never a count; a whole one is. */
  lemma FractionalIsNoCount()
    ensures !IsCount(2.5) && !IsCount(0.0) && IsCount(3.0)
  {
    assert (2.5).Floor == 2;
  }

  /** A count reached within `t + 1` ticks was reached within `t` ticks
      or is `t + 1` itself. */
  lemma CountStep(x: real, t: nat)
    ensures (IsCount(x) && x <= (t + 1) as real) <==> ((IsCount(x) && x <= t as real) || (t + 1) as real == x)
  {
    if IsCount(x) && x <= (t + 1) as real && !(x <= t as real) {
      var m := x.Floor;
      assert t < m <= t + 1;
    }
  }

  /** One mounted component with its display cell and its scramble run.
      `iterations` is a JavaScript number. */
  class Decrypter {
    const text: string
    const iterations: real
    var displayText: string
    /** The interval's `count`. */
    var count: int
    /** Whether an interval is installed. */
    var running: bool

    /** Mounting: the display starts as `text`, and the effect starts a
        scramble only when `animateOn` is 'start'. `direction` is accepted
        and ignored, as in the source. */
    constructor (text: string, iterations: real, animateOn: string, direction: string)
      ensures this.text == text && this.iterations == iterations
      ensures displayText == text && count == 0
      ensures running <==> animateOn == "start"
    {
      this.text := text;
      this.iterations := iterations;
      displayText := text;
      count := 0;
      running := animateOn == "start";
    }

    /** `scrambleText` (and `handleReplay`): a fresh count and a running
        interval. */
    method Start()
      modifies this
      ensures running && count == 0 && displayText == old(displayText)
    {
      count := 0;
      running := true;
    }

    /** One interval tick. */
    method Tick()
      requires running
      modifies this
      ensures count == old(count) + 1
      ensures running <==> count as real != iterations
      ensures running ==> IsScrambleOf(displayText, text)
      ensures !running ==> displayText == text
    {
      var scrambled := Scramble(text);
      displayText := scrambled;
      count := count + 1;
      if count as real == iterations {
        running := false;
        displayText := text;
      }
    }

    /** Lets up to `n` ticks fire on a freshly started run. When
        `iterations` is a count 1, 2, 3, ... no larger than `n` the run
        stops after exactly `iterations` ticks and shows `text` again; for
        any other value (zero, negative, fractional, or beyond `n`) the
        stop test never fires and the run is still going after all `n`
        ticks. */
    method RunFor(n: nat) returns (ticks: nat)
      requires running && count == 0
      modifies this
      ensures ticks <= n && count == ticks
      ensures IsCount(iterations) && iterations <= n as real ==>
                ticks as real == iterations && !running && displayText == text
      ensures !(IsCount(iterations) && iterations <= n as real) ==> ticks == n && running
      ensures running && ticks > 0 ==> IsScrambleOf(displayText, text)
    {
      ticks := 0;
      while ticks < n && running
        invariant ticks <= n && count == ticks
        invariant running <==> !(IsCount(iterations) && iterations <= ticks as real)
        invariant !running ==> ticks as real == iterations && displayText == text
        invariant running && ticks > 0 ==> IsScrambleOf(displayText, text)
        decreases n - ticks
      {
        CountStep(iterations, ticks);
        Tick();
        ticks := ticks + 1;
      }
    }
  }
}
