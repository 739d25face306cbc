/** The per-letter text components BlurText, SplitText, WaveText and
    ShinyText (src/Components/animations/). All four split `String(text)`
    into characters, render one span per character keyed by its index
    with a space shown as a no-break space, and start the 'visible' or
    'hidden' variant from the in-view flag; all but ShinyText have a replay
    button that starts 'hidden' and then 'visible'. The four do this with
    the same code, so it is stated once. */
module LetterAnimation {

  const NoBreakSpace: char := '\U{00A0}'

  /** `letter === ' ' ? ' ' : letter`. */
  function Glyph(c: char): char
  {
    if c == ' ' then NoBreakSpace else c
  }

  /** One `motion.span`: its `key` and its text. */
  datatype Span = Span(key: nat, content: char)

  /** `letters.map((letter, index) => <span key={index}>...)`. */
  function Spans(text: string): seq<Span>
  {
    seq(|text|, i requires 0 <= i < |text| => Span(i, Glyph(text[i])))
  }

  /** The text the spans show, in order. */
  function Shown(spans: seq<Span>): string
  {
    seq(|spans|, i requires 0 <= i < |spans| => spans[i].content)
  }

  /** One span per character, in order, keyed 0..n-1; a space becomes a
      no-break space and every other character is kept. */
  lemma SpansPositionwise(text: string)
    ensures |Spans(text)| == |text|
    ensures forall i :: 0 <= i < |text| ==> Spans(text)[i].key == i
    ensures forall i :: 0 <= i < |text| ==>
              (text[i] == ' ' ==> Spans(text)[i].content == NoBreakSpace)
              && (text[i] != ' ' ==> Spans(text)[i].content == text[i])
  {
  }

  /** The keys are pairwise distinct, as React requires of siblings. */
  lemma KeysDistinct(text: string)
    ensures forall i, j :: 0 <= i < j < |text| ==> Spans(text)[i].key != Spans(text)[j].key
  {
  }

  /** The shown text has the input's length and no ordinary space; a
      no-break space shows exactly where the input has a space or
      already had a no-break space. */
  lemma ShownHasNoSpace(text: string)
    ensures |Shown(Spans(text))| == |text|
    ensures ' ' !in Shown(Spans(text))
    ensures forall i :: 0 <= i < |text| ==>
              (Shown(Spans(text))[i] == NoBreakSpace <==> text[i] == ' ' || text[i] == NoBreakSpace)
  {
    var s := Shown(Spans(text));
    assert forall i :: 0 <= i < |s| ==> s[i] == Glyph(text[i]);
  }

  /** Splitting and mapping commute with concatenation: the text of
      `a + b` shows as the text of `a` followed by that of `b`. */
  lemma ShownAppend(a: string, b: string)
    ensures Shown(Spans(a + b)) == Shown(Spans(a)) + Shown(Spans(b))
  {
  }

  /** Turns no-break spaces back into spaces. */
  function Restore(s: string): string
  {
    seq(|s|, i requires 0 <= i < |s| => if s[i] == NoBreakSpace then ' ' else s[i])
  }

  /** On a text without no-break spaces the rendering loses nothing. */
  lemma RestoreShown(text: string)
    requires NoBreakSpace !in text
    ensures Restore(Shown(Spans(text))) == text
  {
  }

  /** Two different characters may show the same: the mapping is not
      one-to-one once the input may contain no-break spaces. */
  lemma SpaceAndNoBreakSpaceLookAlike()
    ensures Shown(Spans(" ")) == Shown(Spans([NoBreakSpace]))
  {
    assert Spans(" ")[0] == Span(0, NoBreakSpace);
  }

  // The animation variants.

  datatype Variant = Hidden | Visible

  /** The effect on `isInView`. */
  function ViewVariant(isInView: bool): Variant
  {
    if isInView then Visible else Hidden
  }

  /** What reaches the component: the in-view flag as the effect sees it
      (on mount and on every change), a click on replay, or the promise
      of a 'hidden' animation resolving, which runs the `.then` callback a
      replay click left behind. */
  datatype Input = ViewFlag(isInView: bool) | ReplayClicked | HiddenSettled

  /** How many replay callbacks are still waiting for their 'hidden'
      animation. */
  function Pending(inputs: seq<Input>): nat
    decreases |inputs|
  {
    if inputs == [] then 0
    else
      var p := Pending(inputs[..|inputs| - 1]);
      match inputs[|inputs| - 1]
      case ViewFlag(_) => p
      case ReplayClicked => p + 1
      case HiddenSettled => if p > 0 then p - 1 else 0
  }

  /** The variants passed to `controls.start`, in order. A replay click
      starts 'hidden' at once; its 'visible' is started only later, when
      the 'hidden' promise resolves, so other inputs may come in between. */
  function Starts(inputs: seq<Input>): seq<Variant>
    decreases |inputs|
  {
    if inputs == [] then []
    else
      var front := inputs[..|inputs| - 1];
      Starts(front)
        + match inputs[|inputs| - 1]
          case ViewFlag(b) => [ViewVariant(b)]
          case ReplayClicked => [Hidden]
          case HiddenSettled => if Pending(front) > 0 then [Visible] else []
  }

  /** The variant the letters end at: the last one started, or the
      `initial="hidden"` one. */
  function Current(inputs: seq<Input>): Variant
  {
    var s := Starts(inputs);
    if s == [] then Hidden else s[|s| - 1]
  }

  /** A replay click starts 'hidden' and leaves one more callback waiting. */
  lemma ReplayStartsHidden(inputs: seq<Input>)
    ensures Starts(inputs + [ReplayClicked]) == Starts(inputs) + [Hidden]
    ensures Pending(inputs + [ReplayClicked]) == Pending(inputs) + 1
    ensures Current(inputs + [ReplayClicked]) == Hidden
  {
    assert (inputs + [ReplayClicked])[..|inputs|] == inputs;
  }

  /** Replay undisturbed: the click and then the resolution of its
      'hidden' animation start 'hidden' then 'visible' and end at
      'visible', whatever came before. */
  lemma ReplayEndsVisible(inputs: seq<Input>)
    ensures Starts(inputs + [ReplayClicked, HiddenSettled]) == Starts(inputs) + [Hidden, Visible]
    ensures Pending(inputs + [ReplayClicked, HiddenSettled]) == Pending(inputs)
    ensures Current(inputs + [ReplayClicked, HiddenSettled]) == Visible
  {
    var once := inputs + [ReplayClicked];
    ReplayStartsHidden(inputs);
    assert (inputs + [ReplayClicked, HiddenSettled])[..|once|] == once;
  }

  /** Right after a change of the flag the letters show 'visible' exactly
      when in view. */
  lemma ViewFlagDecides(inputs: seq<Input>, isInView: bool)
    ensures Current(inputs + [ViewFlag(isInView)]) == Visible <==> isInView
    ensures Pending(inputs + [ViewFlag(isInView)]) == Pending(inputs)
  {
    assert (inputs + [ViewFlag(isInView)])[..|inputs|] == inputs;
  }

  /** With no replay waiting, a resolving animation starts nothing, so the
      flag's variant stays. */
  lemma FlagStaysWithoutPendingReplay(inputs: seq<Input>, isInView: bool)
    requires Pending(inputs) == 0
    ensures Current(inputs + [ViewFlag(isInView), HiddenSettled]) == ViewVariant(isInView)
  {
    var once := inputs + [ViewFlag(isInView)];
    ViewFlagDecides(inputs, isInView);
    assert (inputs + [ViewFlag(isInView), HiddenSettled])[..|once|] == once;
  }

  /** A replay still waiting overrides a later flag: the letters can end
      'visible' while out of view. */
  lemma PendingReplayOverridesFlag()
    ensures Starts([ReplayClicked, ViewFlag(false), HiddenSettled]) == [Hidden, Hidden, Visible]
    ensures Current([ReplayClicked, ViewFlag(false), HiddenSettled]) == Visible
  {
    ReplayStartsHidden([]);
    assert [] + [ReplayClicked] == [ReplayClicked];
    var two := [ReplayClicked] + [ViewFlag(false)];
    ViewFlagDecides([ReplayClicked], false);
    assert Starts(two) == [Hidden, Hidden] by {
      assert two[..1] == [ReplayClicked];
    }
    var i := two + [HiddenSettled];
    assert i == [ReplayClicked, ViewFlag(false), HiddenSettled];
    assert i[..2] == two;
  }

  /** With only flag changes (ShinyText has no replay button) the
      variants started are exactly the mapped flags. */
  lemma {:induction false} StartsWithoutReplay(inputs: seq<Input>)
    requires forall i :: 0 <= i < |inputs| ==> inputs[i].ViewFlag?
    ensures |Starts(inputs)| == |inputs|
    ensures forall i :: 0 <= i < |inputs| ==> Starts(inputs)[i] == ViewVariant(inputs[i].isInView)
    decreases |inputs|
  {
    if inputs != [] {
      StartsWithoutReplay(inputs[..|inputs| - 1]);
    }
  }
}
