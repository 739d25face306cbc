/** The settings cell of the DecryptedText demo page
    (src/pages/components/decrypted-text.jsx). Every control replaces the
    cell by `{ ...prev, field: ... }`: it rewrites one field and copies the
    rest. The page renders three `DecryptedText` previews with these
    settings spread into their props. */
module DecryptedTextPage {
  import DecryptedText

  datatype Settings = Settings(speed: int, iterations: int, animateOn: string, direction: string)

  /** The initial `useState` value. */
  const Initial := Settings(60, 10, "view", "start")

  /** Bounds of the two range inputs. */
  const SpeedMin := 10
  const SpeedMax := 200
  const IterationsMin := 1
  const IterationsMax := 20

  /** The speed slider's handler, given the slider's value after `parseInt`. */
  function SetSpeed(s: Settings, v: int): (r: Settings)
    ensures r.speed == v
    ensures r.iterations == s.iterations && r.animateOn == s.animateOn && r.direction == s.direction
  {
    s.(speed := v)
  }

  /** The iterations slider's handler, given the value after `parseInt`. */
  function SetIterations(s: Settings, v: int): (r: Settings)
    ensures r.iterations == v
    ensures r.speed == s.speed && r.animateOn == s.animateOn && r.direction == s.direction
  {
    s.(iterations := v)
  }

  /** The "Animate On" button. */
  function ToggleAnimateOn(s: Settings): (r: Settings)
    ensures s.animateOn == "view" ==> r.animateOn == "start"
    ensures s.animateOn != "view" ==> r.animateOn == "view"
    ensures r.speed == s.speed && r.iterations == s.iterations && r.direction == s.direction
  {
    s.(animateOn := if s.animateOn == "view" then "start" else "view")
  }

  /** The "Direction" button. */
  function ToggleDirection(s: Settings): (r: Settings)
    ensures s.direction == "start" ==> r.direction == "end"
    ensures s.direction != "start" ==> r.direction == "start"
    ensures r.speed == s.speed && r.iterations == s.iterations && r.animateOn == s.animateOn
  {
    s.(direction := if s.direction == "start" then "end" else "start")
  }

  /** On its two intended values the animateOn toggle is an involution. */
  lemma ToggleAnimateOnInvolution(s: Settings)
    requires s.animateOn == "view" || s.animateOn == "start"
    ensures ToggleAnimateOn(ToggleAnimateOn(s)) == s
  {
  }

  /** On its two intended values the direction toggle is an involution. */
  lemma ToggleDirectionInvolution(s: Settings)
    requires s.direction == "start" || s.direction == "end"
    ensures ToggleDirection(ToggleDirection(s)) == s
  {
  }

  /** Off those values a double toggle does not restore the field: any other
      value is sent to the default on the first press. */
  lemma TogglesOutsideDomain(s: Settings)
    requires s.animateOn != "view" && s.animateOn != "start"
    requires s.direction != "start" && s.direction != "end"
    ensures ToggleAnimateOn(ToggleAnimateOn(s)).animateOn == "start" != s.animateOn
    ensures ToggleDirection(ToggleDirection(s)).direction == "end" != s.direction
  {
  }

  /** A user action on the controls. Slider values are the range input's
      value after `parseInt`. */
  datatype Control = SpeedSlid(speed: int) | IterationsSlid(iterations: int) | AnimateOnPressed | DirectionPressed

  /** A range input can only report a value between its `min` and `max`. */
  predicate FromSliders(c: Control)
  {
    match c
    case SpeedSlid(v) => SpeedMin <= v <= SpeedMax
    case IterationsSlid(v) => IterationsMin <= v <= IterationsMax
    case _ => true
  }

  function Apply(s: Settings, c: Control): Settings
  {
    match c
    case SpeedSlid(v) => SetSpeed(s, v)
    case IterationsSlid(v) => SetIterations(s, v)
    case AnimateOnPressed => ToggleAnimateOn(s)
    case DirectionPressed => ToggleDirection(s)
  }

  /** The settings after a sequence of actions, oldest first. */
  function Replay(s: Settings, cs: seq<Control>): Settings
    decreases |cs|
  {
    if cs == [] then s else Replay(Apply(s, cs[0]), cs[1..])
  }

  /** What the page keeps true of its settings. */
  predicate InRange(s: Settings)
  {
    SpeedMin <= s.speed <= SpeedMax
    && IterationsMin <= s.iterations <= IterationsMax
    && (s.animateOn == "view" || s.animateOn == "start")
    && (s.direction == "start" || s.direction == "end")
  }

  lemma InitialInRange()
    ensures InRange(Initial)
  {
  }

  lemma ApplyPreservesInRange(s: Settings, c: Control)
    requires InRange(s) && FromSliders(c)
    ensures InRange(Apply(s, c))
  {
  }

  /** Every sequence of slider and button actions keeps the settings in
      range; in particular `iterations` stays within 1..20. */
  lemma {:induction false} ReplayInRange(s: Settings, cs: seq<Control>)
    requires InRange(s)
    requires forall i :: 0 <= i < |cs| ==> FromSliders(cs[i])
    ensures InRange(Replay(s, cs))
    decreases |cs|
  {
    if cs != [] {
      ApplyPreservesInRange(s, cs[0]);
      ReplayInRange(Apply(s, cs[0]), cs[1..]);
    }
  }

  /** A preview started from the page's settings, after any sequence of
      control actions: its scramble stops after exactly `iterations` ticks
      and shows `text` again. */
  method PreviewRun(cs: seq<Control>, text: string) returns (shown: string, ticks: nat)
    requires forall i :: 0 <= i < |cs| ==> FromSliders(cs[i])
    ensures ticks == Replay(Initial, cs).iterations
    ensures 1 <= ticks <= IterationsMax
    ensures shown == text
  {
    var s := Replay(Initial, cs);
    ReplayInRange(Initial, cs);
    var d := new DecryptedText.Decrypter(text, s.iterations as real, s.animateOn, s.direction);
    d.Start();
    ticks := d.RunFor(IterationsMax as nat);
    shown := d.displayText;
  }
}
