/** The shape cycler (src/Components/animations/MorphingSvg.jsx): an index
    into the six named SVG paths, advanced by an interval timer unless
    the pointer is over the shape, and by the replay button; the gradient
    colours are picked from `colors` by the same index. */
module MorphingSvg {
  import opened Wrappers

  /** `Object.keys(paths)`, in declaration order. */
  const PathNames: seq<string> := ["circle", "square", "triangle", "star", "blob", "wave"]

  /** `(prev + 1) % pathNames.length`. */
  function Next(p: nat): nat
  {
    (p + 1) % |PathNames|
  }

  /** `n` advances in a row. */
  function AdvanceBy(p: nat, n: nat): nat
  {
    if n == 0 then p else Next(AdvanceBy(p, n - 1))
  }

  /** `n` advances from an index in range land on `(p + n) mod 6`. */
  lemma {:induction false} AdvanceByClosedForm(p: nat, n: nat)
    requires p < |PathNames|
    ensures AdvanceBy(p, n) == (p + n) % 6
  {
    if n > 0 {
      AdvanceByClosedForm(p, n - 1);
    }
  }

  /** Six advances bring the shape back to where it started. */
  lemma SixAdvancesCycle(p: nat)
    requires p < |PathNames|
    ensures AdvanceBy(p, 6) == p
    ensures forall n :: 0 < n < 6 ==> AdvanceBy(p, n) != p
  {
    AdvanceByClosedForm(p, 6);
    forall n | 0 < n < 6 ensures AdvanceBy(p, n) != p {
      AdvanceByClosedForm(p, n);
    }
  }

  /** What the component reacts to. */
  datatype Event = TimerFired | ReplayClicked | PointerEnter | PointerLeave

  /** The two state cells. */
  datatype View = View(currentPath: nat, isHovered: bool)

  const Initial := View(0, false)

  /** One event. A timer only exists when `autoPlay` is on, and its tick
      does nothing while the shape is hovered. */
  function Step(v: View, e: Event, autoPlay: bool): View
  {
    match e
    case TimerFired =>
      if autoPlay && !v.isHovered then v.(currentPath := Next(v.currentPath)) else v
    case ReplayClicked => v.(currentPath := Next(v.currentPath))
    case PointerEnter => v.(isHovered := true)
    case PointerLeave => v.(isHovered := false)
  }

  function Run(v: View, events: seq<Event>, autoPlay: bool): View
    decreases |events|
  {
    if events == [] then v else Run(Step(v, events[0], autoPlay), events[1..], autoPlay)
  }

  function CountReplays(events: seq<Event>): nat
  {
    if events == [] then 0
    else (if events[0] == ReplayClicked then 1 else 0) + CountReplays(events[1..])
  }

  /** The index stays a valid index into the six paths after any events. */
  lemma {:induction false} RunInRange(v: View, events: seq<Event>, autoPlay: bool)
    requires v.currentPath < |PathNames|
    ensures Run(v, events, autoPlay).currentPath < |PathNames|
    decreases |events|
  {
    if events != [] {
      RunInRange(Step(v, events[0], autoPlay), events[1..], autoPlay);
    }
  }

  /** With `autoPlay` off no timer is installed, so only replay clicks
      move the shape: one advance per click, whatever the hovering did. */
  lemma {:induction false} OnlyReplayWithoutAutoPlay(v: View, events: seq<Event>)
    ensures Run(v, events, false).currentPath == AdvanceBy(v.currentPath, CountReplays(events))
    decreases |events|
  {
    if events != [] {
      var v' := Step(v, events[0], false);
      OnlyReplayWithoutAutoPlay(v', events[1..]);
      AdvanceByShift(v.currentPath, CountReplays(events[1..]), events[0] == ReplayClicked);
    }
  }

  lemma {:induction false} AdvanceByShift(p: nat, n: nat, step: bool)
    ensures AdvanceBy(if step then Next(p) else p, n) == AdvanceBy(p, n + if step then 1 else 0)
  {
    if step && n > 0 {
      AdvanceByShift(p, n - 1, step);
    }
  }

  /** `colors[i % colors.length]`: `undefined` when `colors` is empty,
      since the remainder is then NaN. */
  function ColorAt(colors: seq<string>, i: nat): Option<string>
  {
    if |colors| == 0 then None else Some(colors[i % |colors|])
  }

  /** The index `currentColor` reads, for a non-empty palette. */
  function CurrentColorIndex(colors: seq<string>, p: nat): nat
    requires |colors| > 0
  {
    p % |colors|
  }

  /** For a non-empty palette both gradient stops are colours of the
      palette, and the second is the palette entry after the first,
      wrapping around; an empty palette yields no colour. */
  lemma ColorIndices(colors: seq<string>, p: nat)
    ensures |colors| == 0 ==> ColorAt(colors, p) == None && ColorAt(colors, p + 1) == None
    ensures |colors| > 0 ==>
              CurrentColorIndex(colors, p) < |colors|
              && ColorAt(colors, p) == Some(colors[CurrentColorIndex(colors, p)])
              && ColorAt(colors, p + 1) == Some(colors[(CurrentColorIndex(colors, p) + 1) % |colors|])
  {
    if |colors| > 0 {
      ModSucc(p, |colors|);
    }
  }

  lemma {:induction false} MulAtLeast(d: int, n: int)
    requires d >= 1 && n > 0
    ensures d * n >= n
    decreases d
  {
    if d > 1 {
      MulAtLeast(d - 1, n);
      assert d * n == (d - 1) * n + n;
    }
  }

  /** Euclidean remainder is determined by any quotient/remainder split. */
  lemma ModUnique(x: int, n: int, q: int, r: int)
    requires n > 0 && 0 <= r < n && x == q * n + r
    ensures x % n == r
  {
    var q0, r0 := x / n, x % n;
    assert x == q0 * n + r0;
    var d := q - q0;
    assert d * n == q * n - q0 * n;
    assert d * n == r0 - r;
    if d >= 1 {
      MulAtLeast(d, n);
    } else if d <= -1 {
      MulAtLeast(-d, n);
    }
  }

  lemma ModSucc(p: nat, n: nat)
    requires n > 0
    ensures (p + 1) % n == (p % n + 1) % n
  {
    var q, r := p / n, p % n;
    if r + 1 < n {
      ModUnique(p + 1, n, q, r + 1);
      ModUnique(r + 1, n, 0, r + 1);
    } else {
      ModUnique(p + 1, n, q + 1, 0);
      ModUnique(r + 1, n, 1, 0);
    }
  }

  /** The component: its two state cells, advanced by its handlers. */
  class Morpher {
    var currentPath: nat
    var isHovered: bool
    const autoPlay: bool

    function State(): View
      reads this
    {
      View(currentPath, isHovered)
    }

    predicate Valid()
      reads this
    {
      currentPath < |PathNames|
    }

    constructor (autoPlay: bool)
      ensures State() == Initial && this.autoPlay == autoPlay && Valid()
    {
      currentPath := 0;
      isHovered := false;
      this.autoPlay := autoPlay;
    }

    /** One firing of the interval timer. */
    method TimerTick()
      requires Valid()
      modifies this
      ensures Valid() && State() == Step(old(State()), TimerFired, autoPlay)
      ensures autoPlay && !old(isHovered) ==> currentPath == Next(old(currentPath))
      ensures !autoPlay || old(isHovered) ==> currentPath == old(currentPath)
      ensures isHovered == old(isHovered)
    {
      if autoPlay && !isHovered {
        currentPath := (currentPath + 1) % |PathNames|;
      }
    }

    /** `handleReplay`: advance regardless of hover. */
    method HandleReplay()
      requires Valid()
      modifies this
      ensures Valid() && State() == Step(old(State()), ReplayClicked, autoPlay)
      ensures currentPath == Next(old(currentPath)) && isHovered == old(isHovered)
    {
      currentPath := (currentPath + 1) % |PathNames|;
    }

    method MouseEnter()
      requires Valid()
      modifies this
      ensures Valid() && State() == Step(old(State()), PointerEnter, autoPlay)
      ensures isHovered && currentPath == old(currentPath)
    {
      isHovered := true;
    }

    method MouseLeave()
      requires Valid()
      modifies this
      ensures Valid() && State() == Step(old(State()), PointerLeave, autoPlay)
      ensures !isHovered && currentPath == old(currentPath)
    {
      isHovered := false;
    }

    /** The path drawn: `paths[pathNames[currentPath]]`, named here. */
    function CurrentShape(): (name: string)
      requires Valid()
      reads this
      ensures name in PathNames
    {
      PathNames[currentPath]
    }
  }
}
