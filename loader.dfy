/** The splash-screen loader (src/Components/Loader.jsx).

    Every 15 ms a timeout fires once for the current `progress`; it either
    advances `progress` by 2 (capped at 100) and possibly switches the
    status label, or, once `progress` has reached 100, tells the parent
    that loading is over. The effect re-arms whenever `progress` changes,
    so the whole run is a counting loop, modelled here by `Tick` and
    `RunToCompletion`. */
module Loader {

  /** The labels the loader can show, as written in the source. */
  const Initializing := "Initializing"
  const LoadingAssets := "Loading Assets"
  const PreparingCanvas := "Preparing Canvas"
  const LoadingAnimations := "Loading Animations"
  const AlmostThere := "Almost There"
  const Ready := "Ready!"

  /** What one timeout observes and changes: the progress counter, the
      label, and whether the parent still shows the loader. */
  datatype Snapshot = Snapshot(progress: int, text: string, loading: bool)

  const Start := Snapshot(0, Initializing, true)

  /** The label written on a tick whose pre-tick progress is `p`, or the
      unchanged `text` when no threshold matches. */
  function Relabel(p: int, text: string): string
  {
    if p == 20 then LoadingAssets
    else if p == 40 then PreparingCanvas
    else if p == 60 then LoadingAnimations
    else if p == 80 then AlmostThere
    else if p == 95 then Ready
    else text
  }

  /** One timeout: the specification of `ProgressLoader.Tick`. */
  function Advance(s: Snapshot): (r: Snapshot)
    ensures s.progress < 100 ==> r.loading == s.loading && r.progress > s.progress
    ensures s.progress >= 100 ==> r == s.(loading := false)
    ensures 0 <= s.progress <= 100 ==> 0 <= r.progress <= 100
  {
    if s.progress < 100 then
      Snapshot(if s.progress + 2 < 100 then s.progress + 2 else 100,
               Relabel(s.progress, s.text), s.loading)
    else
      s.(loading := false)
  }

  /** The state after `n` timeouts from the initial state. */
  function Run(n: nat): Snapshot
  {
    if n == 0 then Start else Advance(Run(n - 1))
  }

  /** The label shown at a given (reachable) progress value: an
      independent, closed-form description of the label sequence. */
  function LabelAt(p: int): string
  {
    if p <= 20 then Initializing
    else if p <= 40 then LoadingAssets
    else if p <= 60 then PreparingCanvas
    else if p <= 80 then LoadingAnimations
    else AlmostThere
  }

  /** The states the loader can be in: even progress between 0 and 100,
      the label that progress implies, and loading still on unless the
      counter has reached 100. */
  predicate Reachable(s: Snapshot)
  {
    0 <= s.progress <= 100 && s.progress % 2 == 0
    && s.text == LabelAt(s.progress)
    && (!s.loading ==> s.progress == 100)
  }

  lemma StartReachable()
    ensures Reachable(Start)
    ensures Start.progress == 0 && Start.text == "Initializing" && Start.loading
  {
  }

  /** Each timeout keeps the loader among the reachable states. */
  lemma AdvancePreserves(s: Snapshot)
    requires Reachable(s)
    ensures Reachable(Advance(s))
  {
    if s.progress < 100 {
      assert s.progress + 2 <= 100;
    }
  }

  /** A reachable state never shows "Ready!": the progress is even, so
      the `progress === 95` branch can never fire. */
  lemma ReachableNeverReady(s: Snapshot)
    requires Reachable(s)
    ensures s.text != Ready
    ensures s.progress != 95
    ensures Relabel(s.progress, s.text) != Ready
  {
  }

  /** The change of label happens only on ticks whose pre-tick progress is
      20, 40, 60 or 80; every other tick leaves the label alone. */
  lemma LabelChangesOnlyAtThresholds(s: Snapshot)
    requires Reachable(s)
    ensures Advance(s).text != s.text <==>
              s.progress in {20, 40, 60, 80}
  {
  }

  /** Closed form of the run: after `n` timeouts the progress is
      `min(2n, 100)`, the label is the one that progress implies, and
      the loader still shows exactly while `n <= 50`. */
  lemma {:induction false} RunClosedForm(n: nat)
    ensures Reachable(Run(n))
    ensures Run(n).progress == if 2 * n < 100 then 2 * n else 100
    ensures Run(n).loading <==> n <= 50
  {
    if n > 0 {
      RunClosedForm(n - 1);
      AdvancePreserves(Run(n - 1));
    }
  }

  /** Every state on the run is reachable, so "Ready!" is never shown. */
  lemma {:induction false} RunNeverReady(n: nat)
    ensures Run(n).text != Ready
  {
    RunClosedForm(n);
    ReachableNeverReady(Run(n));
  }

  /** `setLoading(false)` first happens on timeout 51: fifty increments
      bring the counter from 0 to 100, and the next timeout ends loading. */
  lemma {:induction false} LoadingEndsAfterFiftyIncrements()
    ensures Run(50).progress == 100 && Run(50).loading
    ensures !Run(51).loading
    ensures forall n: nat :: n < 50 ==> Run(n).progress < 100
    ensures Run(51).text == AlmostThere
  {
    RunClosedForm(50);
    RunClosedForm(51);
    forall n: nat | n < 50 ensures Run(n).progress < 100 {
      RunClosedForm(n);
    }
  }

  /** The loader component: the two state cells and the parent's
      `loading` flag, advanced one timeout at a time. */
  class ProgressLoader {
    var progress: int
    var loadingText: string
    var loading: bool

    function State(): Snapshot
      reads this
    {
      Snapshot(progress, loadingText, loading)
    }

    constructor ()
      ensures State() == Start
    {
      progress := 0;
      loadingText := Initializing;
      loading := true;
    }

    /** One 15 ms timeout. */
    method Tick()
      modifies this
      ensures State() == Advance(old(State()))
    {
      if progress < 100 {
        var before := progress;
        progress := if progress + 2 < 100 then progress + 2 else 100;
        if before == 20 { loadingText := LoadingAssets; }
        if before == 40 { loadingText := PreparingCanvas; }
        if before == 60 { loadingText := LoadingAnimations; }
        if before == 80 { loadingText := AlmostThere; }
        if before == 95 { loadingText := Ready; }
      } else {
        loading := false;
      }
    }

    /** Drives the timeouts until the loader is dismissed, from the
        initial state; returns how many timeouts fired. */
    method RunToCompletion() returns (ticks: nat)
      requires State() == Start
      modifies this
      ensures ticks == 51
      ensures State() == Run(51)
      ensures progress == 100 && !loading && loadingText == AlmostThere
    {
      ticks := 0;
      while loading
        invariant State() == Run(ticks)
        invariant Reachable(State())
        invariant ticks == (if loading then progress / 2 else 51)
        decreases 100 - progress + (if loading then 1 else 0)
      {
        AdvancePreserves(State());
        Tick();
        ticks := ticks + 1;
      }
      LoadingEndsAfterFiftyIncrements();
    }
  }
}
