/** The update page's simulated installation: `installing` and `progress`
    are its state cells, and `timerActive` records whether the 500 ms interval
    started by `simulateInstall` is still live. One firing of that interval is
    one `Tick`. */
module Install {

  /** Progress gained per tick, and the value at which the next tick finishes. */
  const Increment: int := 10
  const Complete: int := 100

  datatype InstallState = InstallState(installing: bool, progress: int, timerActive: bool)

  /** The page as first rendered: not installing, progress 0, no interval. */
  function Idle(): InstallState {
    InstallState(false, 0, false)
  }

  /** `simulateInstall`: installing, progress reset, a new interval started.
      The result keeps the invariant and leaves 11 firings to come. */
  function Started(s: InstallState): (r: InstallState)
    requires !s.installing
    ensures Valid(r) && r.installing && Remaining(r) == 11
  {
    InstallState(true, 0, true)
  }

  /** One firing of the interval: below 100 the progress grows by 10; from
      100 on, the interval is cleared, installing ends and progress returns to 0.
      From a valid state, a firing keeps the invariant and uses up exactly one
      of the remaining firings; it is the completing one exactly when progress
      had reached 100. */
  function Ticked(s: InstallState): (r: InstallState)
    requires s.timerActive
    ensures Valid(s) ==> Valid(r) && Remaining(r) == Remaining(s) - 1
    ensures Valid(s) ==> (!r.installing <==> s.progress == Complete)
  {
    if s.progress >= Complete then InstallState(false, 0, false)
    else s.(progress := s.progress + Increment)
  }

  /** The invariant of the page: the interval is live exactly while
      installing, progress is a multiple of 10 in [0, 100], and it is 0 when
      idle. */
  predicate Valid(s: InstallState) {
    && s.timerActive == s.installing
    && 0 <= s.progress <= Complete
    && s.progress % Increment == 0
    && (!s.installing ==> s.progress == 0)
  }

  /** How many more firings the interval has: one per missing 10, plus the
      completing one. */
  function Remaining(s: InstallState): nat
    requires Valid(s)
  {
    if s.installing then (Complete - s.progress) / Increment + 1 else 0
  }

  /** The state after `n` firings, while the interval is live. */
  function TicksFrom(s: InstallState, n: nat): InstallState
    requires Valid(s) && n <= Remaining(s)
    decreases n
  {
    if n == 0 then s
    else TicksFrom(Ticked(s), n - 1)
  }

  /** A running install ends after exactly `Remaining(s)` firings: every
      earlier state is still installing, with progress rising by 10 per firing,
      and the last firing returns the page to idle. */
  lemma {:induction false} InstallCompletes(s: InstallState, n: nat)
    requires Valid(s) && s.installing && n <= Remaining(s)
    ensures Valid(TicksFrom(s, n))
    ensures n < Remaining(s) ==> TicksFrom(s, n).installing && TicksFrom(s, n).progress == s.progress + Increment * n
    ensures n == Remaining(s) ==> TicksFrom(s, n) == Idle()
    decreases n
  {
    if n > 0 {
      var t := Ticked(s);
      if t.installing {
        InstallCompletes(t, n - 1);
      } else {
        assert n == 1;
      }
    }
  }

  /** From idle, an install takes exactly 11 firings: ten that add 10 each up
      to 100, then the one that completes it. */
  lemma ElevenTicks(n: nat)
    requires n <= 11
    ensures n <= 10 ==> TicksFrom(Started(Idle()), n) == InstallState(true, 10 * n, true)
    ensures n == 11 ==> TicksFrom(Started(Idle()), n) == Idle()
  {
    InstallCompletes(Started(Idle()), n);
  }

  /** The page's two state cells, with the liveness of the interval. */
  class Installer {
    var installing: bool
    var progress: int
    var timerActive: bool

    function State(): InstallState
      reads this
    {
      InstallState(installing, progress, timerActive)
    }

    constructor ()
      ensures State() == Idle()
    {
      installing := false;
      progress := 0;
      timerActive := false;
    }

    /** `simulateInstall`, reachable only through buttons that are disabled
        while an install runs. */
    method SimulateInstall()
      requires !installing
      modifies this
      ensures State() == Started(old(State()))
      ensures Valid(State())
    {
      installing := true;
      progress := 0;
      timerActive := true;
    }

    /** One firing of the live interval. */
    method Tick()
      requires timerActive
      modifies this
      ensures State() == Ticked(old(State()))
      ensures Valid(old(State())) ==> Valid(State())
    {
      if progress >= Complete {
        timerActive := false;
        installing := false;
        progress := 0;
      } else {
        progress := progress + Increment;
      }
    }

    /** Starts an install from an idle page and lets the interval fire until it
        clears itself, counting the firings: there are 11, and the page is idle
        again afterwards. */
    method InstallToCompletion() returns (ticks: nat)
      requires Valid(State()) && !installing
      modifies this
      ensures ticks == 11 && State() == Idle()
    {
      SimulateInstall();
      ticks := 0;
      while timerActive
        invariant Valid(State())
        invariant installing ==> ticks <= 10 && progress == Increment * ticks
        invariant !installing ==> ticks == 11
        decreases Remaining(State())
      {
        Tick();
        ticks := ticks + 1;
      }
    }
  }
}
