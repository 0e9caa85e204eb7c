/**
  The background scan loop (Backgrounder.cs, `ScanAsync`).

  Every await of the loop is an opaque step; what one pass of the loop meets is
  handed in as an `Outcome`. The state the loop keeps is the local `waitTimeout`
  (a C# `int`) and the local `disabled`; the model also records the argument of
  every `Task.Delay` it starts and the number of dialog sessions that ran to
  their end.
 */
module Backgrounder {
  import opened QuickWatch

  const DefaultWaitTimeout: int := 1000
  const IncreaseWaitTimeout: int := 1000

  /** 2^31: `int` holds -2^31 .. 2^31 - 1. */
  const IntBound: int := 0x8000_0000

  /**
    The largest number of loop passes after which the timeout provably has not
    wrapped yet: 1000 + 1000 * 2147482 is the last multiple of 1000 below 2^31.
   */
  const SafeCycles: nat := 2147482

  /** C# `int` arithmetic outside a `checked` context wraps around modulo 2^32. */
  function Wrap32(x: int): (r: int)
    ensures -IntBound <= r < IntBound
    ensures -IntBound <= x < IntBound ==> r == x
    ensures (x - r) % (2 * IntBound) == 0
    ensures r % 2 == x % 2
  {
    var q := (x + IntBound) / (2 * IntBound);
    var m := (x + IntBound) % (2 * IntBound);
    assert x + IntBound == 2 * IntBound * q + m;
    assert x - (m - IntBound) == 2 * (IntBound * q);
    m - IntBound
  }

  /**
    What one pass of the loop meets after its cancellation check:
    - `Cancelled`: cancellation was requested before the pass, seen by the check at its top;
    - `Interrupted`: cancellation arrives during the delay or the switch to the main
      thread, the two awaits given the token, which raise `OperationCanceledException`.
      The wait for the dialog to close does not throw: it stops polling and returns,
      so a cancellation during it is a `Completed` pass followed by a `Cancelled` one;
    - `NotFound`: `TryCreate` finds no dialog;
    - `Completed`: a dialog is found, set up, and closed;
    - `Error`: any other exception (`TryCreate` or `InitialSetup` throws).
   */
  datatype Outcome = Cancelled | Interrupted | NotFound | Completed | Error

  /**
    The loop's state: the locals `waitTimeout` and `disabled`, the arguments of the
    delays started so far, the sessions that ran to their end, and whether the
    loop still runs.
   */
  datatype Scan = Scan(waitTimeout: int, disabled: bool, delays: seq<int>, sessions: nat, running: bool)

  /** The state on entry to the loop. */
  function Initial(): Scan {
    Scan(DefaultWaitTimeout, false, [], 0, true)
  }

  /**
    One pass of the loop. `Task.Delay` rejects an argument below -1 with an
    `ArgumentOutOfRangeException`, which the general handler catches; an argument
    of -1 waits until cancellation.
   */
  function Step(s: Scan, o: Outcome): (r: Scan)
    requires s.running
    ensures r.disabled == s.disabled
    ensures o == Cancelled ==> r == s.(running := false)
    ensures o != Cancelled ==> r.delays == s.delays + [s.waitTimeout]
    ensures r.sessions == s.sessions || (o == Completed && r.sessions == s.sessions + 1)
    ensures !r.running ==> r.waitTimeout == s.waitTimeout && r.sessions == s.sessions
    ensures r.sessions > s.sessions ==> r.waitTimeout == DefaultWaitTimeout
  {
    if o == Cancelled then s.(running := false)
    else
      var delayed := s.(delays := s.delays + [s.waitTimeout]);
      if s.waitTimeout < -1 then delayed.(waitTimeout := Wrap32(s.waitTimeout + IncreaseWaitTimeout))
      else if s.waitTimeout == -1 || o == Interrupted then delayed.(running := false)
      else if s.disabled || o == NotFound then delayed
      else if o == Completed then delayed.(waitTimeout := DefaultWaitTimeout, sessions := s.sessions + 1)
      else delayed.(waitTimeout := Wrap32(s.waitTimeout + IncreaseWaitTimeout))
  }

  /** The loop over a finite sequence of passes; it ends early when a pass returns. */
  function Run(s: Scan, os: seq<Outcome>): (r: Scan)
    ensures r.disabled == s.disabled
    ensures r.sessions <= s.sessions + |os|
    ensures |s.delays| <= |r.delays| <= |s.delays| + |os|
    ensures r.delays[..|s.delays|] == s.delays
    ensures r.running ==> s.running
    decreases |os|
  {
    if |os| == 0 || !s.running then s
    else Run(Step(s, os[0]), os[1..])
  }

  /** Running one more pass after a prefix is a step from the prefix's end state. */
  lemma {:induction false} RunAppend(s: Scan, os: seq<Outcome>, o: Outcome)
    ensures Run(s, os + [o]) == if Run(s, os).running then Step(Run(s, os), o) else Run(s, os)
    decreases |os|
  {
    if |os| > 0 && s.running {
      assert (os + [o])[1..] == os[1..] + [o];
      RunAppend(Step(s, os[0]), os[1..], o);
    }
  }

  /**
    The loop, as `ScanAsync` runs it over the passes `outcomes`. It reports the final
    timeout, the delays started, the sessions completed, and whether it returned.
   */
  method ScanAsync(outcomes: seq<Outcome>) returns (waitTimeout: int, delays: seq<int>, sessions: nat, returned: bool)
    ensures Run(Initial(), outcomes) == Scan(waitTimeout, false, delays, sessions, !returned)
    ensures |outcomes| <= SafeCycles ==>
      DefaultWaitTimeout <= waitTimeout
      && forall k :: 0 <= k < |delays| ==> DefaultWaitTimeout <= delays[k]
  {
    TimeoutNeverBelowDefault(outcomes);
    waitTimeout := DefaultWaitTimeout;
    var disabled := false;
    delays, sessions, returned := [], 0, false;
    var i := 0;
    while i < |outcomes|
      invariant 0 <= i <= |outcomes|
      invariant Run(Initial(), outcomes) == Run(Scan(waitTimeout, disabled, delays, sessions, true), outcomes[i..])
    {
      var o := outcomes[i];
      assert outcomes[i..][1..] == outcomes[i + 1..];
      i := i + 1;
      if o == Cancelled {
        returned := true;
        return;
      }
      delays := delays + [waitTimeout];
      if waitTimeout < -1 {
        // The delay rejects its argument; the general handler backs off.
        waitTimeout := Wrap32(waitTimeout + IncreaseWaitTimeout);
        continue;
      }
      if waitTimeout == -1 || o == Interrupted {
        returned := true;
        return;
      }
      if disabled {
        continue;
      }
      if o == NotFound {
        continue;
      }
      if o == Error {
        waitTimeout := Wrap32(waitTimeout + IncreaseWaitTimeout);
        continue;
      }
      sessions := sessions + 1;
      waitTimeout := DefaultWaitTimeout;
    }
  }

  // ---------------------------------------------------------------------------
  // The backoff.
  // ---------------------------------------------------------------------------

  /** After `k` passes the timeout lies in [1000, 1000 + 1000k] and so did every delay. */
  ghost predicate Bounded(s: Scan, k: nat) {
    DefaultWaitTimeout <= s.waitTimeout <= DefaultWaitTimeout + IncreaseWaitTimeout * k
    && forall j :: 0 <= j < |s.delays| ==> DefaultWaitTimeout <= s.delays[j]
  }

  lemma {:induction false} RunBounded(s: Scan, os: seq<Outcome>, k: nat)
    requires Bounded(s, k) && k + |os| <= SafeCycles
    ensures Bounded(Run(s, os), k + |os|)
    decreases |os|
  {
    if |os| > 0 && s.running {
      var t := Step(s, os[0]);
      assert Bounded(t, k + 1);
      RunBounded(t, os[1..], k + 1);
    }
  }

  /**
    The timeout never drops below 1000, and no delay is shorter, for as long as the
    timeout cannot have wrapped: runs of at most `SafeCycles` passes.
   */
  lemma TimeoutNeverBelowDefault(os: seq<Outcome>)
    ensures |os| <= SafeCycles ==>
      var r := Run(Initial(), os);
      DefaultWaitTimeout <= r.waitTimeout <= DefaultWaitTimeout + IncreaseWaitTimeout * |os|
      && forall j :: 0 <= j < |r.delays| ==> DefaultWaitTimeout <= r.delays[j]
  {
    if |os| <= SafeCycles {
      RunBounded(Initial(), os, 0);
    }
  }

  /** `n` passes that all end in an ordinary exception. */
  function Errors(n: nat): (r: seq<Outcome>)
    ensures |r| == n && forall k :: 0 <= k < n ==> r[k] == Error
  {
    seq(n, _ => Error)
  }

  /**
    After `n` consecutive errors from the start the timeout is 1000 + 1000n, and the
    delays so far were 1000, 2000, ..., 1000n.
   */
  lemma {:induction false} FailureStreak(n: nat)
    requires n <= SafeCycles
    ensures Run(Initial(), Errors(n))
      == Scan(DefaultWaitTimeout + IncreaseWaitTimeout * n, false,
              seq(n, k => DefaultWaitTimeout + IncreaseWaitTimeout * k), 0, true)
  {
    if n > 0 {
      FailureStreak(n - 1);
      assert Errors(n) == Errors(n - 1) + [Error];
      RunAppend(Initial(), Errors(n - 1), Error);
    }
  }

  /** One error more than `SafeCycles` wraps the timeout around to a negative value. */
  lemma TimeoutWraps()
    ensures Run(Initial(), Errors(SafeCycles + 1)).waitTimeout == -2147483296
  {
    FailureStreak(SafeCycles);
    assert Errors(SafeCycles + 1) == Errors(SafeCycles) + [Error];
    RunAppend(Initial(), Errors(SafeCycles), Error);
  }

  /**
    Once the timeout is below -1 every delay throws before any dialog is looked
    for, so every pass but a cancelled one only backs off.
   */
  lemma NegativeTimeoutOnlyBacksOff(s: Scan, o: Outcome)
    requires s.running && s.waitTimeout < -1 && o != Cancelled
    ensures Step(s, o) == s.(waitTimeout := Wrap32(s.waitTimeout + IncreaseWaitTimeout),
                             delays := s.delays + [s.waitTimeout])
  {
  }

  /** Running two stretches of passes one after the other. */
  lemma {:induction false} RunConcat(s: Scan, a: seq<Outcome>, b: seq<Outcome>)
    ensures Run(s, a + b) == Run(Run(s, a), b)
    decreases |a|
  {
    if |a| > 0 && s.running {
      assert (a + b)[1..] == a[1..] + b;
      RunConcat(Step(s, a[0]), a[1..], b);
    } else if |a| == 0 {
      assert a + b == b;
    }
  }

  /**
    While the timeout stays below -1 every pass that is not cancelled throws at the
    delay and adds 1000, so the stretch is finite: `n` such passes raise the timeout
    by exactly 1000n, with the delays tried being the timeouts passed through.
   */
  lemma {:induction false} BackOffStretch(s: Scan, os: seq<Outcome>)
    requires s.running && -IntBound <= s.waitTimeout
    requires |os| > 0 ==> s.waitTimeout + IncreaseWaitTimeout * (|os| - 1) < -1
    requires forall k :: 0 <= k < |os| ==> os[k] != Cancelled
    ensures Run(s, os)
      == s.(waitTimeout := s.waitTimeout + IncreaseWaitTimeout * |os|,
            delays := s.delays + seq(|os|, k => s.waitTimeout + IncreaseWaitTimeout * k))
    decreases |os|
  {
    if |os| > 0 {
      var t := Step(s, os[0]);
      assert t == s.(waitTimeout := s.waitTimeout + IncreaseWaitTimeout, delays := s.delays + [s.waitTimeout]);
      assert forall k :: 0 <= k < |os[1..]| ==> os[1..][k] == os[k + 1];
      BackOffStretch(t, os[1..]);
      var tail := seq(|os| - 1, k => t.waitTimeout + IncreaseWaitTimeout * k);
      var whole := seq(|os|, k => s.waitTimeout + IncreaseWaitTimeout * k);
      assert [s.waitTimeout] + tail == whole;
    }
  }

  /** The number of throwing passes after the wrap, until the timeout is back above -1. */
  const RecoveryPasses: nat := 2147484

  /**
    After the wrap the timeout climbs back: `RecoveryPasses` throwing passes later it
    is 704, so the loop delays again, first for less than the 1000 default.
   */
  lemma TimeoutRecovers()
    ensures var r := Run(Initial(), Errors(SafeCycles + 1) + Errors(RecoveryPasses));
      r.running && r.waitTimeout == 704 && r.waitTimeout < DefaultWaitTimeout && r.sessions == 0
  {
    FailureStreak(SafeCycles);
    assert Errors(SafeCycles + 1) == Errors(SafeCycles) + [Error];
    RunAppend(Initial(), Errors(SafeCycles), Error);
    var w := Run(Initial(), Errors(SafeCycles + 1));
    assert w.running && w.waitTimeout == -2147483296 && w.sessions == 0;
    RunConcat(Initial(), Errors(SafeCycles + 1), Errors(RecoveryPasses));
    BackOffStretch(w, Errors(RecoveryPasses));
  }

  /**
    Every timeout the loop reaches is even, so it is never -1, the argument that
    would make the delay wait until cancellation, however long the loop runs.
   */
  lemma {:induction false} TimeoutStaysEven(s: Scan, os: seq<Outcome>)
    requires s.waitTimeout % 2 == 0
    ensures Run(s, os).waitTimeout % 2 == 0 && Run(s, os).waitTimeout != -1
    decreases |os|
  {
    if |os| > 0 && s.running {
      var t := Step(s, os[0]);
      var backedOff := Wrap32(s.waitTimeout + IncreaseWaitTimeout);
      assert backedOff % 2 == 0;
      assert t.waitTimeout in {s.waitTimeout, DefaultWaitTimeout, backedOff};
      TimeoutStaysEven(t, os[1..]);
    }
  }

  // ---------------------------------------------------------------------------
  // The effect of one pass on a state the loop reaches.
  // ---------------------------------------------------------------------------

  /** What each outcome does to a running state with a usable timeout. */
  lemma StepOnReached(s: Scan)
    requires s.running && s.waitTimeout >= 0 && !s.disabled
    ensures Step(s, Completed)
      == s.(waitTimeout := DefaultWaitTimeout, delays := s.delays + [s.waitTimeout], sessions := s.sessions + 1)
    ensures Step(s, NotFound) == s.(delays := s.delays + [s.waitTimeout])
    ensures Step(s, Error)
      == s.(waitTimeout := Wrap32(s.waitTimeout + IncreaseWaitTimeout), delays := s.delays + [s.waitTimeout])
    ensures Step(s, Interrupted) == s.(delays := s.delays + [s.waitTimeout], running := false)
  {
  }

  /** A pass that finds a dialog, sets it up and sees it closed resets the timeout to 1000. */
  lemma CompletedCycleResets(os: seq<Outcome>)
    requires Run(Initial(), os).running && Run(Initial(), os).waitTimeout >= 0
    ensures var s := Run(Initial(), os);
      Run(Initial(), os + [Completed])
        == s.(waitTimeout := DefaultWaitTimeout, delays := s.delays + [s.waitTimeout], sessions := s.sessions + 1)
  {
    var s := Run(Initial(), os);
    RunAppend(Initial(), os, Completed);
    StepOnReached(s);
  }

  /** A pass that finds no dialog leaves the timeout as it was. */
  lemma NotFoundCycleKeeps(os: seq<Outcome>)
    requires Run(Initial(), os).running && Run(Initial(), os).waitTimeout >= 0
    ensures var s := Run(Initial(), os);
      Run(Initial(), os + [NotFound]) == s.(delays := s.delays + [s.waitTimeout])
  {
    RunAppend(Initial(), os, NotFound);
    StepOnReached(Run(Initial(), os));
  }

  /**
    A pass that ends in an ordinary exception adds 1000 to the timeout, exactly,
    whenever the sum still fits in an `int`.
   */
  lemma ErrorCycleBacksOff(os: seq<Outcome>)
    requires Run(Initial(), os).running
    requires 0 <= Run(Initial(), os).waitTimeout < IntBound - IncreaseWaitTimeout
    ensures var s := Run(Initial(), os);
      Run(Initial(), os + [Error])
        == s.(waitTimeout := s.waitTimeout + IncreaseWaitTimeout, delays := s.delays + [s.waitTimeout])
  {
    var s := Run(Initial(), os);
    RunAppend(Initial(), os, Error);
    StepOnReached(s);
  }

  /**
    Cancellation ends the loop whatever comes after it: the timeout and the
    sessions are untouched; seen at the top of a pass, no delay is started either.
   */
  lemma CancellationStops(s: Scan, rest: seq<Outcome>)
    requires s.running && s.waitTimeout >= -1
    ensures Run(s, [Cancelled] + rest) == s.(running := false)
    ensures Run(s, [Interrupted] + rest) == s.(delays := s.delays + [s.waitTimeout], running := false)
  {
    assert ([Cancelled] + rest)[1..] == rest;
    assert ([Interrupted] + rest)[1..] == rest;
  }

  /**
    A cancellation that arrives while the dialog is open does not interrupt the
    pass: the wait returns, the timeout is reset and the session counted, and the
    loop returns at the top of the next pass.
   */
  lemma CancelDuringWaitResets(s: Scan, rest: seq<Outcome>)
    requires s.running && s.waitTimeout >= 0 && !s.disabled
    ensures Run(s, [Completed, Cancelled] + rest)
      == s.(waitTimeout := DefaultWaitTimeout, delays := s.delays + [s.waitTimeout],
            sessions := s.sessions + 1, running := false)
  {
    var os := [Completed, Cancelled] + rest;
    var more := [Cancelled] + rest;
    assert os[0] == Completed && os[1..] == more;
    StepOnReached(s);
    var t := Step(s, Completed);
    assert Run(s, os) == Run(t, more);
    assert more[0] == Cancelled && more[1..] == rest;
    assert Run(t, more) == Run(t.(running := false), rest);
  }

  // ---------------------------------------------------------------------------
  // One pass that reaches the dialog, run on the dialog model.
  // ---------------------------------------------------------------------------

  /**
    The outcome a pass that reaches `TryCreate` has, from the open windows and
    what the dialog holds: no window, a constructor that throws, or a setup that
    throws (the label is not a child of the combo box's grid) end it differently.
   */
  function DialogOutcome(windows: seq<string>, tree: DialogTree): (o: Outcome)
    requires WellFormed(tree)
    ensures o in {NotFound, Error, Completed}
    ensures o == NotFound <==> WatchWindowTypeName !in windows
    ensures o == Completed ==> Constructible(tree)
    ensures o == Error <==>
      WatchWindowTypeName in windows
      && (!Constructible(tree) || (SessionOk(tree) && tree.expressionLabel.value !in tree.comboBoxGrid.value))
  {
    if WatchWindowTypeName !in windows then NotFound
    else if !Constructible(tree) then Error
    else if SessionOk(tree) && tree.expressionLabel.value !in tree.comboBoxGrid.value then Error
    else Completed
  }

  /**
    The dialog part of a pass: create a session, set it up, wait for it to close.
    It reports how many sessions it created, and whether setup left the session
    rewritten. At most one session is created, and a pass that completes has set
    it up and waited for it.
   */
  method DialogCycle(windows: seq<string>, tree: DialogTree) returns (o: Outcome, created: nat, rewritten: bool)
    requires WellFormed(tree)
    ensures o == DialogOutcome(windows, tree)
    ensures created <= 1
    ensures created == 1 <==> WatchWindowTypeName in windows && Constructible(tree)
    ensures o == Completed ==> created == 1
    ensures rewritten <==>
      created == 1 && SessionOk(tree) && tree.expressionLabel.value in tree.comboBoxGrid.value
    ensures rewritten ==> o == Completed
  {
    var creation := TryCreate(windows, tree);
    created, rewritten := 0, false;
    match creation
    case NoWindow =>
      o := NotFound;
    case Threw =>
      o := Error;
    case Created(dialog) =>
      created := 1;
      var threw := dialog.InitialSetup();
      rewritten := dialog.phase == Ready;
      if threw {
        o := Error;
        return;
      }
      dialog.WaitForClosing();
      o := Completed;
  }
}
