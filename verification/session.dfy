/**
 * A client's use of one LED handle: a sequence of driver calls issued one
 * after the other on the same record. The lemmas here are the driver's
 * sequential guarantees: used one call at a time, the lock is never seen
 * held; a handle left holding the lock refuses everything; calls other than
 * LED_Init never rebind the port or pin and never touch another pin.
 */
module Session {
  import opened Hal
  import opened Led

  /** One public driver call on an already allocated handle */
  datatype Call =
    | InitCall(port: Port, pin: PinMask)
    | DeInitCall
    | SetActiveModeCall(mode: ActiveMode)
    | WriteCall(state: PinState)
    | ToggleCall
    | BlinkCall(timeout: u32)

  /** The record, the trace, and the status each call returned, in order */
  datatype History = History(led: LedStruct, trace: Trace, statuses: seq<Status>)

  /** Dispatches one call to the driver operation it names */
  function Step(d: LedStruct, t: Trace, c: Call): (r: Outcome)
    ensures t <= r.trace
    ensures Held(d) && !c.InitCall? ==> r == Outcome(d, t, Busy)
    ensures !Held(d) || c.InitCall? ==> r.status == Ok && !Held(r.led)
    ensures !c.InitCall? ==> r.led.port == d.port && r.led.pin == d.pin
    ensures !c.InitCall? && !c.SetActiveModeCall? ==> r.led.activeMode == d.activeMode
    ensures !c.InitCall? ==> TraceDrivesOnly(r.trace[|t|..], d.port, d.pin)
  {
    match c
    case InitCall(port, pin) =>
      var o := Init(Ptr(d), t, port, pin);
      Outcome(o.handle.led, o.trace, o.status)
    case DeInitCall => DeInit(d, t)
    case SetActiveModeCall(mode) => SetActiveMode(d, t, mode)
    case WriteCall(state) => Write(d, t, state)
    case ToggleCall => Toggle(d, t)
    case BlinkCall(timeout) => Blink(d, t, timeout)
  }

  /**
   * Issues `calls` in order. Exactly one status is recorded per call, and
   * effects are only ever appended to the trace.
   */
  function Run(d: LedStruct, t: Trace, calls: seq<Call>): (r: History)
    ensures |r.statuses| == |calls|
    ensures t <= r.trace
    decreases |calls|
  {
    if |calls| == 0 then History(d, t, [])
    else
      var o := Step(d, t, calls[0]);
      var rest := Run(o.led, o.trace, calls[1..]);
      History(rest.led, rest.trace, [o.status] + rest.statuses)
  }

  predicate NoInit(calls: seq<Call>) {
    forall i :: 0 <= i < |calls| ==> !calls[i].InitCall?
  }

  /**
   * Used one call at a time from a free handle, every call returns HAL_OK and
   * the lock is free afterwards: only a call that finds the flag already set
   * can see HAL_BUSY.
   */
  lemma {:induction false} SequentialUseNeverBusy(d: LedStruct, t: Trace, calls: seq<Call>)
    requires !Held(d)
    ensures !Held(Run(d, t, calls).led)
    ensures forall i :: 0 <= i < |calls| ==> Run(d, t, calls).statuses[i] == Ok
    decreases |calls|
  {
    if |calls| > 0 {
      var o := Step(d, t, calls[0]);
      SequentialUseNeverBusy(o.led, o.trace, calls[1..]);
    }
  }

  /**
   * A handle whose flag is set refuses every call except LED_Init: each one
   * returns HAL_BUSY, nothing is emitted and the record does not change.
   */
  lemma {:induction false} HeldLockRefusesAll(d: LedStruct, t: Trace, calls: seq<Call>)
    requires Held(d)
    requires NoInit(calls)
    ensures Run(d, t, calls).led == d
    ensures Run(d, t, calls).trace == t
    ensures forall i :: 0 <= i < |calls| ==> Run(d, t, calls).statuses[i] == Busy
    decreases |calls|
  {
    if |calls| > 0 {
      HeldLockRefusesAll(d, t, calls[1..]);
    }
  }

  /**
   * Only LED_Init binds the port and pin, and only LED_Init and
   * LED_SetActiveMode change the active mode.
   */
  lemma {:induction false} RunKeepsBinding(d: LedStruct, t: Trace, calls: seq<Call>)
    requires NoInit(calls)
    ensures Run(d, t, calls).led.port == d.port
    ensures Run(d, t, calls).led.pin == d.pin
    ensures (forall i :: 0 <= i < |calls| ==> !calls[i].SetActiveModeCall?) ==>
              Run(d, t, calls).led.activeMode == d.activeMode
    decreases |calls|
  {
    if |calls| > 0 {
      var o := Step(d, t, calls[0]);
      RunKeepsBinding(o.led, o.trace, calls[1..]);
    }
  }

  /** Without LED_Init, every output effect a session emits is on the handle's own pin */
  lemma {:induction false} RunDrivesOnlyOwnPin(d: LedStruct, t: Trace, calls: seq<Call>)
    requires NoInit(calls)
    ensures TraceDrivesOnly(Run(d, t, calls).trace[|t|..], d.port, d.pin)
    decreases |calls|
  {
    if |calls| > 0 {
      var o := Step(d, t, calls[0]);
      var r := Run(o.led, o.trace, calls[1..]);
      RunDrivesOnlyOwnPin(o.led, o.trace, calls[1..]);
      assert r.trace[|t|..] == o.trace[|t|..] + r.trace[|o.trace|..];
    }
  }

  /** Without LED_Init, a session leaves every other port's output register as it found it */
  lemma RunLeavesOtherPortsAlone(d: LedStruct, t: Trace, calls: seq<Call>, q: Port, odr: OutputRegister)
    requires NoInit(calls)
    requires q != d.port
    ensures OutputAfter(Run(d, t, calls).trace, q, odr) == OutputAfter(t, q, odr)
  {
    var r := Run(d, t, calls);
    var e := r.trace[|t|..];
    assert r.trace == t + e;
    RunDrivesOnlyOwnPin(d, t, calls);
    OutputAfterAppend(t, e, q, odr);
    OtherPortUntouched(e, d.port, d.pin, q, OutputAfter(t, q, odr));
  }

  /** Without LED_Init, a session leaves every bit of its port outside its pin mask as it found it */
  lemma RunLeavesOtherBitsAlone(d: LedStruct, t: Trace, calls: seq<Call>, odr: OutputRegister)
    requires NoInit(calls)
    ensures OutputAfter(Run(d, t, calls).trace, d.port, odr) - d.pin == OutputAfter(t, d.port, odr) - d.pin
  {
    var r := Run(d, t, calls);
    var e := r.trace[|t|..];
    assert r.trace == t + e;
    RunDrivesOnlyOwnPin(d, t, calls);
    var y := OutputAfter(t, d.port, odr);
    OutputAfterAppend(t, e, d.port, odr);
    OtherBitsUntouched(e, d.port, d.pin, y);
  }

  /**
   * A free handle asked to toggle n times emits exactly n toggles of its own
   * pin, and its record, active mode included, is left as it was.
   */
  lemma {:induction false} RunOfTogglesEmitsToggles(d: LedStruct, t: Trace, calls: seq<Call>)
    requires !Held(d)
    requires forall i :: 0 <= i < |calls| ==> calls[i] == ToggleCall
    ensures Run(d, t, calls).led == d
    ensures Run(d, t, calls).trace == t + Toggles(d.port, d.pin, |calls|)
    decreases |calls|
  {
    if |calls| == 0 {
      assert t + Toggles(d.port, d.pin, 0) == t;
    } else {
      var o := Toggle(d, t);
      assert Step(d, t, calls[0]) == o;
      RunOfTogglesEmitsToggles(d, o.trace, calls[1..]);
      assert o.trace + Toggles(d.port, d.pin, |calls| - 1) == t + Toggles(d.port, d.pin, |calls|);
    }
  }

  /**
   * Toggling a free handle n times flips its pin's output bits n times, so an
   * even number of toggles restores them, whatever the active mode.
   */
  lemma TogglesByParity(d: LedStruct, t: Trace, calls: seq<Call>, odr: OutputRegister)
    requires !Held(d)
    requires forall i :: 0 <= i < |calls| ==> calls[i] == ToggleCall
    ensures |calls| % 2 == 0 ==>
              OutputAfter(Run(d, t, calls).trace, d.port, odr) == OutputAfter(t, d.port, odr)
    ensures |calls| % 2 == 1 ==>
              OutputAfter(Run(d, t, calls).trace, d.port, odr) == Flip(OutputAfter(t, d.port, odr), d.pin)
  {
    RunOfTogglesEmitsToggles(d, t, calls);
    TogglesFlip(t, d.port, d.pin, |calls|, odr);
    FlippedByParity(OutputAfter(t, d.port, odr), d.pin, |calls|);
  }
}
