/**
 * What the driver's effects mean for the LED: the output register level
 * after a write, the opposite signals of the two active modes, toggles,
 * the state LED_Init leaves behind, and what LED_Blink and LED_DeInit
 * really leave in the output data register (with the corrected variants
 * beside them).
 *
 * `OutputLevel` is the level of a handle's pin in its port's replayed output
 * data register: the level the pin drives while it is a push-pull output.
 * Masks are required to be non-empty (`IS_GPIO_PIN`), since an empty mask
 * reads as RESET whatever was written.
 */
module LedProperties {
  import opened Hal
  import opened Led

  /** The output data register level of a handle's pin after replaying `t` */
  function OutputLevel(d: LedStruct, t: Trace, odr: OutputRegister): PinState {
    ReadLevel(OutputAfter(t, d.port, odr), d.pin)
  }

  /** The last write to a pin decides what its mask reads back as */
  lemma ReadAfterWrite(t: Trace, port: Port, pin: PinMask, level: PinState, odr: OutputRegister)
    requires pin != {}
    ensures ReadLevel(OutputAfter(t + [WritePin(port, pin, level)], port, odr), pin) == level
  {
    var w := t + [WritePin(port, pin, level)];
    assert w[..|w| - 1] == t;
    var y := OutputAfter(t, port, odr);
    if level == Set {
      assert (y + pin) * pin == pin;
    } else {
      assert (y - pin) * pin == {};
    }
  }

  /**
   * LED_Write on a free handle leaves the pin's output bit high exactly when the
   * requested state and the active mode agree: SET under active-high, RESET
   * under active-low.
   */
  lemma WriteReadsBack(d: LedStruct, t: Trace, state: PinState, odr: OutputRegister)
    requires !Held(d)
    requires d.pin != {}
    ensures OutputLevel(d, Write(d, t, state).trace, odr) == Set <==>
            (state == Set <==> d.activeMode == ActiveHigh)
  {
    ReadAfterWrite(t, d.port, d.pin, PhysicalLevel(d.activeMode, state), odr);
  }

  /**
   * Setting active-low and then writing SET drives the output bit low;
   * setting active-high and then writing SET on the same handle drives it high.
   */
  lemma ActiveModesAreOpposite(d: LedStruct, t: Trace, odr: OutputRegister)
    requires !Held(d)
    requires d.pin != {}
    ensures var low := SetActiveMode(d, t, ActiveLow);
            OutputLevel(d, Write(low.led, low.trace, Set).trace, odr) == Reset
    ensures var high := SetActiveMode(d, t, ActiveHigh);
            OutputLevel(d, Write(high.led, high.trace, Set).trace, odr) == Set
  {
    var low := SetActiveMode(d, t, ActiveLow);
    WriteReadsBack(low.led, low.trace, Set, odr);
    var high := SetActiveMode(d, t, ActiveHigh);
    WriteReadsBack(high.led, high.trace, Set, odr);
  }

  /**
   * LED_Toggle does not read the active mode: whatever the mode, it emits the
   * same effect and returns the same status.
   */
  lemma ToggleIgnoresActiveMode(d: LedStruct, t: Trace, mode: ActiveMode)
    ensures Toggle(d.(activeMode := mode), t).trace == Toggle(d, t).trace
    ensures Toggle(d.(activeMode := mode), t).status == Toggle(d, t).status
  {
  }

  /**
   * Two LED_Toggle calls on a free handle restore the output register of
   * every port, whatever the active mode, and leave the record as it was.
   */
  lemma ToggleTwiceRestores(d: LedStruct, t: Trace, q: Port, odr: OutputRegister)
    requires !Held(d)
    ensures var once := Toggle(d, t);
            Toggle(once.led, once.trace).led == d
    ensures var once := Toggle(d, t);
            OutputAfter(Toggle(once.led, once.trace).trace, q, odr) == OutputAfter(t, q, odr)
  {
    var once := Toggle(d, t);
    var twice := Toggle(once.led, once.trace);
    assert twice.trace == t + Toggles(d.port, d.pin, 2);
    if q == d.port {
      TogglesFlip(t, d.port, d.pin, 2, odr);
      FlippedByParity(OutputAfter(t, d.port, odr), d.pin, 2);
    } else {
      var e := Toggles(d.port, d.pin, 2);
      OutputAfterAppend(t, e, q, odr);
      OtherPortUntouched(e, d.port, d.pin, q, OutputAfter(t, q, odr));
    }
  }

  /**
   * A successful LED_Init leaves an active-high, push-pull output pin whose
   * output bit is low, that is, logically off.
   */
  lemma InitLeavesLedOff(h: Handle, t: Trace, port: Port, pin: PinMask, odr: OutputRegister)
    requires h.Ptr?
    requires pin != {}
    ensures Init(h, t, port, pin).handle.Ptr?
    ensures Init(h, t, port, pin).handle.led.activeMode == ActiveHigh
    ensures ReadLevel(OutputAfter(Init(h, t, port, pin).trace, port, odr), pin) == Reset
  {
    var r := Init(h, t, port, pin);
    var prefix := if IsKnownBank(port) then t + [ClockEnable(port), LedPinConfig(port, pin)]
                  else t + [LedPinConfig(port, pin)];
    assert r.trace == prefix + [WritePin(port, pin, Reset)];
    ReadAfterWrite(prefix, port, pin, Reset, odr);
  }

  /**
   * LED_Blink as written changes no output register at all: the LED is never
   * lit by a blink, however long the delay.
   */
  lemma BlinkNeverChangesOutput(d: LedStruct, t: Trace, timeout: u32, q: Port, odr: OutputRegister)
    requires !Held(d)
    ensures OutputAfter(Blink(d, t, timeout).trace, q, odr) == OutputAfter(t, q, odr)
  {
    var r := Blink(d, t, timeout);
    assert r.trace[..|r.trace| - 1] == t;
  }

  /**
   * The corrected blink lights the LED for the duration of the delay and
   * leaves it logically off afterwards.
   */
  lemma BlinkCorrectedLightsThenClears(d: LedStruct, t: Trace, timeout: u32, odr: OutputRegister)
    requires !Held(d)
    requires d.pin != {}
    ensures var r := BlinkCorrected(d, t, timeout);
            && r.trace[|t| + 1] == Delay(timeout)
            && OutputLevel(d, r.trace[..|t| + 1], odr) == PhysicalLevel(d.activeMode, Set)
            && OutputLevel(d, r.trace, odr) == PhysicalLevel(d.activeMode, Reset)
  {
    var r := BlinkCorrected(d, t, timeout);
    var on := WritePin(d.port, d.pin, PhysicalLevel(d.activeMode, Set));
    var off := WritePin(d.port, d.pin, PhysicalLevel(d.activeMode, Reset));
    assert r.trace[..|t| + 1] == t + [on];
    ReadAfterWrite(t, d.port, d.pin, PhysicalLevel(d.activeMode, Set), odr);
    assert r.trace == (t + [on, Delay(timeout)]) + [off];
    ReadAfterWrite(t + [on, Delay(timeout)], d.port, d.pin, PhysicalLevel(d.activeMode, Reset), odr);
  }

  /**
   * LED_DeInit as written does not drive the LED off before releasing the
   * pin: an output register bit that showed the LED on before the call still
   * shows it on afterwards.
   */
  lemma DeInitLeavesOutputBitSet(d: LedStruct, t: Trace, odr: OutputRegister)
    requires !Held(d)
    requires OutputLevel(d, t, odr) == PhysicalLevel(d.activeMode, Set)
    ensures OutputLevel(d, DeInit(d, t).trace, odr) == PhysicalLevel(d.activeMode, Set)
  {
    var r := DeInit(d, t);
    assert r.trace[..|r.trace| - 1] == t;
  }

  /** An active-high LED on PA5 written SET and de-initialised keeps its output bit set */
  lemma DeInitLeavesOutputBitSetExample()
    ensures var d := LedStruct(Unlocked, GpioA, {5}, ActiveHigh);
            var lit := Write(d, [], Set);
            OutputLevel(d, DeInit(lit.led, lit.trace).trace, {}) == Set
  {
    var d := LedStruct(Unlocked, GpioA, {5}, ActiveHigh);
    var lit := Write(d, [], Set);
    ReadAfterWrite([], GpioA, {5}, Set, {});
    DeInitLeavesOutputBitSet(lit.led, lit.trace, {});
  }

  /**
   * The trace of LED_Init up to and including its pin configuration: the
   * whole trace without its final RESET write.
   */
  function UpToConfigure(r: InitOutcome): Trace {
    if |r.trace| == 0 then [] else r.trace[..|r.trace| - 1]
  }

  /**
   * The effects LED_Init issues between a de-initialisation of the pin and
   * its final RESET write
   */
  function ReconfigureEffects(port: Port, pin: PinMask): Trace {
    if IsKnownBank(port) then [DeInitPin(port, pin), ClockEnable(port), LedPinConfig(port, pin)]
    else [DeInitPin(port, pin), LedPinConfig(port, pin)]
  }

  /**
   * The stale bit left by LED_DeInit shows on the next LED_Init: when
   * HAL_GPIO_Init makes the pin a push-pull output again, its register bit
   * is still SET, so the pin drives high until LED_Init's RESET write.
   */
  lemma ReInitAfterDeInitDrivesStaleHigh(d: LedStruct, t: Trace, odr: OutputRegister)
    requires !Held(d)
    requires OutputLevel(d, t, odr) == Set
    ensures var off := DeInit(d, t);
            var r := Init(Ptr(off.led), off.trace, d.port, d.pin);
            && |r.trace| >= 2
            && r.trace[|r.trace| - 2] == LedPinConfig(d.port, d.pin)
            && OutputLevel(d, UpToConfigure(r), odr) == Set
  {
    var off := DeInit(d, t);
    var r := Init(Ptr(off.led), off.trace, d.port, d.pin);
    var between := ReconfigureEffects(d.port, d.pin);
    assert UpToConfigure(r) == t + between;
    OutputAfterAppend(t, between, d.port, odr);
    NothingDrivenUntouched(between, d.port, OutputAfter(t, d.port, odr));
  }

  /**
   * With the corrected de-initialisation, the next LED_Init configures the
   * pin while its register bit holds the off level of the mode it had.
   */
  lemma ReInitAfterDeInitCorrectedStartsOff(d: LedStruct, t: Trace, odr: OutputRegister)
    requires !Held(d)
    requires d.pin != {}
    ensures var off := DeInitCorrected(d, t);
            var r := Init(Ptr(off.led), off.trace, d.port, d.pin);
            && |r.trace| >= 2
            && r.trace[|r.trace| - 2] == LedPinConfig(d.port, d.pin)
            && OutputLevel(d, UpToConfigure(r), odr) == PhysicalLevel(d.activeMode, Reset)
  {
    var off := DeInitCorrected(d, t);
    var r := Init(Ptr(off.led), off.trace, d.port, d.pin);
    var w := t + [WritePin(d.port, d.pin, PhysicalLevel(d.activeMode, Reset))];
    ReadAfterWrite(t, d.port, d.pin, PhysicalLevel(d.activeMode, Reset), odr);
    var between := ReconfigureEffects(d.port, d.pin);
    assert UpToConfigure(r) == w + between;
    OutputAfterAppend(w, between, d.port, odr);
    NothingDrivenUntouched(between, d.port, OutputAfter(w, d.port, odr));
  }

  /**
   * The corrected de-initialisation drives the output register to the off
   * level while the pin is still an output, whatever it showed before, and
   * releases the pin last.
   */
  lemma DeInitCorrectedTurnsOff(d: LedStruct, t: Trace, odr: OutputRegister)
    requires !Held(d)
    requires d.pin != {}
    ensures var r := DeInitCorrected(d, t);
            && r.trace[|r.trace| - 1] == DeInitPin(d.port, d.pin)
            && OutputLevel(d, r.trace, odr) == PhysicalLevel(d.activeMode, Reset)
  {
    var r := DeInitCorrected(d, t);
    var off := t + [WritePin(d.port, d.pin, PhysicalLevel(d.activeMode, Reset))];
    assert r.trace[..|r.trace| - 1] == off;
    ReadAfterWrite(t, d.port, d.pin, PhysicalLevel(d.activeMode, Reset), odr);
  }
}
