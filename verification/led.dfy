/**
 * The LED driver: one indicator on one GPIO pin mask, with a polarity
 * (active mode) and the HAL's per-handle lock flag.
 *
 * Every operation is a pure function of the handle record and the trace of
 * HAL calls issued so far, and returns the new record, the extended trace and
 * the HAL status the C function returns.
 *
 * The lock macros come from the HAL header and are modelled with the
 * standard HAL meaning: `__HAL_LOCK` makes the enclosing function return
 * HAL_BUSY when the flag is already HAL_LOCKED and otherwise sets it;
 * `__HAL_UNLOCK` clears it. Under that meaning the `LED_Write` calls nested
 * inside `LED_Blink` and `LED_DeInit` find the flag set and do nothing.
 */
module Led {
  import opened Hal

  /** enum LedActiveMode */
  datatype ActiveMode = ActiveLow | ActiveHigh

  /** struct LedStruct: the lock flag, the port, the pin mask, the active mode */
  datatype LedStruct = LedStruct(lock: LockState, port: Port, pin: PinMask, activeMode: ActiveMode)

  /** A `struct LedStruct *` argument: NULL, or a record whose fields may hold anything */
  datatype Handle = Null | Ptr(led: LedStruct)

  /** What a driver call leaves behind: the record, the trace, the returned status */
  datatype Outcome = Outcome(led: LedStruct, trace: Trace, status: Status)

  /** The same for LED_Init, whose handle may be NULL */
  datatype InitOutcome = InitOutcome(handle: Handle, trace: Trace, status: Status)

  /**
   * The polarity convention: the physical level that shows the logical level
   * `s`. Active-high shows it as is, active-low shows its negation.
   */
  function PhysicalLevel(mode: ActiveMode, s: PinState): (r: PinState)
    ensures r == Set <==> (s == Set <==> mode == ActiveHigh)
  {
    if mode == ActiveHigh then s else Not(s)
  }

  /** The configuration LED_Init passes to HAL_GPIO_Init for the pin */
  function LedPinConfig(port: Port, pin: PinMask): Effect {
    ConfigurePin(port, pin, OutputPushPull, NoPull, SpeedFast)
  }

  /** __HAL_LOCK succeeds only on a handle whose flag is clear */
  predicate Held(d: LedStruct) {
    d.lock == Locked
  }

  /** __HAL_LOCK on a handle whose flag is clear */
  function Acquire(d: LedStruct): LedStruct
    requires !Held(d)
  {
    d.(lock := Locked)
  }

  /** __HAL_UNLOCK */
  function Release(d: LedStruct): LedStruct {
    d.(lock := Unlocked)
  }

  /**
   * PortEnableClock: enables the clock of the one bank among GPIOA..GPIOH
   * that `port` is, and nothing at all for any other port value.
   */
  function PortEnableClock(t: Trace, port: Port): (t': Trace)
    ensures IsKnownBank(port) ==> t' == t + [ClockEnable(port)]
    ensures !IsKnownBank(port) ==> t' == t
  {
    if port == GpioH then t + [ClockEnable(GpioH)]
    else if port == GpioG then t + [ClockEnable(GpioG)]
    else if port == GpioF then t + [ClockEnable(GpioF)]
    else if port == GpioE then t + [ClockEnable(GpioE)]
    else if port == GpioD then t + [ClockEnable(GpioD)]
    else if port == GpioC then t + [ClockEnable(GpioC)]
    else if port == GpioB then t + [ClockEnable(GpioB)]
    else if port == GpioA then t + [ClockEnable(GpioA)]
    else t
  }

  /**
   * The part of LED_Write between its lock and unlock: translate the logical
   * level through the active mode and write it to the pin.
   */
  function Drive(d: LedStruct, t: Trace, state: PinState): (r: Trace)
    ensures r == t + [WritePin(d.port, d.pin, PhysicalLevel(d.activeMode, state))]
  {
    var level := if d.activeMode == ActiveLow then Not(state) else state;
    t + [WritePin(d.port, d.pin, level)]
  }

  /**
   * LED_Write: on a free handle, exactly one write of the physical level for
   * `state` to the handle's pin, the lock released again and HAL_OK; on a
   * held handle, HAL_BUSY with nothing changed and nothing emitted.
   */
  function Write(d: LedStruct, t: Trace, state: PinState): (r: Outcome)
    ensures Held(d) ==> r == Outcome(d, t, Busy)
    ensures !Held(d) ==> r.led == d && r.status == Ok
    ensures !Held(d) ==> r.trace == t + [WritePin(d.port, d.pin, PhysicalLevel(d.activeMode, state))]
  {
    if Held(d) then Outcome(d, t, Busy)
    else
      var held := Acquire(d);
      Outcome(Release(held), Drive(held, t, state), Ok)
  }

  /**
   * LED_SetActiveMode: on a free handle only the active mode changes, no HAL
   * call is made, and the lock is released again; busy on a held handle.
   */
  function SetActiveMode(d: LedStruct, t: Trace, mode: ActiveMode): (r: Outcome)
    ensures Held(d) ==> r == Outcome(d, t, Busy)
    ensures !Held(d) ==> r.status == Ok && r.trace == t
    ensures !Held(d) ==> r.led.activeMode == mode && !Held(r.led)
    ensures !Held(d) ==> r.led.port == d.port && r.led.pin == d.pin
  {
    if Held(d) then Outcome(d, t, Busy)
    else
      var held := Acquire(d);
      Outcome(Release(held.(activeMode := mode)), t, Ok)
  }

  /**
   * LED_Toggle: on a free handle exactly one toggle of the handle's pin, the
   * record unchanged and HAL_OK; busy on a held handle.
   */
  function Toggle(d: LedStruct, t: Trace): (r: Outcome)
    ensures Held(d) ==> r == Outcome(d, t, Busy)
    ensures !Held(d) ==> r == Outcome(d, t + [TogglePin(d.port, d.pin)], Ok)
  {
    if Held(d) then Outcome(d, t, Busy)
    else
      var held := Acquire(d);
      Outcome(Release(held), t + [TogglePin(held.port, held.pin)], Ok)
  }

  /**
   * LED_Blink as written: both nested LED_Write calls run with the lock
   * already held, return HAL_BUSY (ignored) and emit nothing, so a blink on
   * a free handle is a bare delay followed by HAL_OK.
   */
  function Blink(d: LedStruct, t: Trace, timeout: u32): (r: Outcome)
    ensures Held(d) ==> r == Outcome(d, t, Busy)
    ensures !Held(d) ==> r == Outcome(d, t + [Delay(timeout)], Ok)
  {
    if Held(d) then Outcome(d, t, Busy)
    else
      var held := Acquire(d);
      var on := Write(held, t, Set);
      var t1 := on.trace + [Delay(timeout)];
      var off := Write(on.led, t1, Reset);
      Outcome(Release(off.led), off.trace, Ok)
  }

  /**
   * LED_DeInit as written: the nested LED_Write meant to turn the LED off
   * runs with the lock held and emits nothing, so the only HAL call is the
   * pin de-initialisation. No clock is disabled.
   */
  function DeInit(d: LedStruct, t: Trace): (r: Outcome)
    ensures Held(d) ==> r == Outcome(d, t, Busy)
    ensures !Held(d) ==> r == Outcome(d, t + [DeInitPin(d.port, d.pin)], Ok)
  {
    if Held(d) then Outcome(d, t, Busy)
    else
      var held := Acquire(d);
      var off := Write(held, t, Reset);
      Outcome(Release(off.led), off.trace + [DeInitPin(held.port, held.pin)], Ok)
  }

  /**
   * LED_Init: HAL_ERROR with no effect for a NULL handle. Otherwise the lock
   * flag is cleared whatever it held, the port and pin are bound, and the
   * trace gains the port clock (for GPIOA..GPIOH), one push-pull, no-pull,
   * fast configuration of the pin and one physical RESET write; the mode is
   * active-high and the result HAL_OK.
   */
  function Init(h: Handle, t: Trace, port: Port, pin: PinMask): (r: InitOutcome)
    ensures h.Null? ==> r == InitOutcome(Null, t, Error)
    ensures h.Ptr? ==> r.status == Ok && r.handle == Ptr(LedStruct(Unlocked, port, pin, ActiveHigh))
    ensures h.Ptr? && IsKnownBank(port) ==>
              r.trace == t + [ClockEnable(port), LedPinConfig(port, pin), WritePin(port, pin, Reset)]
    ensures h.Ptr? && !IsKnownBank(port) ==>
              r.trace == t + [LedPinConfig(port, pin), WritePin(port, pin, Reset)]
  {
    if h.Null? then InitOutcome(Null, t, Error)
    else
      var d := h.led.(lock := Unlocked, port := port, pin := pin);
      var t1 := PortEnableClock(t, port);
      var t2 := t1 + [LedPinConfig(d.port, d.pin)];
      var mode := SetActiveMode(d, t2, ActiveHigh);
      var off := Write(mode.led, mode.trace, Reset);
      InitOutcome(Ptr(off.led), off.trace, Ok)
  }

  /**
   * LED_Blink with the nested writes done under the lock it already holds
   * (through Drive instead of LED_Write): the LED is driven on, the delay
   * runs, the LED is driven off.
   */
  function BlinkCorrected(d: LedStruct, t: Trace, timeout: u32): (r: Outcome)
    ensures Held(d) ==> r == Outcome(d, t, Busy)
    ensures !Held(d) ==> r.led == d && r.status == Ok
    ensures !Held(d) ==>
              r.trace == t + [WritePin(d.port, d.pin, PhysicalLevel(d.activeMode, Set)),
                              Delay(timeout),
                              WritePin(d.port, d.pin, PhysicalLevel(d.activeMode, Reset))]
  {
    if Held(d) then Outcome(d, t, Busy)
    else
      var held := Acquire(d);
      var t1 := Drive(held, t, Set) + [Delay(timeout)];
      Outcome(Release(held), Drive(held, t1, Reset), Ok)
  }

  /**
   * LED_DeInit with the turn-off done under the lock it already holds: the
   * LED is driven off, then the pin is de-initialised.
   */
  function DeInitCorrected(d: LedStruct, t: Trace): (r: Outcome)
    ensures Held(d) ==> r == Outcome(d, t, Busy)
    ensures !Held(d) ==> r.led == d && r.status == Ok
    ensures !Held(d) ==>
              r.trace == t + [WritePin(d.port, d.pin, PhysicalLevel(d.activeMode, Reset)),
                              DeInitPin(d.port, d.pin)]
  {
    if Held(d) then Outcome(d, t, Busy)
    else
      var held := Acquire(d);
      Outcome(Release(held), Drive(held, t, Reset) + [DeInitPin(held.port, held.pin)], Ok)
  }
}
