/**
 * The part of the STM32F4 HAL that the LED driver leans on: status codes, the
 * handle lock flag, pin levels, GPIO ports and pin configuration values, and
 * the effects of the driver's calls into the HAL.
 *
 * The HAL routines themselves are foreign code. Every call is recorded as an
 * `Effect` appended to a `Trace`. To give the effects a meaning in terms of
 * pin levels, a trace can be replayed on a port's 16-bit output data
 * register (`OutputAfter`), and a pin mask read from it (`ReadLevel`). The
 * register is the level a push-pull output pin drives; a de-initialised pin
 * drives nothing, whatever its register bit holds. The replay assumes the
 * port's clock is running: a port whose clock is off ignores the writes the
 * replay applies.
 */
module Hal {

  /** uint32_t, the type of the blink timeout */
  newtype u32 = x: int | 0 <= x < 0x1_0000_0000

  /** HAL_StatusTypeDef */
  datatype Status = Ok | Error | Busy | Timeout

  /** HAL_LockTypeDef */
  datatype LockState = Unlocked | Locked

  /** GPIO_PinState: GPIO_PIN_RESET is 0, GPIO_PIN_SET is 1 */
  datatype PinState = Reset | Set

  /** C's `!` applied to a GPIO_PinState: `!0 == 1` and `!1 == 0` */
  function Not(s: PinState): (r: PinState)
    ensures r != s
  {
    match s
    case Reset => Set
    case Set => Reset
  }

  /**
   * A `GPIO_TypeDef *`: one of the register blocks GPIOA..GPIOH, or any other
   * address (a bank such as GPIOI that the driver's clock enabling does not
   * list, or no bank at all).
   */
  datatype Port =
    | GpioA | GpioB | GpioC | GpioD | GpioE | GpioF | GpioG | GpioH
    | OtherPort(address: nat)

  /** The ports whose clock-enable macro the driver knows */
  predicate IsKnownBank(p: Port) {
    !p.OtherPort?
  }

  /** A bit position of a 16-bit port register */
  type PinBit = b: int | 0 <= b < 16

  /**
   * A GPIO_PIN_x mask (uint16_t), possibly with several bits set, written as
   * the set of its bit positions
   */
  type PinMask = set<PinBit>

  /** A port's output data register, as the set of its bits that are 1 */
  type OutputRegister = set<PinBit>

  /** GPIO_MODE_x, GPIO_NOPULL/PULLUP/PULLDOWN and GPIO_SPEED_x values */
  datatype GpioMode = Input | OutputPushPull | OutputOpenDrain | Analog
  datatype GpioPull = NoPull | PullUp | PullDown
  datatype GpioSpeed = SpeedLow | SpeedMedium | SpeedFast | SpeedHigh

  /** One call into the HAL, as the driver issues it */
  datatype Effect =
    | ClockEnable(port: Port)                          // __HAL_RCC_GPIOx_CLK_ENABLE()
    | ConfigurePin(port: Port, pin: PinMask,
                   mode: GpioMode, pull: GpioPull,
                   speed: GpioSpeed)                   // HAL_GPIO_Init
    | WritePin(port: Port, pin: PinMask, level: PinState) // HAL_GPIO_WritePin
    | TogglePin(port: Port, pin: PinMask)               // HAL_GPIO_TogglePin
    | DeInitPin(port: Port, pin: PinMask)               // HAL_GPIO_DeInit
    | Delay(ms: u32)                                    // HAL_Delay

  /** The effects issued so far, oldest first */
  type Trace = seq<Effect>

  /** The register with the bits of `m` inverted */
  function Flip(odr: OutputRegister, m: PinMask): OutputRegister {
    (odr - m) + (m - odr)
  }

  /**
   * What one effect does to the output data register of `port`: a write sets
   * or clears the bits of its mask, a toggle flips them, and every other
   * effect leaves the register as it is.
   */
  function ApplyToOutput(odr: OutputRegister, port: Port, e: Effect): OutputRegister {
    match e
    case WritePin(p, m, level) =>
      if p != port then odr
      else if level == Set then odr + m
      else odr - m
    case TogglePin(p, m) =>
      if p == port then Flip(odr, m) else odr
    case _ => odr
  }

  /** The output data register of `port` after replaying `t` from `odr` */
  function OutputAfter(t: Trace, port: Port, odr: OutputRegister): OutputRegister
    decreases |t|
  {
    if |t| == 0 then odr
    else ApplyToOutput(OutputAfter(t[..|t| - 1], port, odr), port, t[|t| - 1])
  }

  /**
   * The level a pin mask shows in an output data register value: SET when any
   * bit of the mask is set, the test HAL_GPIO_ReadPin applies to a mask. It
   * is the level the pin drives only while the pin is configured as an output.
   */
  function ReadLevel(odr: OutputRegister, pin: PinMask): PinState {
    if odr * pin != {} then Set else Reset
  }

  /** Replaying a concatenation is replaying its parts one after the other */
  lemma {:induction false} OutputAfterAppend(a: Trace, b: Trace, port: Port, odr: OutputRegister)
    ensures OutputAfter(a + b, port, odr) == OutputAfter(b, port, OutputAfter(a, port, odr))
    decreases |b|
  {
    if |b| == 0 {
      assert a + b == a;
    } else {
      var b' := b[..|b| - 1];
      assert (a + b)[..|a + b| - 1] == a + b';
      OutputAfterAppend(a, b', port, odr);
    }
  }

  /** The effect changes no output bit other than the bits of `pin` on `port` */
  predicate DrivesOnly(e: Effect, port: Port, pin: PinMask) {
    match e
    case WritePin(p, m, _) => p == port && m == pin
    case TogglePin(p, m) => p == port && m == pin
    case _ => true
  }

  predicate TraceDrivesOnly(t: Trace, port: Port, pin: PinMask) {
    forall i :: 0 <= i < |t| ==> DrivesOnly(t[i], port, pin)
  }

  /** No effect of `t` writes or toggles a pin */
  predicate DrivesNothing(t: Trace) {
    forall i :: 0 <= i < |t| ==> !t[i].WritePin? && !t[i].TogglePin?
  }

  /** Clock, configuration, de-initialisation and delay effects leave every output register as it was */
  lemma {:induction false} NothingDrivenUntouched(t: Trace, port: Port, odr: OutputRegister)
    requires DrivesNothing(t)
    ensures OutputAfter(t, port, odr) == odr
    decreases |t|
  {
    if |t| > 0 {
      NothingDrivenUntouched(t[..|t| - 1], port, odr);
    }
  }

  /** Effects confined to one pin leave every other port's register untouched */
  lemma {:induction false} OtherPortUntouched(t: Trace, port: Port, pin: PinMask, q: Port, odr: OutputRegister)
    requires TraceDrivesOnly(t, port, pin)
    requires q != port
    ensures OutputAfter(t, q, odr) == odr
    decreases |t|
  {
    if |t| > 0 {
      OtherPortUntouched(t[..|t| - 1], port, pin, q, odr);
    }
  }

  /** Setting, clearing or flipping the bits of `m` keeps the bits outside `m` */
  lemma MaskedUpdatesKeepOtherBits(y: OutputRegister, m: PinMask)
    ensures (y + m) - m == y - m
    ensures (y - m) - m == y - m
    ensures Flip(y, m) - m == y - m
  {
  }

  /** One effect confined to `pin` keeps the bits of `port` outside `pin` */
  lemma ApplyKeepsOtherBits(y: OutputRegister, port: Port, pin: PinMask, e: Effect)
    requires DrivesOnly(e, port, pin)
    ensures ApplyToOutput(y, port, e) - pin == y - pin
  {
    MaskedUpdatesKeepOtherBits(y, pin);
  }

  /** Effects confined to one pin leave the other bits of its own port untouched */
  lemma {:induction false} OtherBitsUntouched(t: Trace, port: Port, pin: PinMask, odr: OutputRegister)
    requires TraceDrivesOnly(t, port, pin)
    ensures OutputAfter(t, port, odr) - pin == odr - pin
    decreases |t|
  {
    if |t| > 0 {
      var t' := t[..|t| - 1];
      OtherBitsUntouched(t', port, pin, odr);
      ApplyKeepsOtherBits(OutputAfter(t', port, odr), port, pin, t[|t| - 1]);
    }
  }

  /** `n` toggles of `pin` on `port`, one after the other */
  function Toggles(port: Port, pin: PinMask, n: nat): (t: Trace)
    ensures |t| == n
  {
    seq(n, _ => TogglePin(port, pin))
  }

  /** The bits of `m` in `y` flipped `n` times over */
  function FlippedTimes(y: OutputRegister, m: PinMask, n: nat): OutputRegister
    decreases n
  {
    if n == 0 then y else Flip(FlippedTimes(y, m, n - 1), m)
  }

  /** Flipping the same bits an even number of times restores them; an odd number flips them once */
  lemma {:induction false} FlippedByParity(y: OutputRegister, m: PinMask, n: nat)
    ensures n % 2 == 0 ==> FlippedTimes(y, m, n) == y
    ensures n % 2 == 1 ==> FlippedTimes(y, m, n) == Flip(y, m)
    decreases n
  {
    if n > 0 {
      FlippedByParity(y, m, n - 1);
      assert Flip(Flip(y, m), m) == y;
    }
  }

  /** Replaying `n` toggles of a pin flips its bits `n` times */
  lemma {:induction false} TogglesFlip(t: Trace, port: Port, pin: PinMask, n: nat, odr: OutputRegister)
    ensures OutputAfter(t + Toggles(port, pin, n), port, odr) == FlippedTimes(OutputAfter(t, port, odr), pin, n)
    decreases n
  {
    if n == 0 {
      assert t + Toggles(port, pin, n) == t;
    } else {
      var prefix := t + Toggles(port, pin, n - 1);
      var whole := t + Toggles(port, pin, n);
      assert whole[..|prefix|] == prefix;
      assert whole[|whole| - 1] == TogglePin(port, pin);
      TogglesFlip(t, port, pin, n - 1, odr);
    }
  }
}
