# STM32F4 LED driver, modelled in Dafny

This project models `led.c`, a small STM32F4 HAL driver for one LED on one GPIO pin. The driver
keeps a handle record, `struct LedStruct`, with four fields: the HAL lock flag, the GPIO port, a
16-bit pin mask and the active mode (`LED_ACTIVE_LOW` / `LED_ACTIVE_HIGH`). Its operations are
`LED_Init`, `LED_DeInit`, `LED_SetActiveMode`, `LED_Write`, `LED_Toggle`, `LED_Blink` and the
private `PortEnableClock`.

Each operation is a pure function of the form `(record, trace) -> (record', trace', status)`.
The trace is the sequence of HAL calls issued so far. Each call is one `Effect`:
`ClockEnable`, `ConfigurePin`, `WritePin`, `TogglePin`, `DeInitPin` or `Delay`.

- `hal.dfy` (module `Hal`) holds the HAL vocabulary: `HAL_StatusTypeDef`, `HAL_LockTypeDef`,
  `GPIO_PinState`, the ports GPIOA–GPIOH plus any other port address, the pin configuration
  values and the effects.
  - It also holds a replay of a trace on a port's output data register (`OutputAfter`) and a read
    of a pin mask from that register (`ReadLevel`). These give the effects a meaning as output register levels, which a pin drives while it is
    configured as an output.
  - A `uint16_t` pin mask is written as the set of its bit positions (0–15).
  - An output register is the set of its bits that are 1.
- `led.dfy` (module `Led`) holds the handle record, the operations and their contracts. It also
  holds the two corrected operations described under Findings.
- `session.dfy` (module `Session`) models a client that issues a sequence of calls on one handle.
  It holds the lemmas that hold for every such sequence.
- `properties.dfy` (module `LedProperties`) holds what the operations mean for the output data register: the
  read-back after a write, the opposite effect of the two active modes, toggles, the state
  `LED_Init` leaves, and the Findings lemmas.

The lock macros are defined in the STM32Cube HAL header, which is not part of this model. They are
modelled with the standard HAL meaning:

- `__HAL_LOCK` makes the enclosing function return `HAL_BUSY` when the flag is `HAL_LOCKED`.
  Otherwise it sets the flag.
- `__HAL_UNLOCK` clears the flag.

So a nested `LED_Write` inside `LED_Blink` or `LED_DeInit` finds the lock held and does nothing.
Its `HAL_BUSY` result is ignored. In the model these operations call `Write` on the locked record,
so this outcome follows from the lock model and is not written down separately.

Some facts about `led.c` shape the model:

- `LED_Init` checks only for a NULL handle, which gives `HAL_ERROR`. It does not validate the port or the pin.
- `LED_Suspend` is declared in `led.h:33` but not defined in `led.c`.
- `LED_Blink` takes one timeout, used for a single delay.
- No operation detects use before `LED_Init`.
- The handle is `led.c`'s `struct LedStruct`, not `struct Led` from `led.h`.

## Model

| member | source | states |
|---|---|---|
| Led.PortEnableClock | led.c:144-165 | GPIOA–GPIOH each get exactly one clock enable, for that same port. Any other port value gets no effect at all. |
| Led.Init | led.c:20-52 | A NULL handle gives `HAL_ERROR`, no effect and no record. Otherwise the result is `HAL_OK` with the lock cleared, the port and pin bound and the mode active-high. The trace gains, in order: the port clock (GPIOA–GPIOH only), one push-pull/no-pull/fast configure of the pin, and one physical RESET write. |
| Led.DeInit | led.c:60-70 | On a held handle: `HAL_BUSY`, with nothing changed or emitted. On a free handle: `HAL_OK`, the record unchanged and lock free, and the only effect is `DeInitPin`. The nested turn-off write emits nothing, and no clock is disabled. |
| Led.SetActiveMode | led.c:78-86 | On a free handle: only the active mode changes, no effect is emitted, the lock is free again and the result is `HAL_OK`. On a held handle: `HAL_BUSY` with nothing changed. |
| Led.PhysicalLevel | led.c:97-100 | The level written is SET exactly when the logical state is SET under active-high or RESET under active-low. |
| Led.Drive | led.c:97-102 | The body of `LED_Write` between its lock and unlock appends exactly one write of the physical level for the state to the handle's port and pin. |
| Led.Write | led.c:94-106 | On a free handle: exactly one write to the handle's port and pin, of the state itself under active-high and of its negation under active-low. The record is unchanged, the lock is free and the result is `HAL_OK`. On a held handle: `HAL_BUSY` with nothing emitted. |
| Led.Toggle | led.c:113-120 | On a free handle: exactly one toggle of the handle's pin, the record unchanged and `HAL_OK`. On a held handle: `HAL_BUSY` with nothing emitted. |
| Led.Blink | led.c:128-137 | On a free handle the only effect is `Delay(timeout)`, because both nested writes see the lock held. The record is unchanged and the result is `HAL_OK`. On a held handle: `HAL_BUSY` with nothing emitted. |
| Led.BlinkCorrected | led.c:122-137 | Corrected blink. On a free handle it emits, in order: the physical level for SET, `Delay(timeout)`, the physical level for RESET. The result is `HAL_OK`. |
| Led.DeInitCorrected | led.c:54-70 | Corrected de-initialisation. On a free handle it emits the physical level for RESET, then `DeInitPin`, and returns `HAL_OK`. It disables no clock. |
| Session.Step | led.c:60-137 | Every call except `LED_Init` on a held handle returns `HAL_BUSY` and changes nothing. Every call on a free handle, and every `LED_Init`, returns `HAL_OK` and leaves the lock free. Effects are only appended. Calls other than `LED_Init` keep the port and pin, and drive only the handle's own pin. |
| Session.Run | led.c:60-137 | A sequence of calls records exactly one status per call. Its trace extends the starting trace. |
| Session.SequentialUseNeverBusy | led.c:60-137 | Calls issued one at a time from a free handle all return `HAL_OK`, and the lock is free at the end. |
| Session.HeldLockRefusesAll | led.c:60-137 | If the lock flag is set, every call except `LED_Init` returns `HAL_BUSY`. No effect is emitted and the record does not change. |
| Session.RunKeepsBinding | led.c:35-86 | Without `LED_Init`, the port and pin never change. Without `LED_Init` and `LED_SetActiveMode`, the active mode never changes. |
| Session.RunDrivesOnlyOwnPin | led.c:60-137 | Without `LED_Init`, every write or toggle a session emits is on the handle's own port and pin. |
| Session.RunLeavesOtherPortsAlone | led.c:94-137 | Without `LED_Init`, the output register of every other port is unchanged. |
| Session.RunLeavesOtherBitsAlone | led.c:94-137 | Without `LED_Init`, the bits of the handle's port outside its pin mask are unchanged. |
| Session.RunOfTogglesEmitsToggles | led.c:113-120 | n toggles on a free handle emit exactly n `TogglePin` effects on its pin. The record, mode included, is left as it was. |
| Session.TogglesByParity | led.c:113-120 | An even number of toggles restores the pin's output bits. An odd number leaves them inverted. Both hold whatever the active mode. |
| LedProperties.WriteReadsBack | led.c:96-102 | After `LED_Write` on a free handle, the pin's output register bit is high exactly when the requested state is SET and the mode is active-high, or the state is RESET and the mode is active-low. |
| LedProperties.ActiveModesAreOpposite | led.c:78-105 | Writing SET after selecting active-low drives the pin's output register bit low. Writing SET after selecting active-high drives it high. |
| LedProperties.ToggleIgnoresActiveMode | led.c:113-120 | `LED_Toggle` emits the same effect and returns the same status whatever the active mode. |
| LedProperties.ToggleTwiceRestores | led.c:113-120 | Two toggles on a free handle restore the output register of every port and leave the record as it was. |
| LedProperties.InitLeavesLedOff | led.c:49-50 | After a successful `LED_Init`, the handle is active-high and its pin's output register bit is low, so the LED is logically off. |
| LedProperties.BlinkNeverChangesOutput | led.c:128-137 | `LED_Blink` as written changes no port's output register, so the LED never lights. |
| LedProperties.BlinkCorrectedLightsThenClears | led.c:128-137 | With the corrected blink, the pin's output register bit holds the logical-on level during the delay and the logical-off level afterwards. |
| LedProperties.DeInitLeavesOutputBitSet | led.c:60-70 | `LED_DeInit` as written does not drive the LED off: an output register bit at the logical-on level stays at that level when the pin is released. |
| LedProperties.DeInitLeavesOutputBitSetExample | led.c:62-66 | Concrete case: an active-high LED on PA5, written SET and then de-initialised, keeps its output register bit set. |
| LedProperties.ReInitAfterDeInitDrivesStaleHigh | led.c:40-50 | After `LED_DeInit` as written, the next `LED_Init` reconfigures the pin as a push-pull output while its output register bit is still set, so the pin drives high until the final RESET write. |
| LedProperties.ReInitAfterDeInitCorrectedStartsOff | led.c:40-50 | After the corrected de-initialisation, the next `LED_Init` reconfigures the pin while its output register bit holds the logical-off level of the old mode. |
| LedProperties.DeInitCorrectedTurnsOff | led.c:63-66 | The corrected de-initialisation drives the output register bit to the logical-off level while the pin is still an output, and releases the pin last. |

## Findings

| source | as written | input that shows it | evidently intended | confidence | as-written member | corrected member |
|---|---|---|---|---|---|---|
| led.c:128-137 | `LED_Blink` takes the lock, then calls `LED_Write` twice. Each nested `__HAL_LOCK` finds the lock held and returns `HAL_BUSY`, which is ignored. Only the delay runs. | Any free handle, e.g. active-high on PA5 with timeout 100: the trace gains only `Delay(100)`. | Drive the LED on, wait, drive it off. | High if `__HAL_LOCK` has its standard HAL definition; not executed. | Led.Blink, LedProperties.BlinkNeverChangesOutput | Led.BlinkCorrected, LedProperties.BlinkCorrectedLightsThenClears |
| led.c:60-70 | `LED_DeInit` takes the lock, then calls `LED_Write` to turn the LED off (comment at line 63). That write returns `HAL_BUSY` and emits nothing, so the pin is released with its output register bit still set. The next `LED_Init` makes the pin an output again before its RESET write, so it briefly drives the stale level. | An active-high LED on PA5 that was written SET, then de-initialised: the output bit stays set, and a following `LED_Init` configures the pin with that bit set. | Drive the LED off, then release the pin. | High if `__HAL_LOCK` has its standard HAL definition; not executed. | Led.DeInit, LedProperties.DeInitLeavesOutputBitSetExample, LedProperties.ReInitAfterDeInitDrivesStaleHigh | Led.DeInitCorrected, LedProperties.DeInitCorrectedTurnsOff, LedProperties.ReInitAfterDeInitCorrectedStartsOff |

Both corrected operations do the nested writes through `Led.Drive`. `Led.Drive` is the body of
`LED_Write` between its lock and unlock, and `Led.Write` uses it too. The session model
(`Session.Step`) dispatches to the operations as written, because that is what the driver does.

## Left out

- `LED_Suspend` is declared in `led.h` but has no definition in `led.c`, so it is not modelled. No suspend, resume or clock release is invented.
- The effects of `HAL_GPIO_Init`, `HAL_GPIO_WritePin`, `HAL_GPIO_TogglePin`, `HAL_GPIO_DeInit`, the `__HAL_RCC_GPIOx_CLK_ENABLE` macros and `HAL_Delay` are foreign code. They are recorded only as trace events.
- The output register replay covers only writes, which set or clear the mask's bits, and toggles, which invert them. It assumes configuring a pin, de-initialising it, enabling a clock and delaying leave the output register unchanged.
- The output register replay assumes the port's clock is running. Hardware ignores writes and toggles to a port whose clock is off, and `LED_Init` enables no clock for a port outside GPIOA–GPIOH, such as GPIOI on parts that have it. For such a port the output register lemmas describe a register the hardware does not update unless something else enabled its clock.
- What a de-initialised pin drives is not modelled. `HAL_GPIO_DeInit` returns the pin to a floating input, so the output register level is the pin's level only while it is configured as an output.
- The `assert_param` checks (led.c:31-32, 146) are no-ops unless `USE_FULL_ASSERT` is defined, so they are not modelled.
- LedProperties.WriteReadsBack requires a non-empty pin mask. This is `IS_GPIO_PIN`, because an empty mask reads back as RESET whatever was written.
- LedProperties.ActiveModesAreOpposite requires a non-empty pin mask, for the same reason.
- LedProperties.InitLeavesLedOff requires a non-empty pin mask, for the same reason.
- LedProperties.BlinkCorrectedLightsThenClears requires a non-empty pin mask, for the same reason.
- LedProperties.DeInitCorrectedTurnsOff requires a non-empty pin mask, for the same reason.
- LedProperties.ReInitAfterDeInitCorrectedStartsOff requires a non-empty pin mask, for the same reason.
- Only `LED_Init` checks for a NULL handle. The other operations take a record, not a possibly NULL pointer, because the C code dereferences the pointer without a check.
- Out-of-range enum values are not modelled. In C, an uninitialised structure or a cast can hold a lock flag other than 0/1 or an active mode other than the two enumerators. The model's types exclude both.
- `Lock` is a plain, non-atomic flag. It is modelled as a sequential reentrancy guard only. Interleavings and concurrent callers are not modelled.
- Real time is not modelled. A blink's duration is only the `timeout` carried by its `Delay` effect.
