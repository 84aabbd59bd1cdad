# EdgeTX input shims and legacy menu stack, in Dafny

This project models the input handling of the EdgeTX colour-screen firmware:

- The three read callbacks the graphics toolkit (LVGL) polls once per tick: keyboard, touch and rotary encoder.
- The key translation and the legacy-window dispatch behind the keyboard callback.
- The legacy menu navigation state: a five-slot stack of menu handlers indexed by `menuLevel`, with saved cursor rows and scroll offsets.

Modules:

- `Wrappers` (`wrappers.dfy`): the `Option` type. It stands for a nullable pointer, for "no sample this tick" and for "no pending event".
- `KeyEvents` (`key_events.dfy`): the legacy coded event, modelled as a key identifier plus a set of key-flag bits. The firmware's encoding macros are not part of this model. The model assumes these things about them:
  - `EVT_KEY_MASK` recovers the key k from both `EVT_KEY_BREAK(k)` and `EVT_KEY_FIRST(k)`;
  - the break pattern `EVT_KEY_BREAK(k)` and the first-press pattern `EVT_KEY_FIRST(k)` are different flag sets;
  - the break pattern carries no key-flag bit other than the break bit, so a release reads as not pressed;
  - the first-press pattern carries a key-flag bit other than the break bit, so a leading edge reads as pressed.

  The test `evt & _KEY_PRESSED` becomes "some flag other than the break bit is set".
- `LvglWrapper` (`lvgl_wrapper.dfy`): one class per device shim. Each class holds that shim's static state:
  - `KeyboardShim` holds the saved keyboard record;
  - `TouchShim` holds the saved touch record and the `HARDWARE_TOUCH` build switch;
  - `RotaryShim` holds the previous position and the encoder granularity.

  The toolkit's `lv_indev_data_t` is a value datatype, because `memcpy` copies it whole. Each read method takes the caller's record and returns it as the C callback leaves it. The focus query, the back layer's window, the pending coded event, the touch sample and the encoder value are all parameters. Key translation (`EvtToIndevData`) and callback choice (`DispatchKbEvent`) are pure functions.
- `Menus` (`menus.dfy`): `MenuHandler` with `IsEnabled`, and `MenuStack`. `MenuStack` is a class with the fixed-size arrays `menuHandlers[5]`, `menuVerticalPositions[4]` and `menuVerticalOffsets[4]`, the `menuLevel` index and the live cursor variables. The C integer widths become explicit newtypes (`uint8`, `uint16`, `int8`).

Behaviour of the code worth noting:

- A release of ENTER while a widget is focused is translated into a released toolkit ENTER key. It does not fire the legacy activate callback. Only with nothing focused does the back layer's window get `onClicked`.
- A touch sample in phase NONE leaves the record as the caller passed it. That record is still saved as the backup, because the save is unconditional after any sample.
- Overflow and underflow of the menu stack are preconditions of the mutators (the array sizes force them), not run-time refusals.
- When nothing is focused, any EXIT event other than its leading edge (a release or a repeat, for example) is forwarded to the back layer's window as a generic event. The source has the `key != KEY_EXIT` test commented out. With a focused object, every EXIT event is translated and goes to the toolkit as ESC.

## Model

| member | source | states |
|---|---|---|
| KeyEvents.EvtKeyBreak | radio/src/gui/colorlcd/LvglWrapper.cpp:90 | the break event of key k has key k and the break flag pattern, and does not read as pressed |
| KeyEvents.EvtKeyFirst | radio/src/gui/colorlcd/LvglWrapper.cpp:92 | the first-press event of key k has key k, reads as pressed, and differs from every break event |
| KeyEvents.KeyPressed | radio/src/gui/colorlcd/LvglWrapper.cpp:76 | the `evt & _KEY_PRESSED` test holds exactly when the event carries some key-flag bit other than the break bit |
| LvglWrapper.GetFocusObj | radio/src/gui/colorlcd/LvglWrapper.cpp:37-42 | no focused object exactly when the device has no group or its group has no focused object; otherwise the group's focused object |
| LvglWrapper.KeyOfLvKey | radio/src/gui/colorlcd/LvglWrapper.cpp:63-69 | inverse of the key mapping: a code maps back to ENTER exactly when it is the toolkit's ENTER code and to EXIT exactly when it is the ESC code; only translatable keys come out |
| LvglWrapper.EvtToIndevData | radio/src/gui/colorlcd/LvglWrapper.cpp:58-83 | translation succeeds if and only if the key is ENTER or EXIT; on success the written key maps back to the event's key, the state is pressed if and only if a key-flag bit other than break is set, and position and encoder fields are untouched |
| LvglWrapper.BreakReleasedFirstPressed | radio/src/gui/colorlcd/LvglWrapper.cpp:76-80 | a release of ENTER is reported as released ENTER and the first press of EXIT as pressed ESC, all other fields kept |
| LvglWrapper.DispatchKbEvent | radio/src/gui/colorlcd/LvglWrapper.cpp:85-97 | a null window gets no callback; otherwise exactly one outcome: click if and only if the event is BREAK(ENTER), cancel if and only if FIRST(EXIT), generic event carrying the event if and only if the key is not ENTER and the event is not FIRST(EXIT), nothing if and only if an ENTER event other than its break |
| LvglWrapper.KeyboardShim.constructor | radio/src/gui/colorlcd/LvglWrapper.cpp:44 | the saved keyboard record starts zeroed |
| LvglWrapper.KeyboardShim.BackupData | radio/src/gui/colorlcd/LvglWrapper.cpp:46-49 | the saved record becomes the given one |
| LvglWrapper.KeyboardShim.CopyBackup | radio/src/gui/colorlcd/LvglWrapper.cpp:51-54 | the record returned is the saved one |
| LvglWrapper.KeyboardShim.Read | radio/src/gui/colorlcd/LvglWrapper.cpp:99-129 | no pending event: the saved record is replayed and stays saved, no callback; no focus: back layer's window gets the dispatch, the output is the caller's record with key 0 and becomes the backup; focus and untranslatable key: the focused object's window gets the dispatch, output has key 0, backup unchanged; focus and translatable key: the translated record is reported and saved, no callback |
| LvglWrapper.EnterReleaseRouting | radio/src/gui/colorlcd/LvglWrapper.cpp:106-124 | a release of ENTER goes to the toolkit as released ENTER with no callback when an object is focused, and clicks the back window when nothing is |
| LvglWrapper.UntranslatableRedirect | radio/src/gui/colorlcd/LvglWrapper.cpp:115-128 | an unknown key with focus reaches the focused object's window as a generic event, the toolkit gets the caller's record with key 0, and the next idle tick replays the untouched backup |
| LvglWrapper.CopyTsToIndevData | radio/src/gui/colorlcd/LvglWrapper.cpp:131-135 | the sample's position is written and no other field changes |
| LvglWrapper.TouchShim.constructor | radio/src/gui/colorlcd/LvglWrapper.cpp:137 | the saved touch record starts zeroed |
| LvglWrapper.TouchShim.BackupData | radio/src/gui/colorlcd/LvglWrapper.cpp:139-142 | the saved record becomes the given one |
| LvglWrapper.TouchShim.CopyBackup | radio/src/gui/colorlcd/LvglWrapper.cpp:144-147 | the record returned is the saved one |
| LvglWrapper.TouchShim.Read | radio/src/gui/colorlcd/LvglWrapper.cpp:149-172 | without touch hardware nothing changes; no sample: the saved record is replayed; DOWN or SLIDE: pressed at the sample's position; NONE: record unchanged; any other phase: released at the sample's position; after any sample the output is saved |
| LvglWrapper.TouchPressSlideLift | radio/src/gui/colorlcd/LvglWrapper.cpp:152-170 | down at (10,20), slide to (12,22), up are reported pressed, pressed, released at those positions, and an idle tick replays the last |
| LvglWrapper.DivTrunc | radio/src/gui/colorlcd/LvglWrapper.cpp:178 | C division by the granularity: the quotient has the dividend's sign and its magnitude times the divisor is at most the dividend's, within one divisor |
| LvglWrapper.ToInt16 | radio/src/gui/colorlcd/LvglWrapper.cpp:182 | the int16 cast gives a value in range, congruent modulo 2^16, and equal to the input when the input fits |
| LvglWrapper.DeltasTelescope | radio/src/gui/colorlcd/LvglWrapper.cpp:176-180 | over any run of polls the untruncated differences add up to the latest position minus the starting one |
| LvglWrapper.DeltasAppend | radio/src/gui/colorlcd/LvglWrapper.cpp:179-180 | one more poll appends exactly one difference, the new position minus the one read before it |
| LvglWrapper.NarrowedAppend | radio/src/gui/colorlcd/LvglWrapper.cpp:182 | one more poll appends exactly the int16 narrowing of the new difference to what the toolkit was given |
| LvglWrapper.NarrowedSumCongruent | radio/src/gui/colorlcd/LvglWrapper.cpp:179-182 | the int16 differences the toolkit receives add up to the true sum modulo 2^16 |
| LvglWrapper.RotaryShim.constructor | radio/src/gui/colorlcd/LvglWrapper.cpp:176 | the previous position starts at 0 and no positions have been read |
| LvglWrapper.RotaryShim.Read | radio/src/gui/colorlcd/LvglWrapper.cpp:174-184 | the previous position becomes the navigation value divided (truncating) by the granularity; the report is the int16 difference from the old previous position, always released, other fields kept; the history of positions read grows by the new one, its untruncated differences from 0 are kept and add up to the current position, and the int16 difference reported is appended to the reported history, whose sum agrees with the current position modulo 2^16 |
| Menus.MenuHandler.IsEnabled | radio/src/gui/common/stdlcd/menus.h:36-41 | an entry with no enabled callback is enabled; with one it is enabled exactly when the callback returns true |
| Menus.ToUint8 | radio/src/gui/common/stdlcd/menus.h:45-51 | storing a vertpos_t into a uint8_t slot keeps it modulo 256, and exactly when it is below 256 |
| Menus.MenuStack.constructor | radio/src/gui/common/stdlcd/menus.h:45-52 | zeroed storage: level 0, null handlers, zero saved and live cursor |
| Menus.MenuStack.CurrentHandler | radio/src/gui/common/stdlcd/menus.h:49-52 | the handler in the slot menuLevel names |
| Menus.MenuStack.LastPopMenu | radio/src/gui/common/stdlcd/menus.h:60-63 | the handler in slot menuLevel + 1; defined only when menuLevel is at most 3 and reads state only |
| Menus.MenuStack.ChainMenu | radio/src/gui/common/stdlcd/menus.h:55 | only the active level's handler slot is replaced; the level and the saved cursors are unchanged |
| Menus.MenuStack.PushMenu | radio/src/gui/common/stdlcd/menus.h:56 | needs menuLevel at most 3; the level goes up by one and the new handler is installed there, no other handler slot changes; above the root the live row and offset are saved (as uint8) in the slot of the level left; the other saved slots are unchanged |
| Menus.MenuStack.PopMenu | radio/src/gui/common/stdlcd/menus.h:57 | needs menuLevel at least 1; the level goes down by one, no array changes, and lastPopMenu then names the handler just left |
| Menus.MenuStack.AbortPopMenu | radio/src/gui/common/stdlcd/menus.h:58 | needs menuLevel at most 3; the level goes back up by one and the active handler becomes the one lastPopMenu named |
| Menus.PushThenPop | radio/src/gui/common/stdlcd/menus.h:56-63 | push then pop returns to the same level and handler, and lastPopMenu names the pushed handler |
| Menus.PopThenAbort | radio/src/gui/common/stdlcd/menus.h:57-58 | pop then abortPop restores the level and the active handler |

## Left out

- Theme and styles (`theme_apply_cb`, `init_theme`, the style globals): calls into the toolkit's styling interface with no decision logic of their own.
- `makeLvColor`: depends on colour macros that are not part of this model.
- `init_lvgl_drivers`, `LvglWrapper::instance`, `run`, `pollInputs`: toolkit registration, singleton construction and timer plumbing. Only the registration order (touch, rotary, keyboard) is kept, as the constant `RegistrationOrder`.
- The legacy event queue, the touch panel driver and the encoder counter: their values are parameters of the read methods. The concurrency of the interrupt-fed queue is not modelled.
- The bit layout of coded events (`EVT_KEY_MASK`, `EVT_KEY_BREAK`, `EVT_KEY_FIRST`, `_MSK_KEY_*`): these macros are not part of this model, so events are abstract key and flag-set values.
- The toolkit's key codes `LV_KEY_ENTER` = 10 and `LV_KEY_ESC` = 27 are taken from LVGL's key enumeration, which is not part of this model. Only their distinctness from each other and from 0 matters.
- How the toolkit fills the record before calling a read callback is not modelled: the caller's record is an arbitrary input.
- `TRACE` logging. The `HARDWARE_TOUCH` switch is a constant of the touch shim.
- LvglWrapper.RotaryShim.Read: positions are unbounded integers, so a 32-bit `rotenc_t` overflow in `newPos - prevPos` is not modelled; only the int16 narrowing of the result is.
- Menus.MenuHandler.IsEnabled: the enabled callback is modelled by the value it returns; any side effect of calling it is not represented.
- Menus.MenuStack.ChainMenu: the body of chainMenu is not part of this model. The contract states the handler slots, the level and the saved cursors; the effect on the live cursor variables and any other effects (event flags, sounds) are left unspecified.
- Menus.MenuStack.PushMenu: the body of pushMenu is not part of this model. The contract states the level, the handler slots and, above the root, the saved cursor of the level left. What happens to saved slot 0 when leaving the root, the effect on the live cursor variables and any other effects (event flags, sounds) are left unspecified.
- Menus.MenuStack.PopMenu: the body of popMenu is not part of this model. The model only lowers the level. Where a saved cursor row and offset are restored into the live variables is not represented, so the push-pop round trip is stated for the level and the handlers only. The effect on the live cursor variables is left unspecified.
- Menus.MenuStack.AbortPopMenu: the body is not part of this model. The model only raises the level again; the effect on the live cursor variables is left unspecified.
- `menuEntryTime`, `menuCalibrationState` and `menuEvent`: globals declared next to the stack. Nothing in the modelled code reads or writes them.
