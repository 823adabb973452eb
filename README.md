# Acid engine state: the per-second rate counter and the Engine's configuration

This project is a Dafny model of the state that Acid's `Engine` keeps between
frames (`Sources/Engine/Engine.hpp`).

- `ChangePerSecond` is the windowed counter behind "updates per second" and
  "frames per second". Every `Update(time)` adds one to an accumulator. When the
  integer part of `time` is past the integer part of the last time seen, the
  accumulator is published as the rate and reset to zero. The time is always
  remembered. The model is a class `Acid.ChangePerSecond` with the three fields
  of the source. The fields are 32-bit unsigned, so `Increment` wraps
  explicitly. Time is a `real`, and `.Floor` plays the part of `std::floor`.
  The class is proved against the value-level function `Step`. The folds `Run`
  and `Published` describe a sequence of calls, and lemmas about them state the
  multi-call behaviour.
- `Engine` is a class `Acid.Engine<T, G>` holding the running flag, the FPS
  limit, the time offset, the owned game and the two counters. `T` stands for
  the engine's `Time` type and `G` for `Game`; the model treats both as opaque.
  The owned game is an `Option<G>`: `None` is a null `unique_ptr`. Each setter
  may modify only its own field (`modifies this`field`). Each setter states the
  whole new observable state, `View()`, as the old one with that single field
  replaced. The getters read the fields and the counters' published values.

The two counters' initial contents are constructor arguments. The C++ fields of
`ChangePerSecond` have no initialiser, and the `Engine` constructor's body is
not part of this model.

The project has two files: `wrappers.dfy` holds `Option`, and `engine.dfy` holds
module `Acid`.

Note on the crossing tick: a "ticks per second" counter is naturally read as
publishing, after three ticks in the first second, the value 3 once a later
tick arrives. The code increments before it tests the boundary
(`Engine.hpp:17-21`). So the tick that crosses the boundary is counted in the
window it closes, and ticks at 0.1, 0.3, 0.9 and 1.2 publish 4. The model
follows the code (`FourTicksPublishFour`). `WindowCount` states it for all
inputs: when a window closes, the count published is the accumulator it started
with, plus the ticks in that window, plus the closing tick, modulo 2^32.
`RunConservesTicks` shows that this is a convention, not a lost or doubled
tick. Over any run, the published counts plus the final accumulator equal the
initial accumulator plus the number of ticks fed in, modulo 2^32.

## Model

| member | source | states |
|---|---|---|
| `Acid.Increment` | Sources/Engine/Engine.hpp:17 | `m_valueTemp++` on a `uint32_t` adds one below 2^32-1 and wraps 2^32-1 to 0 |
| `Acid.ChangePerSecond.constructor` | Sources/Engine/Engine.hpp:28-29 | the three fields start at the values given, because the source does not initialise them |
| `Acid.ChangePerSecond.Update` | Sources/Engine/Engine.hpp:15-26 | the time is always recorded. A tick past the last-seen integer second publishes the old accumulator plus one and zeroes the accumulator. Any other tick adds one to the accumulator and leaves the published value alone. The new state is `Step` of the old |
| `Acid.Step` | Sources/Engine/Engine.hpp:15-26 | one call of `Update` as a value: the time is recorded, the readable value is either kept or the accumulator with this tick counted, and the accumulator is either restarted at 0 or one higher |
| `Acid.Run` | Sources/Engine/Engine.hpp:15-26 | repeated calls of `Update`, one per time in order; after any non-empty run the recorded time is the last call's time, whatever the order of the times |
| `Acid.Published` | Sources/Engine/Engine.hpp:19-22 | the counts published, in order, by repeated calls of `Update`; there is at most one publication per call |
| `Acid.StepWithoutCrossing` | Sources/Engine/Engine.hpp:17-25 | if floor(time) <= floor(last time), one tick leaves the published value unchanged, adds one to the accumulator (mod 2^32), records the time and publishes nothing |
| `Acid.StepCrossing` | Sources/Engine/Engine.hpp:17-25 | if floor(time) > floor(last time), one tick publishes old accumulator + 1 (the crossing tick included), resets the accumulator to 0 and records the time |
| `Acid.ValueChangesOnlyOnCrossing` | Sources/Engine/Engine.hpp:19-23 | the published value changes only on a tick whose integer second strictly increases |
| `Acid.JumpPublishesOnce` | Sources/Engine/Engine.hpp:19-22 | a tick several seconds ahead publishes exactly once, and gives the same state as a tick at the next whole second except for the recorded time |
| `Acid.RewindRepublishes` | Sources/Engine/Engine.hpp:19-25 | time going backwards is recorded too. A later tick back in the previous second then publishes again |
| `Acid.RunWithinSecond` | Sources/Engine/Engine.hpp:17-23 | over calls whose times share the last-seen integer second, nothing is published, the published value is constant and the accumulator grows by the number of calls (mod 2^32) |
| `Acid.RunValueIsLastPublished` | Sources/Engine/Engine.hpp:19-23 | after a run, the readable value is the last count published, or the initial one if nothing was published |
| `Acid.RunConservesTicks` | Sources/Engine/Engine.hpp:17-23 | the sum of the published counts plus the final accumulator equals the initial accumulator plus the number of ticks (mod 2^32). No tick is lost or counted twice |
| `Acid.RunAppend` | Sources/Engine/Engine.hpp:15-26 | calling `Update` for the times of `a` and then of `b` gives the same state as calling it for `a + b` |
| `Acid.WindowCount` | Sources/Engine/Engine.hpp:17-23 | after ticks that all share the last-seen integer second, a tick past it publishes the initial accumulator plus the number of those ticks plus one, modulo 2^32 (the crossing tick included), and resets the accumulator to 0 |
| `Acid.FourTicksPublishFour` | Sources/Engine/Engine.hpp:17-25 | from zero, ticks at 0.1, 0.3, 0.9 and 1.2 publish 4. With further ticks at 1.8 and 2.1 the publications are exactly [4, 2] |
| `Acid.Engine.constructor` | Sources/Engine/Engine.hpp:50 | the engine (fields at lines 196-209) starts with the given first argument, flag, limit, offset and counter states, no game, and two distinct fresh counters (`Valid()`); `emptyRegister` is dropped along with the module registry |
| `Acid.Engine.GetArgv0` | Sources/Engine/Engine.hpp:131 | returns the first program argument given at construction |
| `Acid.Engine.GetGame` | Sources/Engine/Engine.hpp:107 | returns the currently owned game, or none |
| `Acid.Engine.SetGame` | Sources/Engine/Engine.hpp:113 | afterwards `GetGame()` returns the game given, or none when given none. Nothing else observable changes |
| `Acid.Engine.GetTimeOffset` | Sources/Engine/Engine.hpp:137 | returns the engine's time offset |
| `Acid.Engine.SetTimeOffset` | Sources/Engine/Engine.hpp:143 | afterwards `GetTimeOffset()` returns the offset given. Only the offset changes |
| `Acid.Engine.GetFpsLimit` | Sources/Engine/Engine.hpp:149 | returns the frame-rate limit |
| `Acid.Engine.SetFpsLimit` | Sources/Engine/Engine.hpp:155 | afterwards `GetFpsLimit()` returns the limit given (-1 included). Only the limit changes |
| `Acid.Engine.IsRunning` | Sources/Engine/Engine.hpp:161 | returns the running flag |
| `Acid.Engine.GetUps` | Sources/Engine/Engine.hpp:179 | returns exactly the published value of the update counter |
| `Acid.Engine.GetFps` | Sources/Engine/Engine.hpp:185 | returns exactly the published value of the render counter |
| `Acid.Engine.RequestClose` | Sources/Engine/Engine.hpp:191 | for either error flag, afterwards `IsRunning()` is false. Nothing else observable changes |
| `Acid.RequestCloseIsIdempotent` | Sources/Engine/Engine.hpp:191 | closing twice, with any flags, leaves the same state as closing once |
| `Acid.UpdateUpsCounter` | Sources/Engine/Engine.hpp:209 | the two counters are separate members: for an engine whose counters are distinct (`Valid()`, which the constructor establishes), an update of `ups` changes only the `ups` part of `View()` and leaves `GetFps()` as it was |
| `Acid.ReloadGame` | Tests/EditorTest/MainGame.cpp:22-29 | loading a game and then setting it to null leaves no game and changes nothing else |

## Left out

- `Engine::Run`, `GetTime` and `GetDateTime` (lines 56, 119, 125): their bodies are not in `Engine.hpp`, and they depend on the wall clock and on `Timer`, which is not part of this model. So the model does not show when the loop feeds the counters or how it observes `RequestClose`.
- `GetDelta` and `GetDeltaRender` (lines 167, 173): they forward to `Delta::GetChange`, and `Delta` is not part of this model.
- The module registry (`HasModule`, `GetModule`, `AddModule`, `RemoveModule`): these only forward to `ModuleHolder`, which is not part of this model.
- The `Engine` constructor's body: it is not in `Engine.hpp`, so the initial state is given as arguments.
- The process-wide `INSTANCE` pointer and `Engine::Get()`: global plumbing with no logic.
- `SetGame` does not model destruction of the previously owned game or the double release that `reset` with the same pointer would cause. Ownership is only "which game is held".
- `Acid.Engine.GetTimeOffset`, `Acid.Engine.GetFpsLimit`, `Acid.Engine.IsRunning`, `Acid.Engine.GetUps`, `Acid.Engine.GetFps`: the C++ getters return `const` references into the engine, so a caller that keeps one sees later setter, `RequestClose` and counter `Update` changes; the model returns the value at the time of the call, and aliasing through a kept reference is not captured.
- `Acid.Engine.SetFpsLimit`, `Acid.Engine.GetFpsLimit`: the limit is a C++ `float` but is modelled as an exact `real`, so float rounding is not modelled, and the round trip `GetFpsLimit() == limit` does not cover a NaN limit, for which IEEE `==` is false.
- `Acid.ChangePerSecond.Update` does not model `float` rounding, NaN or infinities. Time is an exact real, and `std::floor` on a finite float is `.Floor`.
- `UniformBuffer`, `SoundBuffer`, `ManagerRender` and the test programs' I/O: declarations, GPU/audio glue and console input with no modellable logic.
