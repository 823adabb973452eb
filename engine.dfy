/**
 * The state kept by Acid's Engine: the windowed rate counter ChangePerSecond
 * (updates and frames per second) and the Engine's lifecycle and configuration
 * fields with their getters and setters.
 */
module Acid {

  import opened Wrappers

  /** 2^32: the counters of ChangePerSecond are 32-bit unsigned integers. */
  const Modulus: int := 0x1_0000_0000

  type U32 = x: int | 0 <= x < Modulus

  /** `x++` on a uint32_t: adds one, wrapping from the largest value to zero. */
  function Increment(x: U32): (r: U32)
    ensures x < 0xFFFF_FFFF ==> r == x + 1
    ensures x == 0xFFFF_FFFF ==> r == 0
  {
    (x + 1) % Modulus
  }

  // ---------------------------------------------------------------------------
  // ChangePerSecond, as values
  // ---------------------------------------------------------------------------

  /** The three fields of a ChangePerSecond: accumulator, published count, last-seen time. */
  datatype CounterState = CounterState(temp: U32, value: U32, time: real)

  /** A tick at `time` closes the current window when its whole second lies past the last-seen one. */
  predicate Crosses(last: real, time: real)
  {
    time.Floor > last.Floor
  }

  /** One call of Update: count the tick, publish and reset on a crossing, remember the time. */
  function Step(s: CounterState, time: real): (r: CounterState)
    ensures r.time == time
    ensures r.value == s.value || r.value == Increment(s.temp)
    ensures r.temp == 0 || r.temp == Increment(s.temp)
  {
    var temp := Increment(s.temp);
    if Crosses(s.time, time) then CounterState(0, temp, time)
    else CounterState(temp, s.value, time)
  }

  /** The state after calling Update once per element of `times`, in order. */
  function Run(s: CounterState, times: seq<real>): (r: CounterState)
    ensures times != [] ==> r.time == times[|times| - 1]
    decreases |times|
  {
    if times == [] then s else Run(Step(s, times[0]), times[1..])
  }

  /** The counts published, in order, by the calls of Update at `times`. */
  function Published(s: CounterState, times: seq<real>): (p: seq<U32>)
    ensures |p| <= |times|
    decreases |times|
  {
    if times == [] then []
    else
      (if Crosses(s.time, times[0]) then [Increment(s.temp)] else [])
      + Published(Step(s, times[0]), times[1..])
  }

  function Sum(xs: seq<U32>): int
  {
    if xs == [] then 0 else xs[0] + Sum(xs[1..])
  }

  lemma ModAddLeft(a: int, b: int)
    ensures (a % Modulus + b) % Modulus == (a + b) % Modulus
  {
  }

  /**
   * A tick whose integer second is not past the last-seen one only adds to the
   * accumulator; the published count never changes on such a tick.
   */
  lemma StepWithoutCrossing(s: CounterState, time: real)
    requires time.Floor <= s.time.Floor
    ensures Step(s, time).value == s.value
    ensures Step(s, time).temp == Increment(s.temp)
    ensures Step(s, time).time == time
    ensures Published(s, [time]) == []
  {
  }

  /**
   * A tick that moves past the integer second publishes the accumulator with
   * that tick already counted, and restarts the accumulator at zero.
   */
  lemma StepCrossing(s: CounterState, time: real)
    requires time.Floor > s.time.Floor
    ensures Step(s, time).value == Increment(s.temp)
    ensures Step(s, time).temp == 0
    ensures Step(s, time).time == time
    ensures Published(s, [time]) == [Step(s, time).value]
  {
  }

  /** The published count changes only on a tick whose integer second strictly increases. */
  lemma ValueChangesOnlyOnCrossing(s: CounterState, time: real)
    ensures Step(s, time).value != s.value ==> time.Floor > s.time.Floor
  {
  }

  /**
   * A tick that jumps several seconds ahead publishes once, exactly as a tick
   * at the start of the next second would; only the remembered time differs.
   */
  lemma JumpPublishesOnce(s: CounterState, time: real)
    requires time.Floor > s.time.Floor
    ensures Step(s, time) == Step(s, (s.time.Floor + 1) as real).(time := time)
    ensures |Published(s, [time])| == 1
  {
  }

  /**
   * The last-seen time moves backwards as readily as forwards, so a tick back
   * in the remembered second after a rewind publishes again.
   */
  lemma RewindRepublishes(s: CounterState, earlier: real, again: real)
    requires earlier.Floor < s.time.Floor
    requires again.Floor == s.time.Floor
    ensures Run(s, [earlier]).time == earlier
    ensures Published(s, [earlier, again]) == [Increment(Increment(s.temp))]
  {
    var s1 := Step(s, earlier);
    assert Run(s1, []) == s1;
    assert Published(s1, [again]) == [Increment(s1.temp)];
    assert [earlier, again][1..] == [again];
  }

  /**
   * Over calls whose times all share the last-seen integer second, nothing is
   * published and the accumulator grows by the number of calls (modulo 2^32).
   */
  lemma {:induction false} RunWithinSecond(s: CounterState, times: seq<real>)
    requires forall i :: 0 <= i < |times| ==> times[i].Floor == s.time.Floor
    ensures Run(s, times).value == s.value
    ensures Run(s, times).temp == (s.temp + |times|) % Modulus
    ensures Published(s, times) == []
    decreases |times|
  {
    if times != [] {
      var next := Step(s, times[0]);
      assert next.time.Floor == s.time.Floor;
      forall i | 0 <= i < |times[1..]|
        ensures times[1..][i].Floor == next.time.Floor
      {
        assert times[1..][i] == times[i + 1];
      }
      RunWithinSecond(next, times[1..]);
      ModAddLeft(s.temp + 1, |times| - 1);
    }
  }

  /** The count readable after a run is the last one published, or the old one if none was. */
  lemma {:induction false} RunValueIsLastPublished(s: CounterState, times: seq<real>)
    ensures var p := Published(s, times);
      Run(s, times).value == if p == [] then s.value else p[|p| - 1]
    decreases |times|
  {
    if times != [] {
      var next := Step(s, times[0]);
      RunValueIsLastPublished(next, times[1..]);
    }
  }

  /**
   * Every tick is counted exactly once: the published counts plus what is left
   * in the accumulator add up to the ticks fed in (modulo 2^32), so the tick
   * that crosses a boundary is neither lost nor counted twice.
   */
  lemma {:induction false} RunConservesTicks(s: CounterState, times: seq<real>)
    ensures (Sum(Published(s, times)) + Run(s, times).temp) % Modulus
         == (s.temp + |times|) % Modulus
    decreases |times|
  {
    if times != [] {
      var next := Step(s, times[0]);
      var rest := Published(next, times[1..]);
      var last := Run(next, times[1..]);
      RunConservesTicks(next, times[1..]);
      if Crosses(s.time, times[0]) {
        assert Published(s, times) == [Increment(s.temp)] + rest;
        assert ([Increment(s.temp)] + rest)[1..] == rest;
        assert Sum(Published(s, times)) == Increment(s.temp) + Sum(rest);
        // (inc + sum + temp) % M == (inc + (sum + temp) % M) % M == (inc + |times| - 1) % M
        ModAddLeft(Sum(rest) + last.temp, Increment(s.temp));
        ModAddLeft(next.temp + |times| - 1, Increment(s.temp));
        ModAddLeft(s.temp + 1, |times| - 1);
      } else {
        assert Published(s, times) == rest;
        ModAddLeft(s.temp + 1, |times| - 1);
      }
    }
  }

  /** Calling Update for the times in `a` and then in `b` is calling it for `a + b`. */
  lemma {:induction false} RunAppend(s: CounterState, a: seq<real>, b: seq<real>)
    ensures Run(s, a + b) == Run(Run(s, a), b)
    decreases |a|
  {
    if a == [] {
      assert a + b == b;
    } else {
      assert (a + b)[0] == a[0];
      assert (a + b)[1..] == a[1..] + b;
      RunAppend(Step(s, a[0]), a[1..], b);
    }
  }

  /**
   * The count published when a window closes: after ticks that all share the
   * last-seen integer second, a tick past it publishes the accumulator plus
   * those ticks plus itself (modulo 2^32), and restarts the accumulator.
   */
  lemma {:induction false} WindowCount(s: CounterState, times: seq<real>, t: real)
    requires forall i :: 0 <= i < |times| ==> times[i].Floor == s.time.Floor
    requires t.Floor > s.time.Floor
    ensures Run(s, times + [t]).value == (s.temp + |times| + 1) % Modulus
    ensures Run(s, times + [t]).temp == 0
  {
    RunAppend(s, times, [t]);
    RunWithinSecond(s, times);
    var m := Run(s, times);
    if times != [] {
      assert m.time == times[|times| - 1];
    }
    assert m.time.Floor == s.time.Floor;
    var r := Step(m, t);
    assert Run(r, []) == r;
    assert Run(m, [t]) == r;
    assert r.value == Increment(m.temp) && r.temp == 0;
    ModAddLeft(s.temp + |times|, 1);
  }

  /**
   * Ticks at 0.1, 0.3, 0.9 and 1.2 from a zeroed counter publish 4, not 3:
   * the tick at 1.2 is counted before the boundary test. Two more ticks at 1.8
   * and 2.1 publish 2.
   */
  lemma FourTicksPublishFour()
    ensures Run(CounterState(0, 0, 0.0), [0.1, 0.3, 0.9, 1.2]).value == 4
    ensures Published(CounterState(0, 0, 0.0), [0.1, 0.3, 0.9, 1.2, 1.8, 2.1]) == [4, 2]
  {
    var s0 := CounterState(0, 0, 0.0);
    var s1 := Step(s0, 0.1);
    var s2 := Step(s1, 0.3);
    var s3 := Step(s2, 0.9);
    var s4 := Step(s3, 1.2);
    var s5 := Step(s4, 1.8);
    assert s4 == CounterState(0, 4, 1.2);
    assert s5 == CounterState(1, 4, 1.8);
    assert Published(s5, [2.1]) == [2];
    assert Published(s4, [1.8, 2.1]) == [2];
    assert Published(s3, [1.2, 1.8, 2.1]) == [4, 2];
    assert Published(s0, [0.1, 0.3, 0.9, 1.2, 1.8, 2.1]) == [4, 2];
  }

  // ---------------------------------------------------------------------------
  // ChangePerSecond, as the object the engine updates in place
  // ---------------------------------------------------------------------------

  class ChangePerSecond {
    var valueTemp: U32
    var value: U32
    var valueTime: real

    /** The fields have no initialiser in C++; the initial state is given explicitly. */
    constructor (temp: U32, published: U32, time: real)
      ensures State() == CounterState(temp, published, time)
    {
      valueTemp, value, valueTime := temp, published, time;
    }

    function State(): CounterState
      reads this
    {
      CounterState(valueTemp, value, valueTime)
    }

    method Update(time: real)
      modifies this
      ensures valueTime == time
      ensures time.Floor > old(valueTime).Floor ==>
        value == Increment(old(valueTemp)) && valueTemp == 0
      ensures time.Floor <= old(valueTime).Floor ==>
        value == old(value) && valueTemp == Increment(old(valueTemp))
      ensures State() == Step(old(State()), time)
    {
      valueTemp := Increment(valueTemp);
      if time.Floor > valueTime.Floor {
        value := valueTemp;
        valueTemp := 0;
      }
      valueTime := time;
    }
  }

  // ---------------------------------------------------------------------------
  // Engine
  // ---------------------------------------------------------------------------

  /** Everything an Engine's getters can observe, with T the time type and G the game type. */
  datatype EngineView<T, G> = EngineView(
    running: bool,
    fpsLimit: real,
    timeOffset: T,
    game: Option<G>,
    ups: CounterState,
    fps: CounterState)

  class Engine<T, G> {
    const argv0: string
    var running: bool
    var fpsLimit: real
    var timeOffset: T
    /** The owned game; None stands for a null pointer. */
    var game: Option<G>
    const ups: ChangePerSecond
    const fps: ChangePerSecond

    /**
     * The constructor's body is not part of this model: the initial flags,
     * limit, offset and counters are its arguments. The owning game pointer
     * starts null.
     */
    constructor (argv0: string, running: bool, fpsLimit: real, timeOffset: T,
                 ups0: CounterState, fps0: CounterState)
      ensures View() == EngineView(running, fpsLimit, timeOffset, None, ups0, fps0)
      ensures GetArgv0() == argv0
      ensures fresh(ups) && fresh(fps) && Valid()
    {
      this.argv0 := argv0;
      this.running := running;
      this.fpsLimit := fpsLimit;
      this.timeOffset := timeOffset;
      this.game := None;
      this.ups := new ChangePerSecond(ups0.temp, ups0.value, ups0.time);
      this.fps := new ChangePerSecond(fps0.temp, fps0.value, fps0.time);
    }

    /**
     * The two counters are separate value members in C++, so they never alias.
     * Both are constant fields, so an engine keeps this from construction on.
     */
    ghost predicate Valid()
    {
      ups != fps
    }

    function View(): EngineView<T, G>
      reads this, ups, fps
    {
      EngineView(running, fpsLimit, timeOffset, game, ups.State(), fps.State())
    }

    function GetArgv0(): (r: string)
      ensures r == argv0
    {
      argv0
    }

    function GetGame(): (r: Option<G>)
      reads this
      ensures r == View().game
    {
      game
    }

    /** Replaces the owned game (the previous one is released); None clears it. */
    method SetGame(g: Option<G>)
      modifies this`game
      ensures GetGame() == g
      ensures View() == old(View()).(game := g)
    {
      game := g;
    }

    function GetTimeOffset(): (r: T)
      reads this
      ensures r == View().timeOffset
    {
      timeOffset
    }

    method SetTimeOffset(t: T)
      modifies this`timeOffset
      ensures GetTimeOffset() == t
      ensures View() == old(View()).(timeOffset := t)
    {
      timeOffset := t;
    }

    function GetFpsLimit(): (r: real)
      reads this
      ensures r == View().fpsLimit
    {
      fpsLimit
    }

    /** Sets the frame-rate limit; -1 means no limit. */
    method SetFpsLimit(limit: real)
      modifies this`fpsLimit
      ensures GetFpsLimit() == limit
      ensures View() == old(View()).(fpsLimit := limit)
    {
      fpsLimit := limit;
    }

    function IsRunning(): (r: bool)
      reads this
      ensures r == View().running
    {
      running
    }

    /** The updates per second last published by the update counter. */
    function GetUps(): (r: U32)
      reads this, ups
      ensures r == View().ups.value
    {
      ups.value
    }

    /** The frames per second last published by the render counter. */
    function GetFps(): (r: U32)
      reads this, fps
      ensures r == View().fps.value
    {
      fps.value
    }

    /** Asks the game loop to stop; whether an error occurred makes no difference. */
    method RequestClose(error: bool)
      modifies this`running
      ensures !IsRunning()
      ensures View() == old(View()).(running := false)
    {
      running := false;
    }
  }

  /** Closing twice, with any error flags, leaves the engine as closing once does. */
  method RequestCloseIsIdempotent<T, G>(e: Engine<T, G>, firstError: bool, secondError: bool)
    modifies e
    ensures !e.IsRunning()
    ensures e.View() == old(e.View()).(running := false)
  {
    e.RequestClose(firstError);
    ghost var once := e.View();
    e.RequestClose(secondError);
    assert e.View() == once;
  }

  /**
   * Feeding the update counter refreshes it as one Update does and leaves the
   * render counter and every other observable part of the engine alone.
   */
  method UpdateUpsCounter<T, G>(e: Engine<T, G>, time: real)
    requires e.Valid()
    modifies e.ups
    ensures e.View() == old(e.View()).(ups := Step(old(e.View()).ups, time))
    ensures e.GetFps() == old(e.GetFps())
  {
    e.ups.Update(time);
  }

  /**
   * A hot-reload cycle: loading installs the new game, unloading sets it to
   * null; nothing else about the engine changes.
   */
  method ReloadGame<T, G>(e: Engine<T, G>, loaded: G)
    modifies e
    ensures e.GetGame() == None
    ensures e.View() == old(e.View()).(game := None)
  {
    e.SetGame(Some(loaded));
    assert e.GetGame() == Some(loaded);
    e.SetGame(None);
  }
}
