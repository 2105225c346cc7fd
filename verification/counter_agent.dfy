/**
 * The counter agent of the reactive GUI exercises (`reactivegui02.ConcurrentGUI.Agent`
 * and `reactivegui03.AnotherConcurrentGUI.Agent`, which are the same code).
 *
 * The agent owns `counter` (starts at 0), the direction flag `increase`
 * (starts true) and the latch `stop` (starts false). One pass of its run loop
 * checks `stop`, publishes the current counter to the window and waits for
 * the window to apply it, then steps the counter by +1 or -1. Commands set the
 * direction or latch `stop`.
 *
 * Every command and every loop pass is one atomic step; the window is a sink
 * that records, in order, what it was asked to show or do.
 */
module CounterAgent {

  /** What the window applies on its event thread, in order. */
  datatype Event = Published(value: int) | ControlsDisabled

  /** The window: the label the counter is published to, and the up, down and stop buttons. */
  class Frame {
    /** Whether the up, down and stop buttons are enabled. */
    var controlsEnabled: bool
    /** Everything the window has been asked to show or do, oldest first. */
    ghost var events: seq<Event>

    constructor ()
      ensures controlsEnabled && events == []
    {
      controlsEnabled := true;
      events := [];
    }

    /** Shows `value` on the label; the caller waits until it is applied. */
    method Publish(value: int)
      modifies this
      ensures events == old(events) + [Published(value)]
      ensures controlsEnabled == old(controlsEnabled)
    {
      events := events + [Published(value)];
    }

    /** Disables the stop, up and down buttons. */
    method DisableControls()
      modifies this
      ensures !controlsEnabled
      ensures events == old(events) + [ControlsDisabled]
    {
      controlsEnabled := false;
      events := events + [ControlsDisabled];
    }
  }

  // ---------------------------------------------------------------------------
  // The agent as a state machine
  // ---------------------------------------------------------------------------

  datatype AgentState = AgentState(counter: int, increase: bool, stop: bool)

  /** A new agent: counting up from zero, not stopped. */
  const Initial := AgentState(0, true, false)

  /** One loop pass, or one of the three external commands. */
  datatype Command = Tick | Increase | Decrease | StopCounting

  /** The amount one tick adds to the counter. */
  function Delta(increase: bool): int
  {
    if increase then 1 else -1
  }

  /** The command that turns the direction away from `increase`. */
  function Reverse(increase: bool): Command
  {
    if increase then Decrease else Increase
  }

  /** The agent after one command. */
  function Next(s: AgentState, c: Command): (t: AgentState)
    ensures t.stop == (s.stop || c == StopCounting)
    ensures c != Tick || s.stop ==> t.counter == s.counter
    ensures c != Increase && c != Decrease ==> t.increase == s.increase
  {
    match c
    case Tick => if s.stop then s else s.(counter := s.counter + Delta(s.increase))
    case Increase => s.(increase := true)
    case Decrease => s.(increase := false)
    case StopCounting => s.(stop := true)
  }

  /** What one command publishes: the current counter, for a loop pass that runs. */
  function Output(s: AgentState, c: Command): seq<int>
  {
    if c == Tick && !s.stop then [s.counter] else []
  }

  /** The agent after a run of commands. */
  function Final(s: AgentState, cmds: seq<Command>): AgentState
    decreases |cmds|
  {
    if cmds == [] then s else Final(Next(s, cmds[0]), cmds[1..])
  }

  /** The values a run of commands publishes, in order. */
  function Trace(s: AgentState, cmds: seq<Command>): seq<int>
    decreases |cmds|
  {
    if cmds == [] then [] else Output(s, cmds[0]) + Trace(Next(s, cmds[0]), cmds[1..])
  }

  /** Window events for published values. */
  function AsEvents(values: seq<int>): (es: seq<Event>)
    ensures |es| == |values|
    ensures forall i :: 0 <= i < |es| ==> es[i] == Published(values[i])
  {
    if values == [] then [] else [Published(values[0])] + AsEvents(values[1..])
  }

  /** `n` loop passes with no command in between. */
  function Ticks(n: nat): seq<Command>
  {
    seq(n, _ => Tick)
  }

  // ---------------------------------------------------------------------------
  // Properties of runs
  // ---------------------------------------------------------------------------

  /** Two runs in a row are one run. */
  lemma {:induction false} RunsCompose(s: AgentState, a: seq<Command>, b: seq<Command>)
    ensures Final(s, a + b) == Final(Final(s, a), b)
    ensures Trace(s, a + b) == Trace(s, a) + Trace(Final(s, a), b)
    decreases |a|
  {
    if a != [] {
      assert (a + b)[0] == a[0] && (a + b)[1..] == a[1..] + b;
      RunsCompose(Next(s, a[0]), a[1..], b);
    } else {
      assert a + b == b;
    }
  }

  /** The first value a run publishes is the counter it starts from. */
  lemma {:induction false} TraceStartsAtCounter(s: AgentState, cmds: seq<Command>)
    ensures Trace(s, cmds) != [] ==> Trace(s, cmds)[0] == s.counter
    decreases |cmds|
  {
    if cmds != [] && Output(s, cmds[0]) == [] {
      TraceStartsAtCounter(Next(s, cmds[0]), cmds[1..]);
    }
  }

  /** Consecutive published values differ by exactly one, whatever commands come in between. */
  lemma {:induction false} UnitSteps(s: AgentState, cmds: seq<Command>)
    ensures forall k :: 0 <= k < |Trace(s, cmds)| - 1 ==>
              Trace(s, cmds)[k + 1] == Trace(s, cmds)[k] + 1 || Trace(s, cmds)[k + 1] == Trace(s, cmds)[k] - 1
    decreases |cmds|
  {
    if cmds != [] {
      var t := Next(s, cmds[0]);
      UnitSteps(t, cmds[1..]);
      TraceStartsAtCounter(t, cmds[1..]);
    }
  }

  /**
   * While no command turns the direction around, the k-th published value is
   * the starting counter plus k steps in the current direction.
   */
  lemma {:induction false} SteadyCount(s: AgentState, cmds: seq<Command>)
    requires forall i :: 0 <= i < |cmds| ==> cmds[i] != Reverse(s.increase)
    ensures forall k :: 0 <= k < |Trace(s, cmds)| ==> Trace(s, cmds)[k] == s.counter + Delta(s.increase) * k
    ensures !s.stop ==> Final(s, cmds).counter == s.counter + Delta(s.increase) * |Trace(s, cmds)|
    decreases |cmds|
  {
    if cmds != [] {
      var t := Next(s, cmds[0]);
      assert t.increase == s.increase;
      SteadyCount(t, cmds[1..]);
      if t.stop {
        StopIsFinal(t, cmds[1..]);
      }
      var rest := Trace(t, cmds[1..]);
      if Output(s, cmds[0]) != [] {
        assert t.counter == s.counter + Delta(s.increase);
        assert Delta(s.increase) * (|rest| + 1) == Delta(s.increase) * |rest| + Delta(s.increase);
        forall k | 0 <= k < |rest|
          ensures rest[k] == s.counter + Delta(s.increase) * (k + 1)
        {
          assert Delta(s.increase) * (k + 1) == Delta(s.increase) * k + Delta(s.increase);
        }
      }
    }
  }

  /** After `decrease()`, every published value (until `increase()`) is one below the one before. */
  lemma DecreaseCountsDown(s: AgentState, cmds: seq<Command>)
    requires forall i :: 0 <= i < |cmds| ==> cmds[i] != Increase
    ensures forall k :: 0 <= k < |Trace(Next(s, Decrease), cmds)| ==> Trace(Next(s, Decrease), cmds)[k] == s.counter - k
    ensures forall k :: 0 <= k < |Trace(Next(s, Decrease), cmds)| - 1 ==>
              Trace(Next(s, Decrease), cmds)[k + 1] == Trace(Next(s, Decrease), cmds)[k] - 1
  {
    SteadyCount(Next(s, Decrease), cmds);
  }

  /** A new agent left alone publishes `0, 1, 2, ...` and then holds the next number. */
  lemma CountsUpFromZero(n: nat)
    ensures Trace(Initial, Ticks(n)) == seq(n, k => k)
    ensures Final(Initial, Ticks(n)).counter == n
  {
    SteadyCount(Initial, Ticks(n));
    EveryTickPublishes(Initial, n);
  }

  /** A running agent publishes once per loop pass. */
  lemma {:induction false} EveryTickPublishes(s: AgentState, n: nat)
    requires !s.stop
    ensures |Trace(s, Ticks(n))| == n
    decreases n
  {
    if n > 0 {
      assert Ticks(n)[1..] == Ticks(n - 1);
      EveryTickPublishes(Next(s, Tick), n - 1);
    }
  }

  /** Three loop passes of a new agent publish 0, 1 and 2. */
  lemma ThreeTicksFromStart()
    ensures Trace(Initial, [Tick, Tick, Tick]) == [0, 1, 2]
  {
    CountsUpFromZero(3);
    assert Ticks(3) == [Tick, Tick, Tick];
  }

  /** Once stopped, an agent stays stopped, publishes nothing more and keeps its counter. */
  lemma {:induction false} StopIsFinal(s: AgentState, cmds: seq<Command>)
    requires s.stop
    ensures Final(s, cmds).stop && Final(s, cmds).counter == s.counter
    ensures Trace(s, cmds) == []
    decreases |cmds|
  {
    if cmds != [] {
      StopIsFinal(Next(s, cmds[0]), cmds[1..]);
    }
  }

  /** Whatever happens after `stopCounting()`, nothing more is published. */
  lemma StopCountingEndsTrace(s: AgentState, before: seq<Command>, after: seq<Command>)
    ensures Trace(s, before + [StopCounting] + after) == Trace(s, before)
    ensures Final(s, before + [StopCounting] + after).stop
  {
    RunsCompose(s, before, [StopCounting]);
    RunsCompose(s, before + [StopCounting], after);
    StopIsFinal(Final(s, before + [StopCounting]), after);
  }

  // ---------------------------------------------------------------------------
  // The agent object
  // ---------------------------------------------------------------------------

  class Agent {
    var stop: bool
    var increase: bool
    var counter: int
    /** The enclosing window the agent publishes to. */
    const frame: Frame

    function State(): AgentState
      reads this
    {
      AgentState(counter, increase, stop)
    }

    constructor (frame: Frame)
      ensures this.frame == frame
      ensures State() == Initial
    {
      this.frame := frame;
      stop := false;
      increase := true;
      counter := 0;
    }

    /**
     * One pass of the run loop: if not stopped, publish the counter, wait for the
     * window, then step the counter in the current direction.
     */
    method Iterate() returns (ran: bool)
      modifies this, frame
      ensures ran == !old(stop)
      ensures State() == Next(old(State()), Tick)
      ensures ran ==> counter == old(counter) + Delta(old(increase))
      ensures frame.events == old(frame.events) + AsEvents(Output(old(State()), Tick))
      ensures frame.controlsEnabled == old(frame.controlsEnabled)
    {
      if stop {
        return false;
      }
      frame.Publish(counter);
      if increase {
        counter := counter + 1;
      } else {
        counter := counter - 1;
      }
      return true;
    }

    /** Latches `stop`; calling it again changes nothing. */
    method StopCounting()
      modifies this
      ensures stop && counter == old(counter) && increase == old(increase)
      ensures State() == Next(old(State()), Command.StopCounting)
    {
      stop := true;
    }

    /** Counts up from now on; nothing else changes. */
    method Increase()
      modifies this
      ensures increase && counter == old(counter) && stop == old(stop)
      ensures State() == Next(old(State()), Command.Increase)
    {
      increase := true;
    }

    /** Counts down from now on; nothing else changes. */
    method Decrease()
      modifies this
      ensures !increase && counter == old(counter) && stop == old(stop)
      ensures State() == Next(old(State()), Command.Decrease)
    {
      increase := false;
    }
  }
}
