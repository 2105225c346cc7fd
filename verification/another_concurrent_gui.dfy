/**
 * The third reactive GUI: the counter agent plus a watchdog (`TimerAgent`) that
 * polls until its own `stopped` latch is set or `DELAY` time units have passed
 * since it started; only if `stopped` is still false does it then stop the
 * agent and disable the stop, up and down buttons. The stop button stops the
 * agent, sets the watchdog's latch and disables the buttons.
 *
 * A session is an interleaving of atomic actions: a pass of the agent's loop,
 * a button press, or one evaluation of the watchdog's loop test at a given
 * elapsed time (the test and the decision after the loop happen together).
 */
module AnotherConcurrentGui {
  import opened CounterAgent

  /** The watchdog's deadline, in milliseconds since it started. */
  const DELAY: int := 10_000

  /** The watchdog's polling loop ends exactly when its latch is set or the deadline has passed. */
  predicate TimerExits(stopped: bool, elapsed: int)
  {
    stopped || elapsed >= DELAY
  }

  // ---------------------------------------------------------------------------
  // Sessions as a state machine
  // ---------------------------------------------------------------------------

  /**
   * Everything a session can observe: the agent, the watchdog's latch, whether
   * the watchdog is still polling, whether the buttons are enabled, and what
   * the window has been asked to do.
   */
  datatype Gui = Gui(agent: AgentState, stopped: bool, polling: bool, controlsEnabled: bool, events: seq<Event>)

  datatype Action = AgentPass | PressUp | PressDown | PressStop | TimerPoll(elapsed: int)

  /** A new window: both agents started, nothing shown yet. */
  const Start := Gui(Initial, false, true, true, [])

  /** The session after one action. Disabled buttons raise no action events. */
  function Step(g: Gui, a: Action): Gui
  {
    match a
    case AgentPass =>
      g.(agent := Next(g.agent, Tick), events := g.events + AsEvents(Output(g.agent, Tick)))
    case PressUp =>
      if g.controlsEnabled then g.(agent := Next(g.agent, Increase)) else g
    case PressDown =>
      if g.controlsEnabled then g.(agent := Next(g.agent, Decrease)) else g
    case PressStop =>
      if g.controlsEnabled then
        g.(agent := Next(g.agent, StopCounting), stopped := true, controlsEnabled := false,
           events := g.events + [ControlsDisabled])
      else g
    case TimerPoll(elapsed) =>
      if !g.polling || !TimerExits(g.stopped, elapsed) then g
      else if g.stopped then g.(polling := false)
      else g.(agent := Next(g.agent, StopCounting), polling := false, controlsEnabled := false,
              events := g.events + [ControlsDisabled])
  }

  /** The session after a run of actions. */
  function RunSession(g: Gui, actions: seq<Action>): Gui
    decreases |actions|
  {
    if actions == [] then g else RunSession(Step(g, actions[0]), actions[1..])
  }

  /** The watchdog's loop tests at the given elapsed times. */
  function Polls(clock: seq<int>): seq<Action>
  {
    seq(|clock|, k requires 0 <= k < |clock| => TimerPoll(clock[k]))
  }

  /** The buttons are disabled at most once, and nothing is shown after that. */
  ghost predicate LockIsLast(events: seq<Event>)
  {
    forall i :: 0 <= i < |events| && events[i] == ControlsDisabled ==> i == |events| - 1
  }

  /** What every reachable session satisfies. */
  ghost predicate Consistent(g: Gui)
  {
    && LockIsLast(g.events)
    && (g.controlsEnabled <==> ControlsDisabled !in g.events)
    && (!g.controlsEnabled ==> g.agent.stop && (g.stopped || !g.polling))
    && (g.stopped ==> !g.controlsEnabled)
  }

  // ---------------------------------------------------------------------------
  // Properties of sessions
  // ---------------------------------------------------------------------------

  /** The watchdog leaves its loop exactly when its latch is set or the deadline has passed. */
  lemma TimerPollExit(g: Gui, elapsed: int)
    requires g.polling
    ensures !Step(g, TimerPoll(elapsed)).polling <==> g.stopped || elapsed >= DELAY
  {
  }

  /**
   * When the latch is already set, the watchdog leaves quietly, whatever the
   * time: it does not stop the agent and does not touch the buttons. This is
   * the case also when the deadline has passed at the same test.
   */
  lemma StoppedTakesPrecedence(g: Gui, elapsed: int)
    requires g.polling && g.stopped
    ensures Step(g, TimerPoll(elapsed)) == g.(polling := false)
  {
  }

  /**
   * When the deadline passes with the latch clear, the watchdog stops the agent
   * and then disables the buttons, as the last thing the window ever does.
   */
  lemma WatchdogExpiry(g: Gui, elapsed: int, later: seq<Action>)
    requires Consistent(g) && g.polling && g.controlsEnabled && elapsed >= DELAY
    ensures Step(g, TimerPoll(elapsed)).agent == g.agent.(stop := true)
    ensures Step(g, TimerPoll(elapsed)).events == g.events + [ControlsDisabled]
    ensures RunSession(Step(g, TimerPoll(elapsed)), later).events == g.events + [ControlsDisabled]
  {
    ConsistentStep(g, TimerPoll(elapsed));
    Frozen(Step(g, TimerPoll(elapsed)), later);
  }

  /**
   * Pressing stop stops the agent, sets the watchdog's latch and disables the
   * buttons; after it the window shows nothing more and the watchdog never
   * disables the buttons a second time.
   */
  lemma StopButton(g: Gui, later: seq<Action>)
    requires Consistent(g) && g.controlsEnabled
    ensures Step(g, PressStop).agent == g.agent.(stop := true) && Step(g, PressStop).stopped
    ensures RunSession(Step(g, PressStop), later).events == g.events + [ControlsDisabled]
  {
    ConsistentStep(g, PressStop);
    Frozen(Step(g, PressStop), later);
  }

  /** Every action keeps a session consistent. */
  lemma ConsistentStep(g: Gui, a: Action)
    requires Consistent(g)
    ensures Consistent(Step(g, a))
  {
    var h := Step(g, a);
    if a == AgentPass && !g.agent.stop {
      assert h.events == g.events + [Published(g.agent.counter)];
    }
  }

  /** Every reachable session is consistent. */
  lemma {:induction false} ConsistentRun(g: Gui, actions: seq<Action>)
    requires Consistent(g)
    ensures Consistent(RunSession(g, actions))
    decreases |actions|
  {
    if actions != [] {
      ConsistentStep(g, actions[0]);
      ConsistentRun(Step(g, actions[0]), actions[1..]);
    }
  }

  /**
   * Once the buttons are disabled nothing observable changes any more: no
   * value is shown, the agent and both latches stay as they are.
   */
  lemma {:induction false} Frozen(g: Gui, actions: seq<Action>)
    requires Consistent(g) && !g.controlsEnabled
    ensures RunSession(g, actions).(polling := g.polling) == g
    decreases |actions|
  {
    if actions != [] {
      ConsistentStep(g, actions[0]);
      Frozen(Step(g, actions[0]), actions[1..]);
    }
  }

  /**
   * In every session the buttons are disabled at most once, by the stop button
   * or by the watchdog, and nothing is shown after that.
   */
  lemma LockoutAtMostOnce(actions: seq<Action>)
    ensures LockIsLast(RunSession(Start, actions).events)
    ensures ControlsDisabled in RunSession(Start, actions).events ==> RunSession(Start, actions).agent.stop
  {
    ConsistentRun(Start, actions);
  }

  /**
   * A run of loop tests in which the first `i` stay in the loop and test `i`,
   * if there is one, leaves it: only that test has an effect.
   */
  lemma {:induction false} PollsUntil(g: Gui, clock: seq<int>, i: nat)
    requires g.polling && i <= |clock|
    requires forall k :: 0 <= k < i ==> !TimerExits(g.stopped, clock[k])
    requires i < |clock| ==> TimerExits(g.stopped, clock[i])
    ensures i < |clock| <==> exists k :: 0 <= k < |clock| && TimerExits(g.stopped, clock[k])
    ensures RunSession(g, Polls(clock)) == if i < |clock| then Step(g, TimerPoll(clock[i])) else g
    decreases |clock|
  {
    if clock != [] {
      assert Polls(clock)[1..] == Polls(clock[1..]);
      if i == 0 {
        AfterExit(Step(g, TimerPoll(clock[0])), clock[1..]);
      } else {
        PollsUntil(g, clock[1..], i - 1);
        if i - 1 < |clock| - 1 {
          assert TimerExits(g.stopped, clock[1..][i - 1]);
        }
        if exists k :: 0 <= k < |clock[1..]| && TimerExits(g.stopped, clock[1..][k]) {
          var k :| 0 <= k < |clock[1..]| && TimerExits(g.stopped, clock[1..][k]);
          assert TimerExits(g.stopped, clock[k + 1]);
        }
      }
    }
  }

  /** Tests after the watchdog has left its loop change nothing. */
  lemma {:induction false} AfterExit(g: Gui, clock: seq<int>)
    requires !g.polling
    ensures RunSession(g, Polls(clock)) == g
    decreases |clock|
  {
    if clock != [] {
      assert Polls(clock)[1..] == Polls(clock[1..]);
      AfterExit(g, clock[1..]);
    }
  }

  // ---------------------------------------------------------------------------
  // The watchdog and the window as objects
  // ---------------------------------------------------------------------------

  class TimerAgent {
    const agent: Agent
    var stopped: bool
    /** Whether its `run` has not returned yet. */
    ghost var polling: bool

    constructor (agent: Agent)
      ensures this.agent == agent && !stopped && polling
    {
      this.agent := agent;
      stopped := false;
      polling := true;
    }

    /** Sets the latch; calling it again changes nothing. */
    method SetStopped()
      modifies this
      ensures stopped && polling == old(polling)
    {
      stopped := true;
    }

    /**
     * The watchdog's `run`, given the elapsed times its loop test reads one
     * after another: it polls while the latch is clear and the deadline has
     * not passed; on leaving the loop with the latch still clear it stops the
     * agent and then disables the buttons. If the readings run out first, it
     * is still polling. Every loop test consumes one reading, even one whose
     * latch is already set, where the source's test stops at `!stopped`
     * without reading the clock: with the latch set, `Run([])` does not exit.
     */
    method Run(clock: seq<int>) returns (exited: bool)
      requires polling
      modifies this, agent, agent.frame
      ensures exited <==> exists k :: 0 <= k < |clock| && TimerExits(old(stopped), clock[k])
      ensures stopped == old(stopped) && polling == !exited
      ensures exited && !old(stopped) ==>
                agent.State() == old(agent.State()).(stop := true) && !agent.frame.controlsEnabled
                && agent.frame.events == old(agent.frame.events) + [ControlsDisabled]
      ensures !exited || old(stopped) ==>
                agent.State() == old(agent.State())
                && agent.frame.controlsEnabled == old(agent.frame.controlsEnabled)
                && agent.frame.events == old(agent.frame.events)
      ensures Observe(this) == RunSession(old(Observe(this)), Polls(clock))
    {
      ghost var g := Observe(this);
      var i := 0;
      while i < |clock| && !stopped && clock[i] < DELAY
        invariant 0 <= i <= |clock|
        invariant forall k :: 0 <= k < i ==> !TimerExits(stopped, clock[k])
      {
        i := i + 1;
      }
      PollsUntil(g, clock, i);
      exited := i < |clock|;
      if exited {
        polling := false;
        if !stopped {
          agent.StopCounting();
          agent.frame.DisableControls();
        }
      }
    }
  }

  /** The session as the watchdog, its agent and the window hold it. */
  ghost function Observe(timer: TimerAgent): Gui
    reads timer, timer.agent, timer.agent.frame
  {
    Gui(timer.agent.State(), timer.stopped, timer.polling, timer.agent.frame.controlsEnabled,
        timer.agent.frame.events)
  }

  class AnotherConcurrentGuiWindow {
    const frame: Frame
    const agent: Agent
    const timerAgent: TimerAgent

    ghost predicate Valid()
    {
      agent.frame == frame && timerAgent.agent == agent
    }

    ghost function Model(): Gui
      reads this, timerAgent, agent, frame
      requires Valid()
    {
      Observe(timerAgent)
    }

    /** Builds the window and starts the agent and the watchdog. */
    constructor ()
      ensures Valid() && Model() == Start
      ensures fresh(frame) && fresh(agent) && fresh(timerAgent)
    {
      var f := new Frame();
      var a := new Agent(f);
      frame := f;
      agent := a;
      timerAgent := new TimerAgent(a);
    }

    /** One pass of the agent's loop. */
    method AgentPass() returns (ran: bool)
      requires Valid()
      modifies agent, frame
      ensures Model() == Step(old(Model()), Action.AgentPass)
    {
      ran := agent.Iterate();
    }

    /** The up button: count up from now on. */
    method PressUp()
      requires Valid()
      modifies agent
      ensures Model() == Step(old(Model()), Action.PressUp)
    {
      if frame.controlsEnabled {
        agent.Increase();
      }
    }

    /** The down button: count down from now on. */
    method PressDown()
      requires Valid()
      modifies agent
      ensures Model() == Step(old(Model()), Action.PressDown)
    {
      if frame.controlsEnabled {
        agent.Decrease();
      }
    }

    /** The stop button: stop the agent, set the watchdog's latch, disable the buttons. */
    method PressStop()
      requires Valid()
      modifies agent, timerAgent, frame
      ensures Model() == Step(old(Model()), Action.PressStop)
    {
      if frame.controlsEnabled {
        agent.StopCounting();
        timerAgent.SetStopped();
        frame.DisableControls();
      }
    }
  }
}
