/**
 * The second reactive GUI: the counter agent alone. The stop button stops the
 * agent and disables the stop, up and down buttons; up and down set the
 * agent's direction. Disabled buttons raise no action events.
 */
module ConcurrentGui {
  import opened CounterAgent

  class ConcurrentGuiWindow {
    const frame: Frame
    const agent: Agent

    ghost predicate Valid()
    {
      agent.frame == frame
    }

    /** Builds the window and starts the agent. */
    constructor ()
      ensures Valid() && fresh(frame) && fresh(agent)
      ensures agent.State() == Initial && frame.controlsEnabled && frame.events == []
    {
      var f := new Frame();
      frame := f;
      agent := new Agent(f);
    }

    /** The stop button: stop the agent, then disable the buttons. */
    method PressStop()
      requires Valid()
      modifies agent, frame
      ensures old(frame.controlsEnabled) ==>
                agent.State() == old(agent.State()).(stop := true)
                && !frame.controlsEnabled && frame.events == old(frame.events) + [ControlsDisabled]
      ensures !old(frame.controlsEnabled) ==>
                agent.State() == old(agent.State()) && !frame.controlsEnabled && frame.events == old(frame.events)
    {
      if frame.controlsEnabled {
        agent.StopCounting();
        frame.DisableControls();
      }
    }

    /** The up button: count up from now on, while the buttons are enabled. */
    method PressUp()
      requires Valid()
      modifies agent
      ensures agent.State() == if frame.controlsEnabled then Next(old(agent.State()), Increase) else old(agent.State())
    {
      if frame.controlsEnabled {
        agent.Increase();
      }
    }

    /** The down button: count down from now on, while the buttons are enabled. */
    method PressDown()
      requires Valid()
      modifies agent
      ensures agent.State() == if frame.controlsEnabled then Next(old(agent.State()), Decrease) else old(agent.State())
    {
      if frame.controlsEnabled {
        agent.Decrease();
      }
    }
  }
}
