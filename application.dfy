/**
 * The event-loop handler that owns the window surface: the surface is
 * created lazily on the first resume and at most once, and window events are
 * dispatched to it only once it exists.
 */
module Applications {
  import opened Platform
  import opened SurfaceSession
  import opened WindowSurfaces
  import Setup

  class ApplicationWrapper<!A> {
    var windowSurface: Option<WindowSurface<A>>
    const application: Application<A>

    /** The handler `run_app` hands to the event loop: no surface yet. */
    constructor (application: Application<A>)
      ensures windowSurface == None && this.application == application
    {
      windowSurface := None;
      this.application := application;
    }

    /** `resumed`: create the surface if there is none yet; a construction failure panics. */
    method Resumed(startup: Setup.Startup) returns (status: Status<()>)
      modifies this
      ensures old(windowSurface).Some? ==> windowSurface == old(windowSurface) && status == Returned(())
      ensures old(windowSurface).None? && Setup.Construct(startup).Failure? ==>
        windowSurface == None && status == Aborted(InitFailed(Setup.Construct(startup).error))
      ensures old(windowSurface).None? && Setup.Construct(startup).Success? ==>
        var attributes := Setup.WindowAttributesFor(startup.primaryMonitor);
        && status == Returned(())
        && windowSurface.Some? && fresh(windowSurface.value)
        && windowSurface.value.application == application
        && windowSurface.value.State() == Initial(attributes, Setup.Construct(startup).value, application.initial)
        && windowSurface.value.trace == [CreateWindow(attributes), SetVisible(true), FocusWindow, ConfineCursor]
    {
      if windowSurface.Some? {
        return Returned(());
      }
      var created := WindowSurface.New(startup, application);
      if created.Failure? {
        return Aborted(InitFailed(created.error));
      }
      windowSurface := Some(created.value);
      return Returned(());
    }

    /**
     * `window_event`: with a surface, the event goes to `handle_event` once,
     * and an error it returns is logged and dropped; without one, nothing happens.
     */
    method WindowEvent(event: Platform.WindowEvent, env: Environment) returns (status: Status<()>)
      modifies if windowSurface.Some? then {windowSurface.value} else {}
      ensures windowSurface == old(windowSurface)
      ensures windowSurface.None? ==> status == Returned(())
      ensures windowSurface.Some? ==>
        var surface := windowSurface.value;
        var step := SurfaceSession.HandleEvent(old(surface.State()), surface.application, event, env);
        && surface.State() == step.session
        && surface.trace == old(surface.trace) + step.ops
        && status == (if step.status.Aborted? then Aborted(step.status.panic) else Returned(()))
    {
      if windowSurface.Some? {
        var handled := windowSurface.value.HandleEvent(event, env);
        match handled {
          case Returned(Success(_)) =>
          case Returned(Failure(_)) =>
          case Aborted(panic) =>
            return Aborted(panic);
        }
      }
      return Returned(());
    }
  }
}
