/**
 * The window surface itself: the object whose methods update the swap-chain
 * configuration, the window's fullscreen and minimized state, the frame clock
 * and the application slot in place. Each method is proved to do what the
 * matching function of `SurfaceSession` says of the state before the call,
 * and to record the same library calls in `trace`.
 */
module WindowSurfaces {
  import opened Platform
  import opened SurfaceSession
  import Setup

  class WindowSurface<!A> {
    var config: SurfaceConfig
    /** What `window.fullscreen()` reports. */
    var fullscreen: Option<Fullscreen>
    /** What `window.is_minimized()` reports. */
    var minimized: bool
    /** The application, checked out while its callbacks run. */
    var app: Option<A>
    /** The timestamp of the last rendered frame, as a count of rendered frames. */
    var lastFrame: nat
    const application: Application<A>
    /** The calls made into the window, GPU and overlay libraries, oldest first. */
    ghost var trace: seq<Op>

    function State(): Session<A>
      reads this
    {
      Session(config, fullscreen, minimized, app, lastFrame)
    }

    /**
     * The end of construction once the window and the GPU context exist:
     * the window is revealed, focused and its cursor confined, then the
     * application is built and checked in.
     */
    constructor (attributes: WindowAttributes, config: SurfaceConfig, application: Application<A>)
      ensures State() == Initial(attributes, config, application.initial)
      ensures this.application == application
      ensures trace == [CreateWindow(attributes), SetVisible(true), FocusWindow, ConfineCursor]
    {
      this.config := config;
      fullscreen := attributes.fullscreen;
      minimized := false;
      lastFrame := 0;
      this.application := application;
      trace := [CreateWindow(attributes), SetVisible(true), FocusWindow, ConfineCursor];
      app := None;
      new;
      app := Some(application.initial);
    }

    /**
     * `WindowSurface::new`: the window is created hidden with the attributes
     * the primary monitor calls for, the GPU context is negotiated, and only
     * then is the window revealed. A failure of either step is fatal.
     */
    static method New(startup: Setup.Startup, application: Application<A>) returns (r: Result<WindowSurface<A>, InitError>)
      ensures r.Failure? <==> Setup.Construct(startup).Failure?
      ensures r.Failure? ==> r.error == Setup.Construct(startup).error
      ensures r.Success? ==>
        var attributes := Setup.WindowAttributesFor(startup.primaryMonitor);
        && fresh(r.value)
        && r.value.application == application
        && r.value.State() == Initial(attributes, Setup.Construct(startup).value, application.initial)
        && r.value.trace == [CreateWindow(attributes), SetVisible(true), FocusWindow, ConfineCursor]
    {
      var attributes := Setup.WindowAttributesFor(startup.primaryMonitor);
      if !startup.windowCreated {
        return Failure(WindowCreationFailed);
      }
      var gpu := Setup.CreateWgpu(startup.gpu, startup.innerSize);
      if gpu.Failure? {
        return Failure(gpu.error);
      }
      var surface := new WindowSurface(attributes, gpu.value, application);
      return Success(surface);
    }

    /** `resize`: a zero-area request is ignored; otherwise the size is stored and the surface reconfigured. */
    method Resize(width: u32, height: u32)
      modifies this`config, this`trace
      ensures config == ResizedConfig(old(config), width, height)
      ensures trace == old(trace) + ResizeOps(old(config), width, height)
    {
      if width == 0 || height == 0 {
        return;
      }
      config := config.(width := width, height := height);
      trace := trace + [Configure(config)];
    }

    /**
     * The `get_current_texture` match of `render`: `Outdated` re-runs
     * `resize` with the current size, `Lost` reconfigures, and each retries once.
     */
    method AcquireFrameTexture(acquired: AcquireOutcome, reacquired: AcquireOutcome) returns (failure: Option<Panic>)
      modifies this`config, this`trace
      ensures var acquisition := AcquireTexture(old(config), acquired, reacquired);
        && config == old(config)
        && trace == old(trace) + acquisition.ops
        && failure == acquisition.failure
    {
      trace := trace + [Acquire(acquired)];
      match acquired {
        case Acquired =>
          failure := None;
        case Outdated =>
          Resize(config.width, config.height);
          trace := trace + [Acquire(reacquired)];
          failure := if reacquired == Acquired then None else Some(ReacquireAfterResizeFailed(reacquired));
        case Lost =>
          trace := trace + [Configure(config), Acquire(reacquired)];
          failure := if reacquired == Acquired then None else Some(ReacquireAfterReconfigureFailed(reacquired));
        case _ =>
          failure := Some(AcquireFailed(acquired));
      }
    }

    /** The part of `render` after the texture is acquired: the app is checked out, called, and checked back in. */
    method RecordCommands() returns (status: Status<FrameEnd>)
      modifies this`app, this`trace
      ensures var recording := RecordFrame(old(app), application);
        && app == recording.app
        && trace == old(trace) + recording.ops
        && status == recording.status
    {
      trace := trace + [CreateEncoder(EncoderLabel)];
      var taken := app;
      app := None;
      trace := trace + [CheckOut];
      if taken.None? {
        return Aborted(AppMissing);
      }
      trace := trace + [UiFrame];
      var current := application.ui(taken.value);
      trace := trace + [AppUi, AppRender];
      var rendered := application.render(current);
      trace := trace + AppPasses(rendered.passes);
      trace := trace + [PrepareRender, OverlayPass, OverlayDraw];
      app := Some(rendered.app);
      trace := trace + [CheckIn, Submit, Present];
      return Returned(Presented);
    }

    /** `render`: one frame, or nothing at all while the window is minimized. */
    method Render(acquired: AcquireOutcome, reacquired: AcquireOutcome) returns (status: Status<FrameEnd>)
      modifies this
      ensures var frame := Frame(old(State()), application, acquired, reacquired);
        && State() == frame.session
        && trace == old(trace) + frame.ops
        && status == frame.status
    {
      if minimized {
        return Returned(SkippedMinimized);
      }
      lastFrame := lastFrame + 1;
      trace := trace + [RequestRedraw];
      var failure := AcquireFrameTexture(acquired, reacquired);
      if failure.Some? {
        return Aborted(failure.value);
      }
      status := RecordCommands();
    }

    /** The F11 branch of `handle_event`. */
    method ToggleFullscreen(primary: Option<Monitor>)
      modifies this`config, this`fullscreen, this`trace
      ensures var toggled := SurfaceSession.ToggleFullscreen(old(State()), primary);
        State() == toggled.session && trace == old(trace) + toggled.ops
    {
      if fullscreen.Some? {
        fullscreen := None;
        trace := trace + [SetFullscreen(None)];
        trace := trace + [RequestInnerSize(Logical(Setup.FallbackWidth as nat, Setup.FallbackHeight as nat))];
        Resize(Setup.FallbackWidth, Setup.FallbackHeight);
      } else if primary.Some? && |primary.value.videoModes| > 0 {
        var mode := primary.value.videoModes[0];
        trace := trace + [RequestInnerSize(Physical(mode.size))];
        Resize(mode.size.width, mode.size.height);
        fullscreen := Some(Exclusive(mode));
        trace := trace + [SetFullscreen(fullscreen)];
      }
    }

    /** `handle_event`: the event's own effect, then the event is forwarded to the overlay. */
    method HandleEvent(event: WindowEvent, env: Environment) returns (status: Status<Result<(), HandlerError>>)
      modifies this
      ensures var step := SurfaceSession.HandleEvent(old(State()), application, event, env);
        && State() == step.session
        && trace == old(trace) + step.ops
        && status == step.status
    {
      match event {
        case CloseRequested =>
          trace := trace + [Exit];
        case Resized(width, height) =>
          Resize(width, height);
        case RedrawRequested =>
          var frame := Render(env.acquired, env.reacquired);
          if frame.Aborted? {
            return Aborted(frame.panic);
          }
        case Focused(focused) =>
          if fullscreen.Some? {
            minimized := !focused;
            trace := trace + [SetMinimized(!focused)];
          }
        case KeyboardInput(key, state, _) =>
          if key == F11 && state == Pressed {
            ToggleFullscreen(env.primaryMonitor);
          }
        case OtherEvent(_) =>
      }
      trace := trace + [ForwardToOverlay(event)];
      return Returned(Success(()));
    }
  }
}
