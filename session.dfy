/**
 * The session state machine of a window surface, as functions of a snapshot
 * of its state: what `resize`, `render`, the fullscreen toggle and
 * `handle_event` do to the state, which library calls they make, and in
 * which order.
 */
module SurfaceSession {
  import opened Platform
  import Setup

  /** The fields of the window surface that its methods read and update. */
  datatype Session<A> = Session(
    config: SurfaceConfig,
    fullscreen: Option<Fullscreen>,
    minimized: bool,
    app: Option<A>,
    lastFrame: nat)

  /** What the application's render callback leaves behind: its new state and the passes it opened. */
  datatype Rendered<A> = Rendered(app: A, passes: seq<RenderPassDesc>)

  /**
   * The application: the state `Application::new` builds once the surface is
   * ready, and its per-frame callbacks `Application::ui` and `Application::render`.
   */
  datatype Application<!A> = Application(initial: A, ui: A -> A, render: A -> Rendered<A>)

  /** What the event loop and the surface answer while one event is handled. */
  datatype Environment = Environment(
    primaryMonitor: Option<Monitor>,
    acquired: AcquireOutcome,
    reacquired: AcquireOutcome)

  datatype FrameEnd = Presented | SkippedMinimized

  datatype HandlerError = HandlerError(message: string)

  /** The state after a call, the library calls it made, and how it ended. */
  datatype Step<A, T> = Step(session: Session<A>, ops: seq<Op>, status: Status<T>)

  /** A state change that cannot panic. */
  datatype Transition<A> = Transition(session: Session<A>, ops: seq<Op>)

  const EncoderLabel := "Render Encoder"

  /** The overlay's own pass: it loads what the application drew instead of clearing it. */
  const OverlayPass := BeginPass(Some("Imgui Render Pass"), Load)

  /** The state right after construction: the window's fullscreen attribute, not minimized, the app checked in. */
  function Initial<A>(attributes: WindowAttributes, config: SurfaceConfig, app: A): Session<A>
  {
    Session(config, attributes.fullscreen, false, Some(app), 0)
  }

  /** The configuration after `resize(width, height)`: a zero-area request keeps the old one. */
  function ResizedConfig(config: SurfaceConfig, width: u32, height: u32): (r: SurfaceConfig)
    ensures width == 0 || height == 0 ==> r == config
    ensures width != 0 && height != 0 ==> r.width == width && r.height == height
    ensures r.format == config.format && r.presentMode == config.presentMode
    ensures r.alphaMode == config.alphaMode && r.maxFrameLatency == config.maxFrameLatency
  {
    if width == 0 || height == 0 then config else config.(width := width, height := height)
  }

  /** The calls `resize(width, height)` makes: one reconfigure with the new size, or none. */
  function ResizeOps(config: SurfaceConfig, width: u32, height: u32): (r: seq<Op>)
    ensures r == [] <==> width == 0 || height == 0
    ensures r != [] ==> r == [Configure(ResizedConfig(config, width, height))]
  {
    if width == 0 || height == 0 then [] else [Configure(config.(width := width, height := height))]
  }

  /** The two surface errors that are recovered from by one reconfigure and one retry. */
  predicate Recoverable(outcome: AcquireOutcome)
  {
    outcome == Outdated || outcome == Lost
  }

  /** The calls made to obtain a texture, and the panic they end in if none is obtained. */
  datatype Acquisition = Acquisition(ops: seq<Op>, failure: Option<Panic>)

  /**
   * Texture acquisition: `Outdated` re-runs `resize` with the current size,
   * `Lost` reconfigures unconditionally; either retries once, and a failed
   * retry or any other error panics.
   */
  function AcquireTexture(config: SurfaceConfig, first: AcquireOutcome, retry: AcquireOutcome): Acquisition
  {
    match first
    case Acquired => Acquisition([Acquire(Acquired)], None)
    case Outdated =>
      Acquisition(
        [Acquire(Outdated)] + ResizeOps(config, config.width, config.height) + [Acquire(retry)],
        if retry == Acquired then None else Some(ReacquireAfterResizeFailed(retry)))
    case Lost =>
      Acquisition(
        [Acquire(Lost), Configure(config), Acquire(retry)],
        if retry == Acquired then None else Some(ReacquireAfterReconfigureFailed(retry)))
    case _ => Acquisition([Acquire(first)], Some(AcquireFailed(first)))
  }

  /** `RenderContext::render_pass`: every pass the application opens clears to its colour. */
  function RenderPass(desc: RenderPassDesc): Op
  {
    BeginPass(desc.name, Clear(desc.clearColor))
  }

  /** The passes the application opens, in the order it opens them. */
  function AppPasses(passes: seq<RenderPassDesc>): seq<Op>
  {
    if passes == [] then [] else [RenderPass(passes[0])] + AppPasses(passes[1..])
  }

  /** What happens between acquiring the texture and presenting it: the calls, the app slot afterwards, the outcome. */
  datatype Recording<A> = Recording(ops: seq<Op>, app: Option<A>, status: Status<FrameEnd>)

  /**
   * Command recording for one frame: the encoder is created and the app is
   * checked out (which panics if it is absent); the overlay frame begins, the
   * app builds its UI and draws its own passes, the overlay pass is appended,
   * the app is checked back in, and the one command buffer is submitted and
   * the texture presented.
   */
  function RecordFrame<A>(slot: Option<A>, application: Application<A>): Recording<A>
  {
    var started := [CreateEncoder(EncoderLabel), CheckOut];
    match slot
    case None => Recording(started, None, Aborted(AppMissing))
    case Some(app) =>
      var rendered := application.render(application.ui(app));
      Recording(
        started + [UiFrame, AppUi, AppRender] + AppPasses(rendered.passes)
          + [PrepareRender, OverlayPass, OverlayDraw, CheckIn, Submit, Present],
        Some(rendered.app),
        Returned(Presented))
  }

  /**
   * One call of `render`: skipped while minimized; otherwise the frame
   * clock advances, a redraw is requested, a texture is acquired, and the
   * frame is recorded, submitted and presented.
   */
  function Frame<A>(s: Session<A>, application: Application<A>, acquired: AcquireOutcome, reacquired: AcquireOutcome)
    : Step<A, FrameEnd>
  {
    if s.minimized then Step(s, [], Returned(SkippedMinimized))
    else
      var timed := s.(lastFrame := s.lastFrame + 1);
      var acquisition := AcquireTexture(s.config, acquired, reacquired);
      var acquiring := [RequestRedraw] + acquisition.ops;
      if acquisition.failure.Some? then Step(timed, acquiring, Aborted(acquisition.failure.value))
      else
        var recording := RecordFrame(s.app, application);
        Step(timed.(app := recording.app), acquiring + recording.ops, recording.status)
  }

  /**
   * The F11 toggle: leaving fullscreen restores the fixed fallback size;
   * entering it uses the first video mode of the primary monitor; without a
   * monitor or a mode nothing happens.
   */
  function ToggleFullscreen<A>(s: Session<A>, primary: Option<Monitor>): Transition<A>
  {
    if s.fullscreen.Some? then
      Transition(
        s.(fullscreen := None, config := ResizedConfig(s.config, Setup.FallbackWidth, Setup.FallbackHeight)),
        [SetFullscreen(None), RequestInnerSize(Logical(Setup.FallbackWidth as nat, Setup.FallbackHeight as nat))]
          + ResizeOps(s.config, Setup.FallbackWidth, Setup.FallbackHeight))
    else if primary.Some? && |primary.value.videoModes| > 0 then
      var mode := primary.value.videoModes[0];
      Transition(
        s.(config := ResizedConfig(s.config, mode.size.width, mode.size.height), fullscreen := Some(Exclusive(mode))),
        [RequestInnerSize(Physical(mode.size))]
          + ResizeOps(s.config, mode.size.width, mode.size.height)
          + [SetFullscreen(Some(Exclusive(mode)))])
    else
      Transition(s, [])
  }

  /** `true` for the key event that toggles fullscreen: F11 pressed (repeats included). */
  predicate TogglesFullscreen(event: WindowEvent)
  {
    event.KeyboardInput? && event.key == F11 && event.state == Pressed
  }

  /**
   * One call of `handle_event`: the event's own effect, then the event is
   * forwarded to the overlay, and `Ok(())` is returned; only a frame can panic.
   */
  function HandleEvent<A>(s: Session<A>, application: Application<A>, event: WindowEvent, env: Environment)
    : Step<A, Result<(), HandlerError>>
  {
    var forward := [ForwardToOverlay(event)];
    var ok := Returned(Success(()));
    match event
    case CloseRequested => Step(s, [Exit] + forward, ok)
    case Resized(width, height) =>
      Step(s.(config := ResizedConfig(s.config, width, height)), ResizeOps(s.config, width, height) + forward, ok)
    case RedrawRequested =>
      var frame := Frame(s, application, env.acquired, env.reacquired);
      if frame.status.Aborted? then Step(frame.session, frame.ops, Aborted(frame.status.panic))
      else Step(frame.session, frame.ops + forward, ok)
    case Focused(focused) =>
      if s.fullscreen.Some? then Step(s.(minimized := !focused), [SetMinimized(!focused)] + forward, ok)
      else Step(s, forward, ok)
    case KeyboardInput(_, _, _) =>
      if TogglesFullscreen(event) then
        var toggled := ToggleFullscreen(s, env.primaryMonitor);
        Step(toggled.session, toggled.ops + forward, ok)
      else Step(s, forward, ok)
    case OtherEvent(_) => Step(s, forward, ok)
  }

  /** One event delivered to the surface, with what the platform answers while it is handled. */
  datatype Delivery = Delivery(event: WindowEvent, env: Environment)

  /**
   * The events the event loop delivers through `window_event`, handled in
   * turn; a panic ends the run, and with it the process.
   */
  function Run<A>(s: Session<A>, application: Application<A>, deliveries: seq<Delivery>): Step<A, ()>
    decreases |deliveries|
  {
    if |deliveries| == 0 then Step(s, [], Returned(()))
    else
      var step := HandleEvent(s, application, deliveries[0].event, deliveries[0].env);
      if step.status.Aborted? then Step(step.session, step.ops, Aborted(step.status.panic))
      else
        var rest := Run(step.session, application, deliveries[1..]);
        Step(rest.session, step.ops + rest.ops, rest.status)
  }
}
