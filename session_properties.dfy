/**
 * What the session promises, stated over the traces of library calls and
 * the states that the functions of `SurfaceSession` produce.
 */
module SurfaceProperties {
  import opened Platform
  import opened SurfaceSession
  import Setup

  /** The outcomes of the `get_current_texture` calls in a trace, oldest first. */
  function Acquisitions(ops: seq<Op>): seq<AcquireOutcome>
  {
    if |ops| == 0 then []
    else (if ops[0].Acquire? then [ops[0].outcome] else []) + Acquisitions(ops[1..])
  }

  /** The configurations the surface is reconfigured with in a trace, oldest first. */
  function Configurations(ops: seq<Op>): seq<SurfaceConfig>
  {
    if |ops| == 0 then []
    else (if ops[0].Configure? then [ops[0].config] else []) + Configurations(ops[1..])
  }

  lemma {:induction false} AcquisitionsAppend(a: seq<Op>, b: seq<Op>)
    ensures Acquisitions(a + b) == Acquisitions(a) + Acquisitions(b)
  {
    if |a| == 0 {
      assert a + b == b;
    } else {
      assert (a + b)[0] == a[0];
      assert (a + b)[1..] == a[1..] + b;
      AcquisitionsAppend(a[1..], b);
    }
  }

  lemma {:induction false} ConfigurationsAppend(a: seq<Op>, b: seq<Op>)
    ensures Configurations(a + b) == Configurations(a) + Configurations(b)
  {
    if |a| == 0 {
      assert a + b == b;
    } else {
      assert (a + b)[0] == a[0];
      assert (a + b)[1..] == a[1..] + b;
      ConfigurationsAppend(a[1..], b);
    }
  }

  /** A trace without acquisitions or reconfigurations projects to nothing. */
  lemma {:induction false} ProjectionsAbsent(ops: seq<Op>)
    requires forall j :: 0 <= j < |ops| ==> !ops[j].Acquire? && !ops[j].Configure?
    ensures Acquisitions(ops) == [] && Configurations(ops) == []
  {
    if |ops| > 0 {
      ProjectionsAbsent(ops[1..]);
    }
  }

  /** `resize` reconfigures exactly once, with the new size, unless the request has zero area. */
  lemma ResizeCalls(config: SurfaceConfig, width: u32, height: u32)
    ensures var ops := ResizeOps(config, width, height);
      && Acquisitions(ops) == []
      && Configurations(ops) == (if width == 0 || height == 0 then [] else [ResizedConfig(config, width, height)])
  {
  }

  /** Resizing to the size already configured, as the `Outdated` recovery does, changes nothing. */
  lemma ResizeToCurrentSize(config: SurfaceConfig)
    ensures ResizedConfig(config, config.width, config.height) == config
  {
  }

  /** Every pass the application opens through its render context clears, in the order it asks for. */
  lemma {:induction false} AppPassesClear(passes: seq<RenderPassDesc>)
    ensures |AppPasses(passes)| == |passes|
    ensures forall i :: 0 <= i < |passes| ==>
      AppPasses(passes)[i] == BeginPass(passes[i].name, Clear(passes[i].clearColor))
  {
    if passes != [] {
      AppPassesClear(passes[1..]);
      assert forall i :: 1 <= i < |passes| ==> AppPasses(passes)[i] == AppPasses(passes[1..])[i - 1];
    }
  }

  /** `true` when a texture is eventually obtained: at once, or on the one retry after a recoverable error. */
  predicate Obtains(first: AcquireOutcome, retry: AcquireOutcome)
  {
    first == Acquired || (Recoverable(first) && retry == Acquired)
  }

  /**
   * The bounded recovery: a recoverable error leads to exactly two
   * acquisitions and anything else to one; `Lost` reconfigures
   * unconditionally and `Outdated` only when the current size is non-zero,
   * both with the current configuration; a texture is obtained only at once
   * or on the retry.
   */
  lemma AcquireTextureCalls(config: SurfaceConfig, first: AcquireOutcome, retry: AcquireOutcome)
    ensures var acquisition := AcquireTexture(config, first, retry);
      && Acquisitions(acquisition.ops) == (if Recoverable(first) then [first, retry] else [first])
      && Configurations(acquisition.ops) ==
         (if first == Lost || (first == Outdated && config.width != 0 && config.height != 0) then [config] else [])
      && (acquisition.failure.None? <==> Obtains(first, retry))
      && SurfaceCallsOnly(acquisition.ops)
  {
    AcquireTextureShape(config, first, retry);
    match first {
      case Acquired =>
        Projections1(Acquire(Acquired));
      case Outdated =>
        OutdatedCalls(config, retry);
      case Lost =>
        LostCalls(config, retry);
      case _ =>
        Projections1(Acquire(first));
    }
  }

  /** Every call among `ops` acquires a texture or configures the surface. */
  predicate SurfaceCallsOnly(ops: seq<Op>)
  {
    forall j :: 0 <= j < |ops| ==> ops[j].Acquire? || ops[j].Configure?
  }

  /** Texture acquisition makes only acquisition and configuration calls. */
  lemma AcquireTextureShape(config: SurfaceConfig, first: AcquireOutcome, retry: AcquireOutcome)
    ensures SurfaceCallsOnly(AcquireTexture(config, first, retry).ops)
  {
    if first == Outdated {
      var resize := ResizeOps(config, config.width, config.height);
      var ops := [Acquire(Outdated)] + resize + [Acquire(retry)];
      assert forall j :: 1 <= j < |ops| - 1 ==> ops[j] == resize[j - 1];
    }
  }

  /** The `Outdated` recovery: the failed call, a resize to the current size, and the retry. */
  lemma OutdatedCalls(config: SurfaceConfig, retry: AcquireOutcome)
    ensures var ops := AcquireTexture(config, Outdated, retry).ops;
      && Acquisitions(ops) == [Outdated, retry]
      && Configurations(ops) == (if config.width != 0 && config.height != 0 then [config] else [])
      && SurfaceCallsOnly(ops)
  {
    AcquireTextureShape(config, Outdated, retry);
    OutdatedProjections(config, retry);
  }

  lemma OutdatedProjections(config: SurfaceConfig, retry: AcquireOutcome)
    ensures var ops := [Acquire(Outdated)] + ResizeOps(config, config.width, config.height) + [Acquire(retry)];
      && Acquisitions(ops) == [Outdated, retry]
      && Configurations(ops) == (if config.width != 0 && config.height != 0 then [config] else [])
  {
    var resize := ResizeOps(config, config.width, config.height);
    ResizeCalls(config, config.width, config.height);
    Projections1(Acquire(Outdated));
    Projections1(Acquire(retry));
    AcquisitionsAppend([Acquire(Outdated)], resize);
    AcquisitionsAppend([Acquire(Outdated)] + resize, [Acquire(retry)]);
    ConfigurationsAppend([Acquire(Outdated)], resize);
    ConfigurationsAppend([Acquire(Outdated)] + resize, [Acquire(retry)]);
  }

  /** The `Lost` recovery: the failed call, a reconfiguration with the current configuration, and the retry. */
  lemma LostCalls(config: SurfaceConfig, retry: AcquireOutcome)
    ensures var ops := AcquireTexture(config, Lost, retry).ops;
      Acquisitions(ops) == [Lost, retry] && Configurations(ops) == [config]
  {
    Projections1(Acquire(Lost));
    Projections1(Configure(config));
    Projections1(Acquire(retry));
    AcquisitionsAppend([Acquire(Lost)], [Configure(config)]);
    AcquisitionsAppend([Acquire(Lost), Configure(config)], [Acquire(retry)]);
    ConfigurationsAppend([Acquire(Lost)], [Configure(config)]);
    ConfigurationsAppend([Acquire(Lost), Configure(config)], [Acquire(retry)]);
  }

  /** The projections of a single call. */
  lemma Projections1(op: Op)
    ensures Acquisitions([op]) == (if op.Acquire? then [op.outcome] else [])
    ensures Configurations([op]) == (if op.Configure? then [op.config] else [])
  {
    assert [op][1..] == [];
  }

  /** Command recording makes no acquisition, no reconfiguration and forwards no event. */
  lemma RecordFrameCalls<A>(slot: Option<A>, application: Application<A>)
    ensures var ops := RecordFrame(slot, application).ops;
      forall j :: 0 <= j < |ops| ==> !ops[j].Acquire? && !ops[j].Configure? && !ops[j].ForwardToOverlay?
  {
    if slot.Some? {
      AppPassesClear(application.render(application.ui(slot.value)).passes);
    }
  }

  /** A frame, unless skipped, acquires exactly once, or twice after a recoverable error. */
  lemma FrameAcquisitions<A>(s: Session<A>, application: Application<A>, acquired: AcquireOutcome, reacquired: AcquireOutcome)
    ensures Acquisitions(Frame(s, application, acquired, reacquired).ops) ==
      if s.minimized then [] else if Recoverable(acquired) then [acquired, reacquired] else [acquired]
    ensures |Acquisitions(Frame(s, application, acquired, reacquired).ops)| <= 2
  {
    if !s.minimized {
      FrameProjections(s, application, acquired, reacquired);
      AcquireTextureCalls(s.config, acquired, reacquired);
    }
  }

  /** A frame reconfigures only to recover from `Lost` or `Outdated`, always with the configuration it had. */
  lemma FrameConfigurations<A>(s: Session<A>, application: Application<A>, acquired: AcquireOutcome, reacquired: AcquireOutcome)
    ensures Configurations(Frame(s, application, acquired, reacquired).ops) ==
      if s.minimized then []
      else if acquired == Lost || (acquired == Outdated && s.config.width != 0 && s.config.height != 0) then [s.config]
      else []
  {
    if !s.minimized {
      FrameProjections(s, application, acquired, reacquired);
      AcquireTextureCalls(s.config, acquired, reacquired);
    }
  }

  lemma FrameProjections<A>(s: Session<A>, application: Application<A>, acquired: AcquireOutcome, reacquired: AcquireOutcome)
    requires !s.minimized
    ensures var acquisition := AcquireTexture(s.config, acquired, reacquired);
      var ops := Frame(s, application, acquired, reacquired).ops;
      Acquisitions(ops) == Acquisitions(acquisition.ops) && Configurations(ops) == Configurations(acquisition.ops)
  {
    var acquisition := AcquireTexture(s.config, acquired, reacquired);
    AcquisitionsAppend([RequestRedraw], acquisition.ops);
    ConfigurationsAppend([RequestRedraw], acquisition.ops);
    if acquisition.failure.None? {
      var recording := RecordFrame(s.app, application);
      RecordFrameCalls(s.app, application);
      ProjectionsAbsent(recording.ops);
      AcquisitionsAppend([RequestRedraw] + acquisition.ops, recording.ops);
      ConfigurationsAppend([RequestRedraw] + acquisition.ops, recording.ops);
    }
  }

  /**
   * How a frame ends: skipped exactly when minimized; presented exactly when
   * a texture is obtained and the app is checked in; otherwise it panics, with
   * the reason that names the failed step.
   */
  lemma FrameOutcome<A>(s: Session<A>, application: Application<A>, acquired: AcquireOutcome, reacquired: AcquireOutcome)
    ensures var status := Frame(s, application, acquired, reacquired).status;
      && (status == Returned(SkippedMinimized) <==> s.minimized)
      && (status == Returned(Presented) <==> !s.minimized && Obtains(acquired, reacquired) && s.app.Some?)
      && (status == Aborted(AppMissing) <==> !s.minimized && Obtains(acquired, reacquired) && s.app.None?)
      && (!s.minimized && !Recoverable(acquired) && acquired != Acquired ==> status == Aborted(AcquireFailed(acquired)))
      && (!s.minimized && acquired == Outdated && reacquired != Acquired ==>
            status == Aborted(ReacquireAfterResizeFailed(reacquired)))
      && (!s.minimized && acquired == Lost && reacquired != Acquired ==>
            status == Aborted(ReacquireAfterReconfigureFailed(reacquired)))
  {
    AcquireTextureCalls(s.config, acquired, reacquired);
  }

  /**
   * A frame leaves the configuration and the window state alone, advances
   * the frame clock exactly when it is not skipped, does nothing at all when
   * skipped, and leaves the app checked in exactly when it is presented.
   */
  lemma FrameKeepsWindowState<A>(s: Session<A>, application: Application<A>, acquired: AcquireOutcome, reacquired: AcquireOutcome)
    ensures var frame := Frame(s, application, acquired, reacquired);
      && frame.session.config == s.config
      && frame.session.fullscreen == s.fullscreen
      && frame.session.minimized == s.minimized
      && frame.session.lastFrame == (if s.minimized then s.lastFrame else s.lastFrame + 1)
      && (s.minimized ==> frame.session == s && frame.ops == [])
      && (frame.status == Returned(Presented) ==>
            frame.session.app == Some(application.render(application.ui(s.app.value)).app))
      && (frame.status != Returned(Presented) ==> frame.session.app == s.app)
  {
  }

  /**
   * The order of the calls of a presented frame: the app is checked out
   * just before the overlay frame begins; then come the app's UI and its render
   * call, each exactly once, and the passes it opens, all clearing; then the single overlay pass,
   * which loads; the app is checked back in after it; and the trace ends with
   * the single submit and the single present.
   */
  predicate FrameOrder(ops: seq<Op>, ui: int, overlay: int, checkIn: int)
  {
    FramePositions(ops, ui, overlay, checkIn) && FrameSingles(ops, ui, overlay, checkIn)
  }

  /** Where the phases of a frame sit, and which of its passes clear. */
  predicate FramePositions(ops: seq<Op>, ui: int, overlay: int, checkIn: int)
  {
    && 1 <= ui && ui + 2 < overlay < checkIn < |ops| - 2
    && ops[ui - 1] == CheckOut && ops[ui] == UiFrame && ops[ui + 1] == AppUi && ops[ui + 2] == AppRender
    && ops[overlay] == OverlayPass && ops[checkIn] == CheckIn
    && ops[|ops| - 2] == Submit && ops[|ops| - 1] == Present
    && (forall j :: 0 <= j < |ops| && ops[j].BeginPass? ==> j == overlay || (ui + 2 < j < overlay && ops[j].load.Clear?))
  }

  /** Each slot marker, callback, submit and present of a frame occurs once, at its position. */
  predicate FrameSingles(ops: seq<Op>, ui: int, overlay: int, checkIn: int)
  {
    && (forall j :: 0 <= j < |ops| - 2 ==> ops[j] != Submit && ops[j] != Present)
    && (forall j :: 0 <= j < |ops| && ops[j] == CheckOut ==> j == ui - 1)
    && (forall j :: 0 <= j < |ops| && ops[j] == CheckIn ==> j == checkIn)
    && (forall j :: 0 <= j < |ops| && ops[j] == UiFrame ==> j == ui)
    && (forall j :: 0 <= j < |ops| && ops[j] == AppUi ==> j == ui + 1)
    && (forall j :: 0 <= j < |ops| && ops[j] == AppRender ==> j == ui + 2)
  }

  /** A call that may come before the checkout: no pass, no slot marker, no callback, no submit or present. */
  predicate BeforeCheckOut(op: Op)
  {
    && !op.BeginPass? && op != CheckOut && op != CheckIn && op != Submit && op != Present
    && op != UiFrame && op != AppUi && op != AppRender
  }

  /** The layout of a presented frame's calls satisfies `FrameOrder`, whatever came before the checkout. */
  lemma FrameLayoutOrder(head: seq<Op>, passes: seq<Op>)
    requires |head| >= 1 && head[|head| - 1] == CheckOut
    requires forall j :: 0 <= j < |head| - 1 ==> BeforeCheckOut(head[j])
    requires forall j :: 0 <= j < |passes| ==> passes[j].BeginPass? && passes[j].load.Clear?
    ensures FrameOrder(
      head + [UiFrame, AppUi, AppRender] + passes + [PrepareRender, OverlayPass, OverlayDraw, CheckIn, Submit, Present],
      |head|, |head| + 4 + |passes|, |head| + 6 + |passes|)
  {
    FrameLayoutPositions(head, passes);
    FrameLayoutSingles(head, passes);
  }

  lemma FrameLayoutPositions(head: seq<Op>, passes: seq<Op>)
    requires |head| >= 1 && head[|head| - 1] == CheckOut
    requires forall j :: 0 <= j < |head| - 1 ==> BeforeCheckOut(head[j])
    requires forall j :: 0 <= j < |passes| ==> passes[j].BeginPass? && passes[j].load.Clear?
    ensures FramePositions(
      head + [UiFrame, AppUi, AppRender] + passes + [PrepareRender, OverlayPass, OverlayDraw, CheckIn, Submit, Present],
      |head|, |head| + 4 + |passes|, |head| + 6 + |passes|)
  {
    var ui, p := |head|, |passes|;
    var ops := head + [UiFrame, AppUi, AppRender] + passes + [PrepareRender, OverlayPass, OverlayDraw, CheckIn, Submit, Present];
    FrameLayoutIndex(head, passes);
    assert forall j :: 0 <= j < |ops| && ops[j].BeginPass? ==> j == ui + 4 + p || (ui + 2 < j < ui + 4 + p && ops[j].load.Clear?);
  }

  lemma FrameLayoutSingles(head: seq<Op>, passes: seq<Op>)
    requires |head| >= 1 && head[|head| - 1] == CheckOut
    requires forall j :: 0 <= j < |head| - 1 ==> BeforeCheckOut(head[j])
    requires forall j :: 0 <= j < |passes| ==> passes[j].BeginPass? && passes[j].load.Clear?
    ensures FrameSingles(
      head + [UiFrame, AppUi, AppRender] + passes + [PrepareRender, OverlayPass, OverlayDraw, CheckIn, Submit, Present],
      |head|, |head| + 4 + |passes|, |head| + 6 + |passes|)
  {
    var ui, p := |head|, |passes|;
    var ops := head + [UiFrame, AppUi, AppRender] + passes + [PrepareRender, OverlayPass, OverlayDraw, CheckIn, Submit, Present];
    FrameLayoutIndex(head, passes);
    assert forall j :: 0 <= j < |ops| - 2 ==> ops[j] != Submit && ops[j] != Present;
    assert forall j :: 0 <= j < |ops| && ops[j] == CheckOut ==> j == ui - 1;
    assert forall j :: 0 <= j < |ops| && ops[j] == CheckIn ==> j == ui + 6 + p;
    assert forall j :: 0 <= j < |ops| && ops[j] == UiFrame ==> j == ui;
    assert forall j :: 0 <= j < |ops| && ops[j] == AppUi ==> j == ui + 1;
    assert forall j :: 0 <= j < |ops| && ops[j] == AppRender ==> j == ui + 2;
  }

  /** Where each segment of a presented frame's calls sits. */
  lemma FrameLayoutIndex(head: seq<Op>, passes: seq<Op>)
    ensures var ui, p := |head|, |passes|;
      var middle := [UiFrame, AppUi, AppRender];
      var tail := [PrepareRender, OverlayPass, OverlayDraw, CheckIn, Submit, Present];
      var ops := head + middle + passes + tail;
      && |ops| == ui + 9 + p
      && (forall j :: 0 <= j < ui ==> ops[j] == head[j])
      && (forall j :: ui <= j < ui + 3 ==> ops[j] == middle[j - ui])
      && (forall j :: ui + 3 <= j < ui + 3 + p ==> ops[j] == passes[j - ui - 3])
      && (forall j :: ui + 3 + p <= j < |ops| ==> ops[j] == tail[j - ui - 3 - p])
  {
  }

  /** The calls of a presented frame, laid out by phase. */
  lemma PresentedFrameOps<A>(s: Session<A>, application: Application<A>, acquired: AcquireOutcome, reacquired: AcquireOutcome)
    requires Frame(s, application, acquired, reacquired).status == Returned(Presented)
    ensures s.app.Some?
    ensures Frame(s, application, acquired, reacquired).ops ==
      ([RequestRedraw] + AcquireTexture(s.config, acquired, reacquired).ops + [CreateEncoder(EncoderLabel), CheckOut])
      + [UiFrame, AppUi, AppRender] + AppPasses(application.render(application.ui(s.app.value)).passes)
      + [PrepareRender, OverlayPass, OverlayDraw, CheckIn, Submit, Present]
  {
  }

  /** The calls before the checkout open no pass, check nothing in or out, and submit nothing. */
  lemma AcquiringHead(config: SurfaceConfig, acquired: AcquireOutcome, reacquired: AcquireOutcome)
    ensures var head := [RequestRedraw] + AcquireTexture(config, acquired, reacquired).ops + [CreateEncoder(EncoderLabel), CheckOut];
      && head[|head| - 1] == CheckOut
      && forall j :: 0 <= j < |head| - 1 ==> BeforeCheckOut(head[j])
  {
    AcquireTextureShape(config, acquired, reacquired);
    HeadLayout(AcquireTexture(config, acquired, reacquired).ops);
  }

  lemma HeadLayout(calls: seq<Op>)
    requires SurfaceCallsOnly(calls)
    ensures var head := [RequestRedraw] + calls + [CreateEncoder(EncoderLabel), CheckOut];
      && head[|head| - 1] == CheckOut
      && forall j :: 0 <= j < |head| - 1 ==> BeforeCheckOut(head[j])
  {
    var head := [RequestRedraw] + calls + [CreateEncoder(EncoderLabel), CheckOut];
    assert head[0] == RequestRedraw;
    assert head[|head| - 2] == CreateEncoder(EncoderLabel);
    assert forall j :: 1 <= j < |head| - 2 ==> head[j] == calls[j - 1];
  }

  lemma PresentedFrameOrder<A>(s: Session<A>, application: Application<A>, acquired: AcquireOutcome, reacquired: AcquireOutcome)
    requires Frame(s, application, acquired, reacquired).status == Returned(Presented)
    ensures exists ui, overlay, checkIn :: FrameOrder(Frame(s, application, acquired, reacquired).ops, ui, overlay, checkIn)
  {
    PresentedFrameOps(s, application, acquired, reacquired);
    var head := [RequestRedraw] + AcquireTexture(s.config, acquired, reacquired).ops + [CreateEncoder(EncoderLabel), CheckOut];
    var rendered := application.render(application.ui(s.app.value));
    var passes := AppPasses(rendered.passes);
    AppPassesClear(rendered.passes);
    AcquiringHead(s.config, acquired, reacquired);
    FrameLayoutOrder(head, passes);
  }

  /** A frame that is not presented submits nothing, presents nothing and draws nothing. */
  lemma UnpresentedFrameDrawsNothing<A>(s: Session<A>, application: Application<A>, acquired: AcquireOutcome, reacquired: AcquireOutcome)
    requires Frame(s, application, acquired, reacquired).status != Returned(Presented)
    ensures DrawsNothing(Frame(s, application, acquired, reacquired).ops)
  {
    if !s.minimized {
      var acquisition := AcquireTexture(s.config, acquired, reacquired);
      var calls := [RequestRedraw] + acquisition.ops;
      if acquisition.failure.None? {
        assert s.app.None?;
        assert Frame(s, application, acquired, reacquired).ops == calls + [CreateEncoder(EncoderLabel), CheckOut];
        AcquiringDrawsNothing(s.config, acquired, reacquired, [CreateEncoder(EncoderLabel), CheckOut]);
      } else {
        assert Frame(s, application, acquired, reacquired).ops == calls + [];
        AcquiringDrawsNothing(s.config, acquired, reacquired, []);
      }
    }
  }

  /** No submit, present, overlay frame, app callback or pass among `ops`. */
  predicate DrawsNothing(ops: seq<Op>)
  {
    forall j :: 0 <= j < |ops| ==>
      && ops[j] != Submit && ops[j] != Present && ops[j] != UiFrame && ops[j] != AppUi && ops[j] != AppRender
      && !ops[j].BeginPass?
  }

  lemma AcquiringDrawsNothing(config: SurfaceConfig, acquired: AcquireOutcome, reacquired: AcquireOutcome, tail: seq<Op>)
    requires tail == [] || tail == [CreateEncoder(EncoderLabel), CheckOut]
    ensures DrawsNothing([RequestRedraw] + AcquireTexture(config, acquired, reacquired).ops + tail)
  {
    var calls := AcquireTexture(config, acquired, reacquired).ops;
    AcquireTextureShape(config, acquired, reacquired);
    var ops := [RequestRedraw] + calls + tail;
    assert forall j :: 1 <= j < 1 + |calls| ==> ops[j] == calls[j - 1];
    assert forall j :: 1 + |calls| <= j < |ops| ==> ops[j] == tail[j - 1 - |calls|];
  }
  /** Leaving fullscreen restores the fixed fallback size, whatever the size was before. */
  lemma LeaveFullscreen<A>(s: Session<A>, primary: Option<Monitor>)
    requires s.fullscreen.Some?
    ensures var toggled := ToggleFullscreen(s, primary);
      && toggled.session == s.(fullscreen := None, config := s.config.(width := Setup.FallbackWidth, height := Setup.FallbackHeight))
      && toggled.ops[0] == SetFullscreen(None)
      && Configurations(toggled.ops) == [toggled.session.config]
  {
    var toggled := ToggleFullscreen(s, primary);
    var requests := [SetFullscreen(None), RequestInnerSize(Logical(Setup.FallbackWidth as nat, Setup.FallbackHeight as nat))];
    ConfigurationsAppend(requests, ResizeOps(s.config, Setup.FallbackWidth, Setup.FallbackHeight));
  }

  /**
   * Entering fullscreen selects the first enumerated video mode, resizes to
   * it (a zero-size mode is ignored by the resize guard), and switches to
   * exclusive fullscreen only after that, as the last call.
   */
  lemma EnterFullscreenFirstMode<A>(s: Session<A>, primary: Option<Monitor>)
    requires s.fullscreen.None? && primary.Some? && |primary.value.videoModes| > 0
    ensures var mode := primary.value.videoModes[0];
      var toggled := ToggleFullscreen(s, primary);
      && toggled.session == s.(fullscreen := Some(Exclusive(mode)), config := ResizedConfig(s.config, mode.size.width, mode.size.height))
      && toggled.ops[|toggled.ops| - 1] == SetFullscreen(Some(Exclusive(mode)))
      && (forall j :: 0 <= j < |toggled.ops| - 1 ==> !toggled.ops[j].SetFullscreen?)
      && Configurations(toggled.ops) ==
         (if mode.size.width != 0 && mode.size.height != 0 then [toggled.session.config] else [])
  {
    var mode := primary.value.videoModes[0];
    var resize := ResizeOps(s.config, mode.size.width, mode.size.height);
    ConfigurationsAppend([RequestInnerSize(Physical(mode.size))], resize);
    ConfigurationsAppend([RequestInnerSize(Physical(mode.size))] + resize, [SetFullscreen(Some(Exclusive(mode)))]);
  }

  /** Without a primary monitor, or with one that has no video modes, the toggle does nothing. */
  lemma ToggleWithoutModeDoesNothing<A>(s: Session<A>, primary: Option<Monitor>)
    requires s.fullscreen.None? && (primary.None? || |primary.value.videoModes| == 0)
    ensures ToggleFullscreen(s, primary) == Transition(s, [])
  {
  }

  /**
   * Toggling twice from windowed mode ends windowed at the fixed fallback
   * size; so it does not restore a different earlier size.
   */
  lemma ToggleTwiceEndsAtFallbackSize<A>(s: Session<A>, primary: Option<Monitor>)
    requires s.fullscreen.None? && primary.Some? && |primary.value.videoModes| > 0
    ensures var back := ToggleFullscreen(ToggleFullscreen(s, primary).session, primary).session;
      && back.fullscreen.None?
      && back.config == s.config.(width := Setup.FallbackWidth, height := Setup.FallbackHeight)
      && (s.config.width != Setup.FallbackWidth ==> back.config != s.config)
  {
    EnterFullscreenFirstMode(s, primary);
    LeaveFullscreen(ToggleFullscreen(s, primary).session, primary);
  }

  /**
   * Every event is forwarded to the overlay exactly once, as the last call,
   * and the handler returns `Ok(())`; only a redraw can panic, and then
   * nothing is forwarded.
   */
  lemma EventForwardedOnce<A>(s: Session<A>, application: Application<A>, event: WindowEvent, env: Environment)
    ensures var step := HandleEvent(s, application, event, env);
      && (step.status.Returned? ==>
            step.status.value == Success(()) && |step.ops| > 0 && step.ops[|step.ops| - 1] == ForwardToOverlay(event))
      && (forall j :: 0 <= j < |step.ops| && step.ops[j].ForwardToOverlay? ==>
            step.status.Returned? && j == |step.ops| - 1)
      && (step.status.Aborted? ==> event == RedrawRequested)
  {
    match event {
      case CloseRequested =>
        ForwardedLast([Exit], event);
      case Resized(width, height) =>
        ForwardedLast(ResizeOps(s.config, width, height), event);
      case RedrawRequested =>
        RedrawForwardedOnce(s, application, env);
      case Focused(focused) =>
        if s.fullscreen.Some? {
          ForwardedLast([SetMinimized(!focused)], event);
        } else {
          ForwardedLast([], event);
        }
      case KeyboardInput(_, _, _) =>
        if TogglesFullscreen(event) {
          ForwardedLast(ToggleFullscreen(s, env.primaryMonitor).ops, event);
        } else {
          ForwardedLast([], event);
        }
      case OtherEvent(_) =>
        ForwardedLast([], event);
    }
  }

  /** A redraw forwards the event once, last, unless the frame panics; then it forwards nothing. */
  lemma RedrawForwardedOnce<A>(s: Session<A>, application: Application<A>, env: Environment)
    ensures var step := HandleEvent(s, application, RedrawRequested, env);
      && (step.status.Returned? ==>
            step.status.value == Success(()) && |step.ops| > 0 && step.ops[|step.ops| - 1] == ForwardToOverlay(RedrawRequested))
      && (forall j :: 0 <= j < |step.ops| && step.ops[j].ForwardToOverlay? ==>
            step.status.Returned? && j == |step.ops| - 1)
  {
    var frame := Frame(s, application, env.acquired, env.reacquired);
    FrameForwardsNothing(s, application, env.acquired, env.reacquired);
    if frame.status.Returned? {
      ForwardedLast(frame.ops, RedrawRequested);
    }
  }

  /** Calls that forward nothing, followed by one forward, forward exactly once and last. */
  lemma ForwardedLast(prefix: seq<Op>, event: WindowEvent)
    requires ForwardsNothing(prefix)
    ensures var ops := prefix + [ForwardToOverlay(event)];
      && ops[|ops| - 1] == ForwardToOverlay(event)
      && (forall j :: 0 <= j < |ops| && ops[j].ForwardToOverlay? ==> j == |ops| - 1)
  {
    var ops := prefix + [ForwardToOverlay(event)];
    assert forall j :: 0 <= j < |prefix| ==> ops[j] == prefix[j];
  }

  /** No event among `ops` is forwarded to the overlay. */
  predicate ForwardsNothing(ops: seq<Op>)
  {
    forall j :: 0 <= j < |ops| ==> !ops[j].ForwardToOverlay?
  }

  lemma ForwardsNothingAppend(a: seq<Op>, b: seq<Op>)
    requires ForwardsNothing(a) && ForwardsNothing(b)
    ensures ForwardsNothing(a + b)
  {
    assert forall j :: |a| <= j < |a| + |b| ==> (a + b)[j] == b[j - |a|];
  }

  /** A frame itself forwards no event to the overlay. */
  lemma FrameForwardsNothing<A>(s: Session<A>, application: Application<A>, acquired: AcquireOutcome, reacquired: AcquireOutcome)
    ensures ForwardsNothing(Frame(s, application, acquired, reacquired).ops)
  {
    if !s.minimized {
      var acquisition := AcquireTexture(s.config, acquired, reacquired);
      AcquireTextureShape(s.config, acquired, reacquired);
      assert ForwardsNothing(acquisition.ops);
      ForwardsNothingAppend([RequestRedraw], acquisition.ops);
      if acquisition.failure.None? {
        RecordFrameCalls(s.app, application);
        ForwardsNothingAppend([RequestRedraw] + acquisition.ops, RecordFrame(s.app, application).ops);
      }
    }
  }

  /** Focus changes minimize or restore the window only while it is fullscreen. */
  lemma FocusMinimizesOnlyInFullscreen<A>(s: Session<A>, application: Application<A>, focused: bool, env: Environment)
    ensures var step := HandleEvent(s, application, Focused(focused), env);
      && step.session == (if s.fullscreen.Some? then s.(minimized := !focused) else s)
      && step.ops == (if s.fullscreen.Some? then [SetMinimized(!focused)] else []) + [ForwardToOverlay(Focused(focused))]
  {
  }

  /** A close request ends the event loop in every fullscreen state and changes nothing else. */
  lemma CloseRequestedExits<A>(s: Session<A>, application: Application<A>, env: Environment)
    ensures var step := HandleEvent(s, application, CloseRequested, env);
      step.session == s && step.ops == [Exit, ForwardToOverlay(CloseRequested)] && step.status == Returned(Success(()))
  {
  }

  /** Only a pressed F11 toggles fullscreen; released keys and other keys only reach the overlay. */
  lemma OnlyF11PressToggles<A>(s: Session<A>, application: Application<A>, key: Key, state: ElementState, synthetic: bool, env: Environment)
    ensures var event := KeyboardInput(key, state, synthetic);
      var step := HandleEvent(s, application, event, env);
      && (key == F11 && state == Pressed ==>
            step.session == ToggleFullscreen(s, env.primaryMonitor).session)
      && (key != F11 || state != Pressed ==>
            step.session == s && step.ops == [ForwardToOverlay(event)])
  {
  }

  /** A resize event reconfigures only for a non-zero area and changes no other state. */
  lemma ResizeEvent<A>(s: Session<A>, application: Application<A>, width: u32, height: u32, env: Environment)
    ensures var step := HandleEvent(s, application, Resized(width, height), env);
      && step.session == s.(config := ResizedConfig(s.config, width, height))
      && Configurations(step.ops) == (if width == 0 || height == 0 then [] else [step.session.config])
      && (width == 0 || height == 0 ==> step.session == s)
  {
    ResizeCalls(s.config, width, height);
    ConfigurationsAppend(ResizeOps(s.config, width, height), [ForwardToOverlay(Resized(width, height))]);
  }

  /** Any other event is only forwarded to the overlay. */
  lemma OtherEventOnlyForwards<A>(s: Session<A>, application: Application<A>, code: nat, env: Environment)
    ensures HandleEvent(s, application, OtherEvent(code), env) ==
      Step(s, [ForwardToOverlay(OtherEvent(code))], Returned(Success(())))
  {
  }

  /**
   * The checkout invariant for one event: a checked-in app is checked in
   * again once the event is handled, even after a panic, and the handler
   * never panics for a missing app.
   */
  lemma HandleEventKeepsApp<A>(s: Session<A>, application: Application<A>, event: WindowEvent, env: Environment)
    requires s.app.Some?
    ensures var step := HandleEvent(s, application, event, env);
      step.session.app.Some? && step.status != Aborted(AppMissing)
  {
    if event == RedrawRequested {
      FrameOutcome(s, application, env.acquired, env.reacquired);
      FrameKeepsWindowState(s, application, env.acquired, env.reacquired);
    }
  }

  /** The checkout invariant for a run: with the app checked in, no event sequence reaches the missing-app panic. */
  lemma {:induction false} RunNeverMissesApp<A>(s: Session<A>, application: Application<A>, deliveries: seq<Delivery>)
    requires s.app.Some?
    decreases |deliveries|
    ensures var run := Run(s, application, deliveries);
      run.session.app.Some? && run.status != Aborted(AppMissing)
  {
    if |deliveries| > 0 {
      var step := HandleEvent(s, application, deliveries[0].event, deliveries[0].env);
      HandleEventKeepsApp(s, application, deliveries[0].event, deliveries[0].env);
      if step.status.Returned? {
        RunNeverMissesApp(step.session, application, deliveries[1..]);
      }
    }
  }

  /** A constructed surface never panics for a missing app, whatever events follow. */
  lemma ConstructedSurfaceNeverMissesApp<A>(attributes: WindowAttributes, config: SurfaceConfig, application: Application<A>, deliveries: seq<Delivery>)
    ensures var run := Run(Initial(attributes, config, application.initial), application, deliveries);
      run.session.app.Some? && run.status != Aborted(AppMissing)
  {
    RunNeverMissesApp(Initial(attributes, config, application.initial), application, deliveries);
  }

  /** A configuration whose width and height are both non-zero. */
  predicate NonZeroArea(config: SurfaceConfig)
  {
    config.width != 0 && config.height != 0
  }

  /** Every configuration in `configs` has a non-zero area. */
  predicate AllNonZeroArea(configs: seq<SurfaceConfig>)
  {
    forall i :: 0 <= i < |configs| ==> NonZeroArea(configs[i])
  }

  lemma AllNonZeroAreaAppend(a: seq<SurfaceConfig>, b: seq<SurfaceConfig>)
    requires AllNonZeroArea(a) && AllNonZeroArea(b)
    ensures AllNonZeroArea(a + b)
  {
    assert forall i :: |a| <= i < |a| + |b| ==> (a + b)[i] == b[i - |a|];
  }

  /**
   * The configuration invariant for one event: from a configuration with a
   * non-zero area, the surface keeps a non-zero area and is only ever
   * reconfigured with a non-zero area.
   */
  lemma HandleEventKeepsNonZeroArea<A>(s: Session<A>, application: Application<A>, event: WindowEvent, env: Environment)
    requires NonZeroArea(s.config)
    ensures var step := HandleEvent(s, application, event, env);
      NonZeroArea(step.session.config) && AllNonZeroArea(Configurations(step.ops))
  {
    var forward := [ForwardToOverlay(event)];
    Projections1(ForwardToOverlay(event));
    match event {
      case CloseRequested =>
        ProjectionsAbsent([Exit] + forward);
      case Resized(width, height) =>
        ResizeEvent(s, application, width, height, env);
      case RedrawRequested =>
        RedrawKeepsNonZeroArea(s, application, env);
      case Focused(focused) =>
        if s.fullscreen.Some? {
          ProjectionsAbsent([SetMinimized(!focused)] + forward);
        } else {
          ProjectionsAbsent(forward);
        }
      case KeyboardInput(_, _, _) =>
        if TogglesFullscreen(event) {
          ToggleKeepsNonZeroArea(s, env.primaryMonitor);
          ConfigurationsAppend(ToggleFullscreen(s, env.primaryMonitor).ops, forward);
        } else {
          ProjectionsAbsent(forward);
        }
      case OtherEvent(_) =>
        ProjectionsAbsent(forward);
    }
  }

  /** A redraw reconfigures, if at all, with the configuration it already had. */
  lemma RedrawKeepsNonZeroArea<A>(s: Session<A>, application: Application<A>, env: Environment)
    requires NonZeroArea(s.config)
    ensures var step := HandleEvent(s, application, RedrawRequested, env);
      NonZeroArea(step.session.config) && AllNonZeroArea(Configurations(step.ops))
  {
    var frame := Frame(s, application, env.acquired, env.reacquired);
    FrameConfigurations(s, application, env.acquired, env.reacquired);
    FrameKeepsWindowState(s, application, env.acquired, env.reacquired);
    Projections1(ForwardToOverlay(RedrawRequested));
    ConfigurationsAppend(frame.ops, [ForwardToOverlay(RedrawRequested)]);
  }

  /** The F11 toggle keeps a non-zero area and reconfigures only with one. */
  lemma ToggleKeepsNonZeroArea<A>(s: Session<A>, primary: Option<Monitor>)
    requires NonZeroArea(s.config)
    ensures var toggled := ToggleFullscreen(s, primary);
      NonZeroArea(toggled.session.config) && AllNonZeroArea(Configurations(toggled.ops))
  {
    if s.fullscreen.Some? {
      LeaveFullscreen(s, primary);
    } else if primary.Some? && |primary.value.videoModes| > 0 {
      EnterFullscreenFirstMode(s, primary);
    } else {
      ToggleWithoutModeDoesNothing(s, primary);
      ProjectionsAbsent([]);
    }
  }

  /** The configuration invariant for a run: from a non-zero area, no sequence of events configures a zero area. */
  lemma {:induction false} RunKeepsNonZeroArea<A>(s: Session<A>, application: Application<A>, deliveries: seq<Delivery>)
    requires NonZeroArea(s.config)
    decreases |deliveries|
    ensures var run := Run(s, application, deliveries);
      NonZeroArea(run.session.config) && AllNonZeroArea(Configurations(run.ops))
  {
    if |deliveries| > 0 {
      var step := HandleEvent(s, application, deliveries[0].event, deliveries[0].env);
      HandleEventKeepsNonZeroArea(s, application, deliveries[0].event, deliveries[0].env);
      if step.status.Returned? {
        var rest := Run(step.session, application, deliveries[1..]);
        RunKeepsNonZeroArea(step.session, application, deliveries[1..]);
        ConfigurationsAppend(step.ops, rest.ops);
        AllNonZeroAreaAppend(Configurations(step.ops), Configurations(rest.ops));
      }
    } else {
      ProjectionsAbsent([]);
    }
  }

  /**
   * The initial configuration takes the window's inner size as it is; when
   * that size has a zero dimension, the first frame that finds the surface
   * `Lost` reconfigures it with that zero-area configuration.
   */
  lemma LostReconfiguresZeroInitialSize<A>(attributes: WindowAttributes, gpu: Setup.GpuSetup, inner: PhysicalSize,
                                          application: Application<A>, reacquired: AcquireOutcome)
    requires Setup.CreateWgpu(gpu, inner).Success? && inner.width == 0
    ensures var s := Initial(attributes, Setup.CreateWgpu(gpu, inner).value, application.initial);
      && !NonZeroArea(s.config)
      && Configurations(Frame(s, application, Lost, reacquired).ops) == [s.config]
  {
    var s := Initial(attributes, Setup.CreateWgpu(gpu, inner).value, application.initial);
    FrameConfigurations(s, application, Lost, reacquired);
  }
}
