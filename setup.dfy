/**
 * The choices made while the window and the GPU context are created:
 * the window attributes picked from the primary monitor, the surface format
 * picked from the capabilities, and the initial swap-chain configuration.
 */
module Setup {
  import opened Platform

  /** The fixed windowed size used when there is no primary monitor, and when leaving fullscreen. */
  const FallbackWidth: u32 := 1920
  const FallbackHeight: u32 := 1080

  /** The buffering depth of the initial configuration. */
  const MaxFrameLatency: u32 := 2

  /** winit's default window attributes. */
  function DefaultAttributes(): WindowAttributes
  {
    WindowAttributes("winit window", None, None, true, true)
  }

  /**
   * The attributes the window is created with: exclusive fullscreen at the
   * first enumerated video mode of the primary monitor when there is one, the
   * fallback logical size when there is no monitor, and no size at all for a
   * monitor without modes. The window is always created hidden.
   */
  function WindowAttributesFor(primary: Option<Monitor>): (r: WindowAttributes)
    ensures r.title == "GravSim" && !r.visible
    ensures primary.Some? && |primary.value.videoModes| > 0 ==>
      var mode := primary.value.videoModes[0];
      r.innerSize == Some(Physical(mode.size)) && r.fullscreen == Some(Exclusive(mode)) && !r.resizable
    ensures primary.None? ==>
      r.innerSize == Some(Logical(FallbackWidth as nat, FallbackHeight as nat)) && r.fullscreen.None? && r.resizable
    ensures primary.Some? && |primary.value.videoModes| == 0 ==>
      r.innerSize.None? && r.fullscreen.None? && r.resizable
  {
    var titled := DefaultAttributes().(title := "GravSim");
    var sized :=
      match primary
      case Some(monitor) =>
        if |monitor.videoModes| > 0 then
          var mode := monitor.videoModes[0];
          titled.(innerSize := Some(Physical(mode.size)), fullscreen := Some(Exclusive(mode)), resizable := false)
        else titled
      case None =>
        titled.(innerSize := Some(Logical(FallbackWidth as nat, FallbackHeight as nat)));
    sized.(visible := false)
  }

  /** `i` is the position of the first sRGB format of `formats`. */
  predicate FirstSrgbAt(formats: seq<TextureFormat>, i: int)
  {
    0 <= i < |formats| && formats[i].srgb && forall j :: 0 <= j < i ==> !formats[j].srgb
  }

  /** The first sRGB format, if any: a first-match search over the capability list. */
  function FindSrgb(formats: seq<TextureFormat>): (r: Option<TextureFormat>)
    ensures r.None? <==> forall i :: 0 <= i < |formats| ==> !formats[i].srgb
    ensures r.Some? ==> exists i :: FirstSrgbAt(formats, i) && formats[i] == r.value
  {
    if |formats| == 0 then None
    else if formats[0].srgb then
      assert FirstSrgbAt(formats, 0);
      Some(formats[0])
    else
      var rest := FindSrgb(formats[1..]);
      if rest.Some? then
        var i :| FirstSrgbAt(formats[1..], i) && formats[1..][i] == rest.value;
        assert FirstSrgbAt(formats, i + 1);
        rest
      else
        assert forall i :: 1 <= i < |formats| ==> formats[i] == formats[1..][i - 1];
        rest
  }

  /** What the GPU library answers while the context is negotiated. */
  datatype GpuSetup = GpuSetup(surfaceCreated: bool, adapterFound: bool, deviceCreated: bool, caps: SurfaceCaps)

  /**
   * GPU initialisation: each negotiation step is a failure point in turn,
   * then the first sRGB format is chosen, then the initial configuration is
   * built from the window's inner size with immediate presentation, the
   * first alpha mode and a frame latency of two.
   */
  function CreateWgpu(gpu: GpuSetup, inner: PhysicalSize): (r: Result<SurfaceConfig, InitError>)
    ensures !gpu.surfaceCreated ==> r == Failure(SurfaceCreationFailed)
    ensures gpu.surfaceCreated && !gpu.adapterFound ==> r == Failure(NoAdapter)
    ensures gpu.surfaceCreated && gpu.adapterFound && !gpu.deviceCreated ==> r == Failure(NoDevice)
    ensures gpu.surfaceCreated && gpu.adapterFound && gpu.deviceCreated ==>
      ((forall i :: 0 <= i < |gpu.caps.formats| ==> !gpu.caps.formats[i].srgb) <==> r == Failure(NoSrgbFormat))
    ensures r == Failure(NoAlphaMode) <==>
      gpu.surfaceCreated && gpu.adapterFound && gpu.deviceCreated &&
      FindSrgb(gpu.caps.formats).Some? && |gpu.caps.alphaModes| == 0
    ensures r.Success? <==>
      gpu.surfaceCreated && gpu.adapterFound && gpu.deviceCreated &&
      FindSrgb(gpu.caps.formats).Some? && |gpu.caps.alphaModes| > 0
    ensures r.Success? ==>
      && (exists i :: FirstSrgbAt(gpu.caps.formats, i) && gpu.caps.formats[i] == r.value.format)
      && r.value.width == inner.width && r.value.height == inner.height
      && r.value.presentMode == Immediate
      && r.value.alphaMode == gpu.caps.alphaModes[0]
      && r.value.maxFrameLatency == MaxFrameLatency
  {
    if !gpu.surfaceCreated then Failure(SurfaceCreationFailed)
    else if !gpu.adapterFound then Failure(NoAdapter)
    else if !gpu.deviceCreated then Failure(NoDevice)
    else match FindSrgb(gpu.caps.formats)
      case None => Failure(NoSrgbFormat)
      case Some(format) =>
        if |gpu.caps.alphaModes| == 0 then Failure(NoAlphaMode)
        else Success(SurfaceConfig(format, inner.width, inner.height, Immediate, gpu.caps.alphaModes[0], MaxFrameLatency))
  }

  /** What the platform answers while the window surface is constructed. */
  datatype Startup = Startup(primaryMonitor: Option<Monitor>, windowCreated: bool, innerSize: PhysicalSize, gpu: GpuSetup)

  /**
   * Construction up to the first frame: the window is created (a failure
   * point), then the GPU context; either failure ends construction.
   */
  function Construct(startup: Startup): Result<SurfaceConfig, InitError>
  {
    if !startup.windowCreated then Failure(WindowCreationFailed)
    else CreateWgpu(startup.gpu, startup.innerSize)
  }
}
