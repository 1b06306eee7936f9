/**
 * Values exchanged with the graphics and windowing libraries.
 *
 * The GPU surface, the window and the overlay UI are foreign code; what the
 * session sends to them is recorded as a trace of `Op`s, and what they answer
 * (acquisition outcomes, monitor video modes, surface capabilities) is given
 * to the model as input.
 */
module Platform {

  /** Rust's `u32`, the type of every pixel dimension in the session. */
  newtype u32 = x: int | 0 <= x < 0x1_0000_0000

  datatype Option<T> = None | Some(value: T)

  datatype Result<T, E> = Success(value: T) | Failure(error: E)

  /** A surface pixel format; only whether it is gamma-encoded (sRGB) matters here. */
  datatype TextureFormat = TextureFormat(id: nat, srgb: bool)

  datatype PresentMode = AutoVsync | AutoNoVsync | Fifo | FifoRelaxed | Immediate | Mailbox

  datatype AlphaMode = AutoAlpha | Opaque | PreMultiplied | PostMultiplied | Inherit

  /** The swap-chain configuration handed to `surface.configure`. */
  datatype SurfaceConfig = SurfaceConfig(
    format: TextureFormat,
    width: u32,
    height: u32,
    presentMode: PresentMode,
    alphaMode: AlphaMode,
    maxFrameLatency: u32)

  /** What the surface reports it supports for the chosen adapter. */
  datatype SurfaceCaps = SurfaceCaps(formats: seq<TextureFormat>, alphaModes: seq<AlphaMode>)

  datatype PhysicalSize = PhysicalSize(width: u32, height: u32)

  /** A requested window size: in physical pixels, or in logical (scale-dependent) units. */
  datatype InnerSize = Physical(size: PhysicalSize) | Logical(width: nat, height: nat)

  datatype VideoMode = VideoMode(size: PhysicalSize, refreshMilliHertz: u32, bitDepth: nat)

  /** A monitor, with its video modes in the order the platform enumerates them. */
  datatype Monitor = Monitor(name: string, videoModes: seq<VideoMode>)

  /** The only kind of fullscreen this session ever requests. */
  datatype Fullscreen = Exclusive(mode: VideoMode)

  datatype WindowAttributes = WindowAttributes(
    title: string,
    innerSize: Option<InnerSize>,
    fullscreen: Option<Fullscreen>,
    resizable: bool,
    visible: bool)

  /** An opaque clear colour; its floating-point channels are not modelled. */
  datatype Color = Color(id: nat)

  datatype LoadOp = Clear(color: Color) | Load

  /** What the application passes to `RenderContext::render_pass`. */
  datatype RenderPassDesc = RenderPassDesc(name: Option<string>, clearColor: Color)

  /** The outcome of one `get_current_texture` call. */
  datatype AcquireOutcome = Acquired | Timeout | Outdated | Lost | OutOfMemory | OtherError

  datatype Key = F11 | OtherKey(code: nat)

  datatype ElementState = Pressed | Released

  datatype WindowEvent =
    | CloseRequested
    | Resized(width: u32, height: u32)
    | RedrawRequested
    | Focused(focused: bool)
    | KeyboardInput(key: Key, state: ElementState, isSynthetic: bool)
    | OtherEvent(code: nat)

  /**
   * One step of the session's trace: a call into the window, GPU or overlay
   * libraries, or one of the session's own markers `CheckOut` and `CheckIn`,
   * which record the application being taken out of its slot and put back.
   */
  datatype Op =
    | CreateWindow(attributes: WindowAttributes)
    | SetVisible(visible: bool)
    | FocusWindow
    | ConfineCursor
    | Configure(config: SurfaceConfig)
    | RequestRedraw
    | Acquire(outcome: AcquireOutcome)
    | CreateEncoder(encoderLabel: string)
    | CheckOut
    | UiFrame
    | AppUi
    | AppRender
    | PrepareRender
    | BeginPass(name: Option<string>, load: LoadOp)
    | OverlayDraw
    | CheckIn
    | Submit
    | Present
    | SetFullscreen(fullscreen: Option<Fullscreen>)
    | RequestInnerSize(size: InnerSize)
    | SetMinimized(minimized: bool)
    | Exit
    | ForwardToOverlay(event: WindowEvent)

  /** The reasons the process aborts (an `unwrap`, `expect` or `panic!` in the session). */
  datatype Panic =
    | InitFailed(error: InitError)
    | AcquireFailed(outcome: AcquireOutcome)
    | ReacquireAfterResizeFailed(outcome: AcquireOutcome)
    | ReacquireAfterReconfigureFailed(outcome: AcquireOutcome)
    | AppMissing

  /** The failure points of window and GPU construction, in the order they are met. */
  datatype InitError =
    | WindowCreationFailed
    | SurfaceCreationFailed
    | NoAdapter
    | NoDevice
    | NoSrgbFormat
    | NoAlphaMode

  /** The value a call returns, or the panic that ends the process during it. */
  datatype Status<T> = Returned(value: T) | Aborted(panic: Panic)
}
