# GravSim window surface — a Dafny model

GravSim's `WindowSurface` owns one window, its GPU surface and a UI overlay. It
drives a small state machine:

- `resize` reconfigures the swap chain, and ignores requests with zero area;
- `render` produces one frame. It acquires a texture, with one retry after an
  `Outdated` or `Lost` surface. It checks the application out of its slot, runs
  the application's UI and render callbacks, appends the overlay pass, checks the
  application back in, and submits and presents once;
- `handle_event` dispatches window events: close, resize, redraw, focus, and the
  F11 fullscreen toggle. It forwards every event to the overlay.

`ApplicationWrapper` is the event-loop handler around it. It creates the surface
once, on the first resume, and dispatches events only while the surface exists.

The libraries (wgpu, winit, imgui) are not modelled. Every call the session
makes into them is recorded as an `Op` in a ghost `trace`. What they answer is an
input to the model:

- the outcomes of texture acquisition;
- the monitor's video modes;
- the surface capabilities;
- whether each negotiation step succeeded.

A `panic!`, `unwrap` or `expect` that fires becomes `Status.Aborted(reason)`.

Files:

- `platform.dfy` (`Platform`) holds the values exchanged with the libraries and the `Op` trace alphabet.
- `setup.dfy` (`Setup`) holds the window attributes, the sRGB format choice and the initial configuration.
- `session.dfy` (`SurfaceSession`) specifies each operation as a function of a `Session` snapshot: the new state, the calls made, and how the call ends.
- `window_surface.dfy` (`WindowSurfaces`) holds the class `WindowSurface`. Its fields are updated in place. Each method is proved equal to its `SurfaceSession` function on the state before the call.
- `application.dfy` (`Applications`) holds the class `ApplicationWrapper`.
- `session_properties.dfy` (`SurfaceProperties`) holds the lemmas. They cover the zero-area guard, the bounded recovery, the frame order, the fullscreen toggle and event dispatch.

## Model

| member | source | states |
|---|---|---|
| `Setup.WindowAttributesFor` | src/gravsim/window_surface.rs:285-320 | Titled "GravSim" and always hidden. A first video mode gives exclusive fullscreen at that mode's physical size, not resizable. No monitor gives a 1920x1080 logical size, windowed. A monitor with no modes sets no size. |
| `Setup.FindSrgb` | src/gravsim/window_surface.rs:357-362 | Returns nothing exactly when no format is sRGB. Otherwise returns the format at the first sRGB position. |
| `Setup.CreateWgpu` | src/gravsim/window_surface.rs:322-376 | The failure points in order: surface, adapter, device, no sRGB format, no alpha mode. It succeeds exactly when every step passes, an sRGB format exists and an alpha mode is offered. On success the config has the first sRGB format, the window's inner size, `Immediate` presentation, the first alpha mode and a frame latency of 2. |
| `Setup.Construct` | src/gravsim/window_surface.rs:58-59 | Definition with no contract of its own: a failed window creation fails first, then `CreateWgpu` decides. `WindowSurface.New` is stated against it. |
| `SurfaceSession.Initial` | src/gravsim/window_surface.rs:85-98 | Definition with no contract of its own: the state of `tmp` once the app is put in, from the initial config and the window's fullscreen attribute. `Initial` is what `WindowSurface.New` and `ConstructedSurfaceNeverMissesApp` start from. |
| `WindowSurfaces.WindowSurface.New` | src/gravsim/window_surface.rs:55-106 | Fails exactly when window creation or GPU setup fails, with that error. On success: a fresh surface with the initial config and the window's fullscreen attribute, not minimized, and the app checked in. The window is revealed, focused and its cursor confined only after GPU setup. |
| `WindowSurfaces.WindowSurface.constructor` | src/gravsim/window_surface.rs:58-98 | The state after construction, and the calls through the reveal, focus and cursor confinement. |
| `SurfaceSession.ResizedConfig` | src/gravsim/window_surface.rs:108-113 | A zero width or height keeps the config. Otherwise the new config has exactly the requested size. Format, present mode, alpha mode and latency never change. |
| `SurfaceSession.ResizeOps` | src/gravsim/window_surface.rs:108-115 | No call for a zero-area request. Otherwise exactly one `Configure`, with the resized config. |
| `WindowSurfaces.WindowSurface.Resize` | src/gravsim/window_surface.rs:108-115 | Updates only `config` and the trace, as `ResizedConfig` and `ResizeOps` say. |
| `SurfaceProperties.ResizeCalls` | src/gravsim/window_surface.rs:108-115 | A resize acquires nothing. It reconfigures once with the new size, or not at all for a zero area. |
| `SurfaceProperties.ResizeToCurrentSize` | src/gravsim/window_surface.rs:133 | Resizing to the current size, as the `Outdated` recovery does, leaves the config unchanged. |
| `SurfaceSession.AcquireTexture` | src/gravsim/window_surface.rs:130-145 | Definition with no contract of its own: the calls and the panic reason of the `get_current_texture` match, one branch per outcome. Its properties are `AcquireTextureCalls`, `OutdatedCalls`, `LostCalls` and `AcquireTextureShape`. |
| `SurfaceProperties.AcquireTextureShape` | src/gravsim/window_surface.rs:130-145 | Acquisition makes only `get_current_texture` and `configure` calls. |
| `SurfaceProperties.AcquireTextureCalls` | src/gravsim/window_surface.rs:130-145 | `Outdated`/`Lost` give exactly two acquisitions; anything else gives one. `Lost` always reconfigures. `Outdated` reconfigures only if the current size is non-zero. Both use the current config. A texture is obtained exactly when the first call or the single retry succeeds. |
| `SurfaceProperties.OutdatedCalls` | src/gravsim/window_surface.rs:132-137 | After `Outdated`: exactly the failed and the retried acquisition. A reconfiguration with the current config happens only when its size is non-zero. No other kind of call. |
| `SurfaceProperties.LostCalls` | src/gravsim/window_surface.rs:138-143 | After `Lost`: exactly the failed and the retried acquisition, and exactly one reconfiguration with the unchanged current config. |
| `WindowSurfaces.WindowSurface.AcquireFrameTexture` | src/gravsim/window_surface.rs:130-145 | Leaves `config` unchanged. Records the acquisition calls of `AcquireTexture` and returns its panic reason. |
| `WindowSurfaces.WindowSurface.RecordCommands` | src/gravsim/window_surface.rs:151-202 | The app slot and the calls after acquisition follow `RecordFrame`. An empty slot panics after the checkout. |
| `WindowSurfaces.WindowSurface.Render` | src/gravsim/window_surface.rs:117-203 | The new state, the calls and the outcome are those of `Frame` on the state before the call. |
| `SurfaceSession.RenderPass` | src/gravsim/window_surface.rs:35-51 | Definition with no contract of its own: `render_pass` begins one pass with the descriptor's label and `Clear` of its colour. |
| `SurfaceSession.AppPasses` | src/gravsim/window_surface.rs:165-168 | Definition with no contract of its own: the passes opened by `app.render` through its render context, one `RenderPass` each, in order. `AppPassesClear` states their shape. |
| `SurfaceSession.RecordFrame` | src/gravsim/window_surface.rs:151-202 | Definition with no contract of its own: encoder, checkout, the `expect` on an empty slot, overlay frame, app UI, app render and its passes, `prepare_render`, the overlay pass, check-in, submit, present. `RecordFrameCalls` and `PresentedFrameOrder` are its properties. |
| `SurfaceSession.Frame` | src/gravsim/window_surface.rs:117-203 | Definition with no contract of its own: the minimized skip, the frame clock, the redraw request, then `AcquireTexture` and `RecordFrame`. Its properties are the `Frame…`, `PresentedFrameOrder` and `UnpresentedFrameDrawsNothing` lemmas. |
| `SurfaceProperties.AppPassesClear` | src/gravsim/window_surface.rs:35-51 | Each pass the application opens through its render context is one `BeginPass` with its label and `Clear` of its colour, in order. |
| `SurfaceProperties.RecordFrameCalls` | src/gravsim/window_surface.rs:151-202 | Recording a frame acquires nothing, reconfigures nothing and forwards no event. |
| `SurfaceProperties.FrameAcquisitions` | src/gravsim/window_surface.rs:117-145 | A minimized frame acquires nothing. Other frames acquire once, or twice after a recoverable error, so never more than twice. |
| `SurfaceProperties.FrameConfigurations` | src/gravsim/window_surface.rs:117-145 | A frame reconfigures only to recover from `Lost`, or from `Outdated` with a non-zero size. It uses the config it already had. |
| `SurfaceProperties.FrameOutcome` | src/gravsim/window_surface.rs:117-157 | Skipped iff minimized. Presented iff a texture is obtained and the app slot is full. Each other case panics with the reason of the failed step. |
| `SurfaceProperties.FrameKeepsWindowState` | src/gravsim/window_surface.rs:117-203 | Config, fullscreen and minimized are unchanged. The frame clock advances iff the frame is not skipped. A skipped frame changes nothing and makes no call. After a presented frame the app slot holds the app after its UI and render callbacks. Otherwise the slot is as before. |
| `SurfaceProperties.PresentedFrameOrder` | src/gravsim/window_surface.rs:157-202 | In order: checkout, overlay frame, app UI, app render (each exactly once), the app's passes (all `Clear`). Then the single overlay pass, which uses `Load`. Then exactly one check-in, then the only submit, then the only present. |
| `SurfaceProperties.UnpresentedFrameDrawsNothing` | src/gravsim/window_surface.rs:117-157 | A frame that is not presented opens no pass, runs no callback, and never submits or presents. |
| `SurfaceSession.ToggleFullscreen` | src/gravsim/window_surface.rs:246-270 | Definition with no contract of its own: leave fullscreen to 1920x1080, or enter `Exclusive` of the first mode, or do nothing. `LeaveFullscreen`, `EnterFullscreenFirstMode`, `ToggleWithoutModeDoesNothing` and `ToggleTwiceEndsAtFallbackSize` are its properties. |
| `WindowSurfaces.WindowSurface.ToggleFullscreen` | src/gravsim/window_surface.rs:243-271 | The new state and the calls are those of `ToggleFullscreen` on the state before the call. |
| `SurfaceProperties.LeaveFullscreen` | src/gravsim/window_surface.rs:246-251 | From fullscreen: fullscreen is cleared first. The config becomes 1920x1080 whatever it was, with one reconfigure. |
| `SurfaceProperties.EnterFullscreenFirstMode` | src/gravsim/window_surface.rs:252-269 | From windowed, with a first mode: resizes to that mode's size. Then, as the last call, switches to `Exclusive` of that first mode, never another mode. |
| `SurfaceProperties.ToggleWithoutModeDoesNothing` | src/gravsim/window_surface.rs:253-269 | Windowed with no monitor, or with a monitor that has no modes: no state change and no call. |
| `SurfaceProperties.ToggleTwiceEndsAtFallbackSize` | src/gravsim/window_surface.rs:246-269 | Two toggles from windowed end windowed at 1920x1080. They do not restore an earlier width. |
| `SurfaceSession.HandleEvent` | src/gravsim/window_surface.rs:205-283 | Definition with no contract of its own: the effect of each event, then the forward to the overlay and `Ok(())`. A panicking redraw ends the call before the forward. The event lemmas below are its properties. |
| `WindowSurfaces.WindowSurface.HandleEvent` | src/gravsim/window_surface.rs:205-283 | The new state, the calls and the result are those of `HandleEvent` on the state before the call. |
| `SurfaceProperties.EventForwardedOnce` | src/gravsim/window_surface.rs:276-282 | Every handled event is forwarded to the overlay exactly once, as the last call, and the result is `Ok(())`. Only a redraw can panic, and then nothing is forwarded. |
| `SurfaceProperties.FrameForwardsNothing` | src/gravsim/window_surface.rs:117-203 | `render` itself never forwards an event to the overlay, whatever the acquisition outcomes. |
| `SurfaceProperties.RedrawForwardedOnce` | src/gravsim/window_surface.rs:220-223 | A redraw that does not panic forwards the event once, as the last call. A redraw that panics forwards nothing. |
| `SurfaceProperties.FocusMinimizesOnlyInFullscreen` | src/gravsim/window_surface.rs:224-229 | `Focused(f)` sets minimized to `!f` only in fullscreen. In windowed mode it only forwards. |
| `SurfaceProperties.CloseRequestedExits` | src/gravsim/window_surface.rs:212-215 | A close request exits the event loop in every fullscreen state and changes nothing else. |
| `SurfaceProperties.OnlyF11PressToggles` | src/gravsim/window_surface.rs:243-245 | F11 pressed (repeats included) toggles. Any other key, or a release, changes nothing and only forwards. |
| `SurfaceProperties.ResizeEvent` | src/gravsim/window_surface.rs:216-219 | A resize event changes only the config, as `ResizedConfig` says. It reconfigures once, or not at all for a zero area. |
| `SurfaceProperties.OtherEventOnlyForwards` | src/gravsim/window_surface.rs:273-282 | Any other event changes no state and is only forwarded to the overlay, with `Ok(())`. |
| `SurfaceSession.Run` | src/gravsim/application.rs:45-59 | Definition with no contract of its own: the events the event loop delivers through `window_event`, handled in turn, with a panic ending the run. |
| `SurfaceProperties.HandleEventKeepsApp` | src/gravsim/window_surface.rs:157-199 | With the app checked in, every event leaves it checked in, even when a redraw panics. No event panics for a missing app. |
| `SurfaceProperties.RunNeverMissesApp` | src/gravsim/window_surface.rs:157-199 | With the app checked in, no sequence of events reaches the "App must be present" panic, and the app is checked in at the end of the run. |
| `SurfaceProperties.ConstructedSurfaceNeverMissesApp` | src/gravsim/window_surface.rs:85-98 | A constructed surface has the app checked in, so no run from it ever panics for a missing app. The app is absent only while it is built or checked out. |
| `SurfaceProperties.HandleEventKeepsNonZeroArea` | src/gravsim/window_surface.rs:205-283 | From a config with non-zero width and height, every event leaves a non-zero config. Every `configure` an event makes uses a non-zero area. |
| `SurfaceProperties.RunKeepsNonZeroArea` | src/gravsim/window_surface.rs:108-145 | From a config with a non-zero area, no sequence of events ever configures the surface with a zero area, and the config stays non-zero. |
| `SurfaceProperties.LostReconfiguresZeroInitialSize` | src/gravsim/window_surface.rs:138-143 | When the window's inner size has a zero width (src/gravsim/window_surface.rs:367-368), the initial config has zero area. Then a frame that finds the surface `Lost` reconfigures with exactly that zero-area config. |
| `Applications.ApplicationWrapper.constructor` | src/gravsim/application.rs:82-84 | The handler starts with no window surface. |
| `Applications.ApplicationWrapper.Resumed` | src/gravsim/application.rs:37-43 | With a surface: no change. Without one: a freshly constructed surface fills the slot, or construction panics and the slot stays empty. So the surface is created at most once. |
| `Applications.ApplicationWrapper.WindowEvent` | src/gravsim/application.rs:45-59 | With no surface: nothing happens. Otherwise `handle_event` runs once with the same event. Its result is not propagated, only a panic is, and the slot keeps the same surface. |

## Design points where the code decides

- Construction never calls `surface.configure` (src/gravsim/window_surface.rs:55-106, 322-376). The surface is first configured either by `resize` or by the `Lost` recovery. `resize` runs for a `Resized` event, for the `Outdated` recovery, and for the F11 toggle; it configures only when the size is non-zero.
- The window is revealed right after GPU setup (src/gravsim/window_surface.rs:61), before the overlay renderer is set up and before `Application::new` runs.
- Leaving fullscreen restores a fixed 1920x1080 (src/gravsim/window_surface.rs:246-251), not the size before entering fullscreen. `ToggleTwiceEndsAtFallbackSize` states this.
- F11 toggles on every `Pressed` event, with no check for key repeat (src/gravsim/window_surface.rs:243-244).
- `Focused(f)` sets minimized to `!f` whenever the window is fullscreen (src/gravsim/window_surface.rs:226-227). This does not depend on how the window came to be minimized.
- The `Outdated` recovery calls `resize` with the current size (src/gravsim/window_surface.rs:133). So it does not reconfigure when that size has a zero dimension.
- The zero-area guard is only in `resize` (src/gravsim/window_surface.rs:108-115). The initial config takes the window's inner size as it is (src/gravsim/window_surface.rs:367-368). So from an initial inner size with a zero dimension, the `Lost` recovery configures the surface with that zero-area config (src/gravsim/window_surface.rs:139). `LostReconfiguresZeroInitialSize` states this. From a non-zero config, `RunKeepsNonZeroArea` shows the surface is never configured with a zero area.
- A primary monitor with no video modes gives a window with no requested size, not the 1920x1080 fallback (src/gravsim/window_surface.rs:291-315).

## Left out

- The wgpu, winit and imgui calls themselves are not modelled: adapter and device negotiation, the imgui context and renderer setup, the overlay's drawing, and the application's draw calls inside its passes. Each appears only as an `Op`, or as a success flag in `Setup.GpuSetup`.
- `create_shader_module`, `create_buffer` and `create_render_pipeline` are not modelled. They only forward descriptors to the device.
- `Application.ui` is a function of the app state alone. In the source, `app.ui` also receives imgui's `Ui` frame (src/gravsim/window_surface.rs:162-163), which carries the input forwarded to the overlay and the frame delta. So in the model the callbacks see no imgui input state, and the app's state after a frame does not depend on UI input.
- `Application::new` is not modelled. The model takes the state it builds as `Application.initial`, and does not capture the resources it creates through the surface.
- A failure of the `expect` on imgui's `prepare_frame` or on the imgui render call is not modelled. The model assumes both succeed.
- An `is_minimized()` that reports "unknown" (its `unwrap`) is not modelled.
- `fullscreen` holds what `window.fullscreen()` would report (src/gravsim/window_surface.rs:226, 246). The model assumes this is exactly the creation attribute or the last `set_fullscreen` request. It does not capture winit refusing or delaying either request, nor the user or the OS changing fullscreen.
- `minimized` changes only through `Focused`. The model does not capture the user or the OS minimizing the window.
- The OS response to `request_inner_size` is not modelled. Its result is ignored in the source. The window's inner size at construction is an input.
- `Instant` arithmetic is not modelled. `lastFrame` counts rendered frames, and the delta fed to imgui is left out.
- Floating-point data is not modelled. Clear colours are opaque identifiers, and logical sizes are whole numbers.
- The config's constant `usage` and `view_formats` fields are not modelled.
- `Setup.CreateWgpu`: an empty alpha-mode list panics in the source (an index out of bounds, src/gravsim/window_surface.rs:370). The model reports it as the construction error `NoAlphaMode`. Either way the process ends.
- Unwinding is not modelled. A panic is returned as `Aborted(reason)`, with the state and trace as they were when it fired.
- Not modelled: the event-loop construction inside `run_app`, the async `new`/`create_wgpu` and `pollster::block_on`, logging, `src/main.rs` (demo content and exit code), and `src/gravsim/shader.rs` (plain data).
