# WebXR tracking and startup for a Bevy app, modelled in Dafny

This project models the core of `bevy_webxr`, the crate that connects a Bevy application to a browser's WebXR session. The model covers:

- **Per-frame reconciliation** of tracked objects against the entity store. The camera synchroniser matches the platform's views to eye and window cameras. The controller synchroniser matches input sources to controller entities. The hand synchroniser matches the 25 joints of each hand's skeleton to joint entities.
- **The fixed tables** the synchronisers use:
  - the hand skeleton and its map to the `XRHandJoint` values of section 3.1 of the WebXR Hand Input Module - Level 1;
  - the gamepad button and axis roles of the xr-standard mapping, section 3.3 of the WebXR Gamepads Module - Level 1;
  - the `XRSessionMode` and `XRReferenceSpaceType` choices of the WebXR Device API.
- **Startup.** This covers:
  - probing which session modes are supported;
  - the enter-VR/AR buttons and the canvas;
  - requesting a session and its reference space;
  - the polling start-up path with its one-shot latch;
  - the order of actions inside each frame callback.
- **The projection component**: its Y flip, its default matrix and the engine-facing projection trait.
- **The side-by-side stereo split** of the two-camera setup.
- **The balloons example**: its Enter/Stay/Exit edge detector, how events are forwarded, and the rule for attaching, releasing and spawning balloons.

## How the model is built

The model is functional throughout.

- **The world.** The entity store is an immutable map from entity id to a record: role, active flag, pose token, camera state, parent and tracked index (module `Ecs`). Queries return ids in ascending order.
- **Deferred commands.** Spawn, despawn, add-child and insert-component commands are returned as a list instead of being applied. A spawn reserves the next id, but the new entity is not visible to queries in the same call. `Ecs.Apply` plays the list back.
- **Browser and platform results are inputs.** Records stand for what a lookup finds or how a promise settles. Functions stand for per-mode answers. Awaiting a promise is modelled as sequencing.
- **Poses are opaque tokens.** Matrix entries are `real`. The Y flip is the only arithmetic on them.
- **Failures.** A `panic!`, `unwrap` or `expect` on a failed value becomes an explicit `Panicked` (or a named panic) result. It is never a precondition, except in the cases listed under "Left out".

The modules follow the source files:

| module | file |
|---|---|
| `Skeleton`, `Hands` | `src/tracked/hands.rs` |
| `Cameras` | `src/tracked/camera.rs` |
| `Controllers`, `ControllerFacts` | `src/tracked/controllers.rs` |
| `Init` | `src/init.rs` |
| `Session` | `src/session.rs` |
| `Projection` | `src/projection.rs` |
| `Stereo` | `src/camera.rs` |
| `Balloons` | `examples/balloons.rs` |
| `Errors` | `src/error.rs` |

`Platform`, `FrameLoop`, `Ecs` and `Wrappers` hold the shared types.

### Quirks of the code as written

The model follows the code in each of these cases and states the code's behaviour as a lemma.

- **Controllers examine only one input source.** `update_xr_controllers` loops over the input sources (`src/tracked/controllers.rs:72`), but the post-processing block and its `return` (`src/tracked/controllers.rs:259-275`) sit inside the loop body. So only input source 0 is ever examined (`ControllerFacts.OnlySourceZero`).
- **Left and right controllers always end inactive.** The flags `no_left_controller` and `no_right_controller` (`src/tracked/controllers.rs:66-67`) are set to `true` and never cleared. Their names say they should record that no controller of that hand was seen, but the post-processing they guard deactivates every left and right controller, including one just updated (`ControllerFacts.SidedControllersEndInactive`).
- **The right-hand duplicate branch uses the left query.** When the right-hand query finds several entities, the branch iterates `controller_left` (`src/tracked/controllers.rs:160`), a copy of the left-hand branch at line 95. It despawns and updates the *left* controllers, and its `unwrap` panics when there are none (`ControllerFacts.SidedDuplicates`).
- **Duplicate hand joints are not refreshed.** The duplicate branches for hand joints (`src/tracked/hands.rs:493-499` and `872-879`) despawn the extras but do not write the survivor's transform or active flag. The single-entity branch does write them, and so does the controllers' duplicate branch (`src/tracked/controllers.rs:94-111`). (`Hands.WristDuplicatesNotRefreshed`, `Hands.ReconcileJoint`.)
- **The two start-up paths order frame actions differently.** The runner path requests the next frame before it inserts the frame and updates the app. A comment at `src/init.rs:341` questions that order. The polling path inserts the frame, runs the update, removes the frame and only then requests the next frame (`Session.OppositeFrameOrders`).
- **The polling path's frame is invisible to the tracking systems.** The polling path stores each frame in a private `XrFrame` resource (`src/session.rs:93-96`), which has no reference space. The tracking systems read `WebXrFrame`, which only the runner path inserts (`src/init.rs:353-357`). So on the polling path every update sees no frame (`Session.PollingUpdatesSeeNoFrame`).

## Model

| member | source | states |
|---|---|---|
| Skeleton.WebXrHandedness | src/tracked/hands.rs:925-935 | The left and right hand markers stand for a definite platform handedness, never `None` or the non-exhaustive marker |
| Skeleton.Chain | src/tracked/hands.rs:527-713 | Every finger is walked from the metacarpal to the tip. The thumb has 4 joints and no intermediate phalanx; the other fingers have 5 |
| Skeleton.SkeletonRolesAreChainJoints | src/tracked/hands.rs:527-713 | A (finger, joint) pair is a skeleton role exactly when the joint is on that finger's chain |
| Skeleton.ToPlatform | src/tracked/hands.rs:943-1101 | A role has a platform joint exactly when it is a skeleton role. Only the thumb's intermediate phalanx has none |
| Skeleton.TableRoundTrip | src/tracked/hands.rs:943-1101 | The joint table and its platform-side inverse agree in both directions: a role maps to platform joint p iff it is the role p names |
| Skeleton.TableInjective | src/tracked/hands.rs:943-1101 | No two skeleton roles map to the same platform joint |
| Skeleton.LittleIsPinky | src/tracked/hands.rs:1073-1101 | Each joint of the little finger maps to the corresponding `Pinky*` platform joint |
| Skeleton.AllRolesFollowStandardOrder | src/tracked/hands.rs:527-713 | The joint order made of the wrist followed by the chains of the thumb, index, middle, ring and little finger puts the k-th role at the k-th joint in the order of section 3.1 of the WebXR Hand Input Module - Level 1 |
| Skeleton.SkeletonShape | src/tracked/hands.rs:527-713 | The joint order lists 25 roles, none of them twice, and includes every skeleton role |
| Platform.AsU32RoundTrip | src/tracked/camera.rs:175-180 | The `i32`-to-`u32` cast loses nothing: casting back recovers the value, and non-negative values are unchanged |
| Platform.AsU32 | src/tracked/camera.rs:175-180 | Rust's `as u32` on an `i32`: the result is the same value modulo 2^32 and fits in 32 bits |
| Projection.TransformMatrix | src/projection.rs:9-11 | Flipping changes only column-major entry 5, which becomes the negation of `y_axis.y`. The other 15 entries stay as they were |
| Projection.TransformInvolution | src/projection.rs:9-11 | Flipping twice gives back the original matrix |
| Projection.FromColsRoundTrip | src/projection.rs:13-19 | Rebuilding a matrix from its 16 column-major entries gives the same matrix |
| Projection.FromPlatform | src/projection.rs:13-19 | The stored matrix, flipped back, reads out the first 16 platform values in column-major order, and its entry 5 is the negated platform value |
| Projection.Default | src/projection.rs:21-33 | The default matrix has 2.4142134 at entries 0 and 5, -1 at entry 11, 0.1 at entry 14 and zeros elsewhere |
| Projection.CameraProjectionContract | src/projection.rs:35-62 | After an update with platform values v, the engine reads the flipped matrix of v. A viewport resize leaves it unchanged, and the far plane is always 1000 |
| Hands.TrackedSource | src/tracked/hands.rs:467-479 | Picks the first input source whose handedness is this hand's, that exposes a hand and whose wrist pose resolves. Sources whose wrist does not resolve are skipped. The result is none exactly when no source qualifies |
| Hands.ReconcileJoint | src/tracked/hands.rs:860-904 | One joint entity: refreshed in place with pose and active when exactly one exists; the first kept and the rest despawned, without refreshing it, when several exist; one spawned with the next id when none exists. No other entity is touched |
| Hands.ReconcileWrist | src/tracked/hands.rs:483-523 | The wrist is reconciled like any joint. Only a newly spawned wrist is attached under the origin |
| Hands.UpdateFingerJoint | src/tracked/hands.rs:821-915 | A joint resolves exactly when there is a previous joint and its pose resolves. It is then reconciled and re-attached under the previous joint on every update. Otherwise every entity of that joint role is deactivated and no command is added |
| Hands.UpdateXrHands | src/tracked/hands.rs:467-818 | Nothing but duplicate joint entities of this hand is ever despawned. With no origin, no frame or no qualifying source, every joint entity of the hand is deactivated and no command is issued |
| Hands.ChainWithoutPrevious | src/tracked/hands.rs:860-914 | A finger walked with no previous joint deactivates all of its joints and emits no command |
| Hands.ChainDeactivatesFromGap | src/tracked/hands.rs:527-713 | If the joint at position k of a finger fails to resolve, every joint of that finger from position k on ends inactive |
| Hands.ChainFrame | src/tracked/hands.rs:527-713 | Walking one finger writes only that finger's entities |
| Hands.FingersFrame | src/tracked/hands.rs:527-713 | Walking the fingers writes only their entities, so the wrist and the other hand are left as they were |
| Hands.FingerGapDeactivatesRest | src/tracked/hands.rs:527-713 | In a full update, a gap in one finger deactivates the rest of that finger |
| Hands.ChainResolvedTracked | src/tracked/hands.rs:821-915 | Walking a finger from a previous joint, a joint that resolves, with every earlier joint of the finger resolving too, ends with its single entity given the pose and made active, or a new entity spawned with the pose; either way an add-child command attaches it |
| Hands.ResolvedJointTracked | src/tracked/hands.rs:467-915 | In a full update of a tracked hand, a finger joint that resolves along with every earlier joint of its finger ends tracked: its single entity has the joint's pose and is active, or a missing one is spawned with that pose, and the entity is attached by an add-child command |
| Hands.TrackedWristUpdated | src/tracked/hands.rs:483-491 | A single existing wrist entity ends with the resolved wrist pose and is active |
| Hands.WristDuplicatesNotRefreshed | src/tracked/hands.rs:493-499 | With several wrist entities, the first keeps its old pose and active flag, and all the others are despawned |
| Hands.MissingWristSpawned | src/tracked/hands.rs:501-523 | With no wrist entity, one is spawned with the resolved pose and attached under the origin |
| Hands.HandsNeverDespawnSingletons | src/tracked/hands.rs:467-818 | When every joint role of this hand has at most one entity, the update despawns nothing, whatever other roles or the other hand hold |
| Hands.ReconcileJointCollapses | src/tracked/hands.rs:860-904 | Once the commands are applied, the reconciled entity is the only entity of its joint role |
| Cameras.ViewRole | src/tracked/camera.rs:157-370 | Left, right and "none" views select the left-eye, right-eye and window camera roles. A non-exhaustive eye selects none |
| Cameras.ViewRoleInjective | src/tracked/camera.rs:157-370 | No two eyes select the same camera role |
| Cameras.ToViewport | src/tracked/camera.rs:175-180 | Every camera viewport attribute is a `u32`, and a non-negative platform size is kept exactly |
| Cameras.Refreshed | src/tracked/camera.rs:169-186 | A matched camera takes the view's pose, cast viewport and refreshed projection and becomes active. Its role, parent, target, order, flip and index are kept |
| Cameras.NewCamera | src/tracked/camera.rs:188-229 | A spawned camera has the view's role, pose, viewport and projection, target `FRAMEBUFFER_HANDLE`, order equal to the overall view index and index equal to the per-role counter. It is flipped in Y exactly for right-eye and window views |
| Cameras.MatchedViewRefreshes | src/tracked/camera.rs:157-370 | The k-th view of an eye refreshes the k-th existing camera of that eye's role, if there is one |
| Cameras.UnmatchedViewSpawns | src/tracked/camera.rs:188-229 | A view beyond the existing cameras of its role spawns exactly one new camera, with the next free id, as a child of the origin |
| Cameras.SurplusDisabled | src/tracked/camera.rs:374-387 | Every camera of a role beyond that role's view count is deactivated, not despawned |
| Cameras.EveryCameraAccountedFor | src/tracked/camera.rs:157-387 | Every existing camera ends either deactivated or refreshed by the one view that selected it |
| Cameras.OthersUntouched | src/tracked/camera.rs:157-387 | Entities that are not cameras are left unchanged |
| Cameras.SpawnCount | src/tracked/camera.rs:157-387 | The number of spawns is the per-eye excess of views over cameras, summed over the three roles. Nothing is despawned |
| Cameras.UpdateXrCameras | src/tracked/camera.rs:70-425 | If the origin, frame, viewer pose, views, base layer or framebuffer is missing, every camera is deactivated, nothing else changes and no command is issued. Otherwise the framebuffer view is registered under the fixed handle with the layer's size |
| Controllers.IndexToInputType | src/tracked/controllers.rs:292-302 | Buttons 0 to 5 get the six named roles, and every other index is `Other(i)`. Reading the role back gives the index, so the map is injective |
| Controllers.IndexToAxisType | src/tracked/controllers.rs:304-312 | Axes 0 to 3 get the pad and stick roles, and every other index is `Other(i)`. Reading the role back gives the index, so the map is injective |
| Controllers.Channel | src/tracked/controllers.rs:331-353 | A touch or press reading emits one changed-event, and stores the filtered value, exactly when the settings filter returns a value. Every other key's stored value is unchanged |
| Controllers.HandleInputEmitsFiltered | src/tracked/controllers.rs:314-371 | Decoding a gamepad emits, in order, each button's and each axis's filtered events, judged against the store as it was before the call. Axis values and other controllers' values are not stored |
| Controllers.ButtonsAgree | src/tracked/controllers.rs:324-356 | The running button loop emits the same events as judging every button against the initial store |
| Controllers.AxesAgree | src/tracked/controllers.rs:358-371 | The axis loop emits the same events as judging every axis against the initial store |
| Controllers.AxisEventsStoreFree | src/tracked/controllers.rs:358-371 | Axis events depend only on the stored axis values |
| Controllers.ControllerName | src/tracked/controllers.rs:112-241 | Controller names are "Xr Controller " followed by "Left", "Right" or the decimal index |
| Controllers.DecimalRoundTrip | src/tracked/controllers.rs:224-242 | The decimal index in an unclassified controller's name reads back as the index |
| Controllers.Update | src/tracked/controllers.rs:81-93 | A single controller takes the grip pose and becomes active, and gets `XrTrackedObject(i as u8)`. No other entity changes |
| Controllers.AsU8 | src/tracked/controllers.rs:92 | `i as u8` keeps indices below 256 and always fits in a byte |
| Controllers.Tracked | src/tracked/controllers.rs:81-93 | An updated controller takes the pose and becomes active, keeping its role, camera, parent and tracked component |
| Controllers.NewController | src/tracked/controllers.rs:112-134 | A spawned controller has the handedness role, is active and starts at the default pose |
| Controllers.Collapse | src/tracked/controllers.rs:94-111 | With duplicates, all but the first are despawned and the first is updated |
| Controllers.SpawnUnderOrigin | src/tracked/controllers.rs:112-134 | Spawning under the origin panics exactly when there is more than one origin. Otherwise the new controller gets the next id and becomes a child of the origin |
| Controllers.Unclassified | src/tracked/controllers.rs:212-242 | The persisted order list only grows |
| Controllers.Handed | src/tracked/controllers.rs:81-211 | A left or right branch leaves the unclassified snapshot and the order list untouched for post-processing |
| Controllers.Decode | src/tracked/controllers.rs:135-145 | Decoding the gamepad adds no entity command and keeps the order list |
| Controllers.Listed | src/tracked/controllers.rs:69-70 | The snapshot holds exactly the listed ids that are still unclassified controllers |
| Controllers.Finish | src/tracked/controllers.rs:259-275 | Post-processing deactivates exactly the left and right controllers and the unused listed controllers. It keeps the commands, events and order list |
| Controllers.UpdateXrControllers | src/tracked/controllers.rs:62-289 | The order list only grows. With no origin, no frame or no input source, every controller is deactivated and nothing else changes |
| ControllerFacts.OnlySourceZero | src/tracked/controllers.rs:259-275 | Once the loop runs, the result is decided by input source 0 alone. Two frames that agree on it give the same result |
| ControllerFacts.SidedControllersEndInactive | src/tracked/controllers.rs:66-67 | Every left and right controller ends the update inactive, including one just updated |
| ControllerFacts.NonControllersUntouched | src/tracked/controllers.rs:62-289 | Entities that are not controllers are left unchanged |
| ControllerFacts.ArmTouchesOnlyControllers | src/tracked/controllers.rs:81-251 | Each handedness branch writes only controllers and leaves only unclassified controllers to post-processing |
| ControllerFacts.ReconciledIteration | src/tracked/controllers.rs:72-251 | A source with a gamepad and a resolved grip pose is dispatched by handedness, and its gamepad is then decoded for that controller |
| ControllerFacts.IdleSource | src/tracked/controllers.rs:72-80 | A source without a gamepad, grip space or grip pose issues no command and no event. It deactivates the left, right and listed controllers |
| ControllerFacts.SingleSidedTracked | src/tracked/controllers.rs:81-93 | A single controller of the source's handedness gets the grip pose and `XrTrackedObject(0)`, its gamepad events are sent, and it still ends inactive |
| ControllerFacts.SidedDuplicates | src/tracked/controllers.rs:159-176 | Duplicates of either handedness collapse the *left* query. The call panics when there is no left controller |
| ControllerFacts.MissingSidedSpawned | src/tracked/controllers.rs:112-134 | With no controller of the source's handedness, exactly one is spawned under the origin, and one "now tracking" event precedes the gamepad events. The call panics with several origins |
| ControllerFacts.ListedTracked | src/tracked/controllers.rs:212-223 | An unclassified source takes the first listed controller, and the remaining listed ones are deactivated |
| ControllerFacts.UnlistedSpawned | src/tracked/controllers.rs:224-242 | An unclassified source with an empty snapshot spawns "Xr Controller 0" under the origin and appends it to the order list |
| ControllerFacts.DecodeEvents | src/tracked/controllers.rs:135-145 | Decoding appends exactly the gamepad's filtered events |
| ControllerFacts.FinishKeepsPoses | src/tracked/controllers.rs:259-275 | Post-processing changes active flags only, never poses |
| ControllerFacts.LeftoversOfSnapshot | src/tracked/controllers.rs:259-275 | The entities post-processing deactivates are exactly the left and right controllers and the snapshot's leftovers |
| Init.ReferenceSpaceFor | src/init.rs:307-317 | Inline gives `viewer` for any origin. VR and AR give `unbounded` for the "other" origin and `local` for view, seat and room |
| Init.ImmersiveSpacesAgree | src/init.rs:307-317 | VR and AR request the same space for every origin, and no mode ever requests a floor space |
| Init.SessionModeFor | src/init.rs:209-213 | Each mode requests its own `XRSessionMode` |
| Init.SessionModeRoundTrip | src/init.rs:209-213 | The mode-to-session-mode map is a bijection |
| Init.RequestSession | src/init.rs:199-221 | Without a window the result is `NoWindow` and nothing is requested. Otherwise the mode's session is requested with the optional feature "hand-tracking", and a rejection becomes `SessionRequestError` |
| Init.ProbeValue | src/init.rs:61-89 | A probe fails exactly when it is rejected (giving `JsError`) or answers something other than a boolean (giving `NotABool`) |
| Init.ProbeInOrder | src/init.rs:61-89 | Probing stops at the first failing mode and reports its error, after which no further mode is asked. Success means every mode was asked and answered |
| Init.GetSupportedSessions | src/init.rs:61-89 | The result is `NoWindow` without a window. Otherwise inline, VR and AR are probed in that order, and the result is a success exactly when all three give booleans |
| Init.SupportedIsSequential | src/init.rs:61-89 | The supported-sessions record is the in-order probe's answers, and it carries the same first error |
| Init.InitializeWebxr | src/init.rs:32-53 | A probe error aborts start-up. Otherwise each button whose mode the platform supports and the settings allow is set up, VR before AR, with the outcome of `initialize_button` on the page. An inline session starts if inline is supported. If not, start-up panics at `Arc::try_unwrap(app).unwrap()` exactly when some enabled button was set up (its forgotten click handler keeps a clone of the app), and otherwise ends by handing the app to the winit runner |
| Init.ButtonsAgree | src/init.rs:35-46 | The button steps are one per enabled button, VR before AR, and each succeeds exactly when that button would succeed on the page start-up began with |
| Init.QuerySelector | src/init.rs:107-111 | A lookup finds an element the page already had before any element start-up appended; failing that, the first appended element the selector matches, by its position in the body |
| Init.QuerySelectorAfterAppend | src/init.rs:125-129 | Appending an element hides nothing a selector found before, and a selector that found nothing finds the new element exactly when it matches it |
| Init.VrButtonKeepsArOutcome | src/init.rs:97-151 | Setting up the VR button cannot change whether the AR button can be set up, even when the AR lookup now finds the appended VR button |
| Init.SharedSelectorReusesVrButton | src/init.rs:107-146 | When the AR selector finds nothing the page had but matches the appended "Enter VR" button, the AR set-up reuses that button: the page gains one button, and its click handler, installed last, starts an AR session |
| Init.InstalledButtonBlocksWinit | src/init.rs:47-51 | Without inline support, the winit runner is reached exactly when no enabled button was set up; otherwise the result is a panic |
| Init.InlineSettingIgnored | src/init.rs:32-53 | The inline-supported setting never changes start-up |
| Init.AppendToBody | src/init.rs:125-129 | Appending succeeds exactly when the body exists and the call succeeds. The element is then the body's new last child, and a failure is `NoBody` or the call's `JsError` |
| Init.InitializeButton | src/init.rs:97-151 | An element the selector finds on the live page, including one appended earlier in start-up, is reused and must be a button (else `ElementNotButtonElement`). Otherwise an "Enter VR"/"Enter AR" button is created and appended. Its click starts a session in the button's mode |
| Init.InitializeCanvas | src/init.rs:223-248 | An element the selector finds on the live page is reused and must be a canvas (else `ElementNotCanvasElement`). Otherwise a canvas is created with the selector as its id and as the name and value of an attribute, and appended. Setting the id cannot fail; a selector the page refuses as an attribute name panics on `unwrap` |
| Init.CanvasAcquisition | src/init.rs:223-248 | A canvas the selector finds is reused and leaves the page unchanged. Otherwise the created one is added after the existing body, which is kept as it was, and carries the selector as its id |
| Init.Teardown | src/init.rs:156-167 | The frame resource is taken out, and its session is ended if there was one |
| Init.Connect | src/init.rs:169-196 | The first frame is requested exactly when the session, canvas and reference space are all obtained. The initialised event then carries the mode and origin, and the plug-ins are finished if ready. No session is ended here |
| Init.InitializeSession | src/init.rs:153-197 | Starting a session always leaves no frame resource, and ends the previous session first and only then. A frame is requested exactly when the session, canvas and space are obtained |
| Init.RenderContextErrorIgnored | src/init.rs:189-192 | A failed render-context binding changes nothing but its own log step |
| Init.InitCallbackEffect | src/init.rs:341-365 | One runner callback requests the next frame before the update, and the update sees this frame, which stays in the app afterwards |
| Init.InitCallbacksRun | src/init.rs:327-391 | After any run of runner callbacks, each update saw its own frame, one frame was requested per callback, and the last frame is still in the app |
| Init.RestartEndsLastSession | src/init.rs:156-167 | Starting a session after the frame loop has run ends the session of the last frame first |
| Session.PollSession | src/session.rs:9-25 | Polling starts the initialisation task exactly when the latch is down and a granted session is in the slot, and raises the latch at that moment |
| Session.StartsOnceAtFirstReady | src/session.rs:9-25 | Over any sequence of polls from a lowered latch, the initialisation task is started once, at the first frame with a granted session, or never if no frame has one |
| Session.RaisedLatchStaysQuiet | src/session.rs:9-25 | Once the latch is raised, polling never starts the initialisation task again |
| Session.InitContext | src/session.rs:45-91 | A missing or non-canvas element gives `CanvasNotFound`, and a missing or non-WebGL2 context gives `WebGl2ContextNotFound`. Lookup and platform rejections become `JsError`. A missing window or document panics. Success means every step succeeded |
| Session.InitSession | src/session.rs:27-39 | Without a granted session the result is `SessionError`. Otherwise the context binding's error is passed on, and a frame is requested only when binding succeeds |
| Session.SessionCallbackEffect | src/session.rs:93-138 | One polling-path callback stores the frame in the module's own `XrFrame` resource, runs the update, removes that resource and requests the next frame last. The update sees the `WebXrFrame` resource as it already was, not the frame just received |
| Session.OppositeFrameOrders | src/session.rs:106-138 | The two start-up paths order the update and the next-frame request oppositely. Only the runner's update sees the frame it was given, and only the runner leaves it in the app |
| Session.SessionCallbacksRun | src/session.rs:98-151 | After any run of polling-path callbacks, one frame was requested per callback, no private frame is left, and every update saw the `WebXrFrame` resource as it was before the run |
| Session.PollingUpdatesSeeNoFrame | src/session.rs:93-138 | Started without a `WebXrFrame` resource, no update on the polling path sees a frame, so every tracking system takes its no-frame path |
| Stereo.SpawnWebxrCamera | src/camera.rs:17-128 | Nothing happens without a granted session. A missing base layer panics, and that is the only panic. Otherwise the framebuffer is registered under handle 0 at full size, and a left and a right camera both target it |
| Stereo.NullFramebufferStillRegistered | src/camera.rs:18-22 | Reading the layer's `framebuffer` property cannot fail, so a null framebuffer gives the same setup as a present one |
| Stereo.EyesSideBySide | src/camera.rs:93-128 | Both eyes are half the width (rounded down) and the full height, and the right eye starts where the left ends |
| Stereo.EyesPartitionView | src/camera.rs:93-128 | No pixel is drawn by both eyes, and together they draw exactly the first 2·(w/2) columns |
| Stereo.EyesInsideView | src/camera.rs:79-128 | Both viewports lie inside the registered view |
| Stereo.CoversViewIffEvenWidth | src/camera.rs:93-128 | The eyes cover the whole view exactly when its width is even |
| Balloons.Detect | examples/balloons.rs:130-153 | A rising condition emits Enter, a held one Stay, a falling one Exit and an idle one nothing. The latch always ends equal to the condition |
| Balloons.DetectAllBracketed | examples/balloons.rs:130-153 | Over any run of calls, at most one event is emitted per call. Every Enter follows an Exit or starts the stream, and the latch is raised exactly when the last episode is still open |
| Balloons.ThumbsUpGesture | examples/balloons.rs:71-154 | A missing joint returns without an event or state change, and a duplicated one panics. Otherwise the edge detector runs on the gesture, and its event carries the thumb tip's entity and pose |
| Balloons.AnyPressed | examples/balloons.rs:173-182 | True exactly when one of the listed buttons is pressed on that controller |
| Balloons.ControllerTrigger | examples/balloons.rs:163-208 | Without exactly one controller there is no change. Otherwise the edge detector runs on "A/X, B/Y, bumper or trigger pressed", and its event carries the controller's entity and pose |
| Balloons.BalloonEvents | examples/balloons.rs:237-250 | Every hand event is forwarded, then every controller event, with their fields and their order kept |
| Balloons.AttachedTo | examples/balloons.rs:269-272 | Finds a balloon attached to the entity exactly when one exists |
| Balloons.OnEvent | examples/balloons.rs:268-296 | An event moves and inflates only the balloon attached to its entity, if any. No attachment changes before the commands are applied |
| Balloons.EventLoop | examples/balloons.rs:268-296 | Handling a frame's events issues the commands each event gives against the frame-start scene, and keeps attachments and rises |
| Balloons.Rise | examples/balloons.rs:382-385 | Exactly the free balloons rise one step |
| Balloons.BalloonsFrame | examples/balloons.rs:258-386 | A frame issues the event commands, raises exactly the free balloons, and creates the shared mesh and material only the first time a balloon is spawned |
| Balloons.UnattachedEventSpawns | examples/balloons.rs:285-296 | An event whose entity has no balloon spawns exactly one, attached to that entity at the event's pose, and leaves the others unchanged |
| Balloons.ExitReleases | examples/balloons.rs:282-284 | An Exit event moves its balloon and releases it, and the other balloons are unchanged |
| Balloons.HeldEventFollows | examples/balloons.rs:273-280 | An Enter or Stay event on an attached balloon moves it and keeps it attached, with no command |
| Balloons.RepeatedEventSpawnsTwice | examples/balloons.rs:268-296 | Two events for the same unattached entity in one frame spawn two balloons, because commands are applied only after the frame |

## Left out

- **Browser and GPU interop.** Wrapping the WebGL framebuffer as a GPU texture (`src/graphics.rs`, the texture creation in `src/tracked/camera.rs` and `src/camera.rs`) is reduced to registering a view of the given size under a handle.
- **Asynchrony and sharing.** JavaScript promises, closures, `spawn_local`, Bevy's task pools, the `Arc<Mutex<App>>` lock and the raw `App` pointer are not modelled. Their outcomes are inputs, and awaiting is sequencing. The one exception is `Arc::try_unwrap` at `src/init.rs:50`: its outcome is derived, because it fails exactly when a button's click handler, forgotten with `closure.forget()`, still holds a clone of the app.
- **Floating point.** Poses are opaque tokens. The following are not modelled:
  - the thumbs-up angle test, which is an input boolean;
  - the balloon rotation lerp, the 1.03 scale step (modelled as a count of inflations) and the rise amount (modelled as a count of rises);
  - the `dom_point.rs` conversions;
  - the projection entries beyond the sign flip.
- **The settings filter.** Its body lives in the `bevy_xr` crate, which is not part of this model. It is a function parameter. `handle_input` does not compile as shown, so the model stores the filtered touch and press values at their keys, as the code evidently intends.
- **`bevy_xr` bundles.** Their contents are assumed: a spawned joint or controller is active with its role, and a spawned controller has the default pose. Query iteration order is taken to be ascending entity id.
- **Per-balloon details.** The balloon meshes, the materials and the four sphere children per balloon are reduced to one spawn command and a created/cached flag.
- **Logging and the frame counter.** Logging (including the result of a failed render-context binding, which is only logged) and `print_frame_index` leave no state.
- **The runner wrapper.** `webxr_runner` (`src/init.rs:19-30`) and its `expect` panic are not modelled, nor is the plug-in build in `src/lib.rs`.
- **Module wiring.** `src/lib.rs:3-7` declares neither the `tracked` modules nor `src/camera.rs`, and `src/session.rs` imports `AppPointer` and `WebXrContext`, which the crate does not define. The model treats all these files as live.
- **Inconsistent types.** The model adds `origin` to the settings, which `src/lib.rs` lacks, and `ElementNotCanvasElement` to the errors, which `src/error.rs` lacks. The session-initialised event carries mode and origin, as `src/init.rs` sends it, although `src/events.rs` declares only the mode.
- **`query_selector` and canvas ids.** A `query_selector` error is treated as "not found", as the `if let Ok(Some(..))` reuse test does. Setting a created canvas's id cannot fail. Whether the page accepts the selector as an attribute name (`set_attribute(canvas, canvas)`, `src/init.rs:240`) is an input; the default selector `canvas[data-raw-handle]` (`src/lib.rs:34`) is not a valid attribute name under the DOM standard, whose `setAttribute` then throws, so with the default settings a page without a matching canvas panics there. Which selectors match which appended elements is an input too, as the model has no selector engine.
- `examples/webxr_example.rs` (scene set-up) and `src/tracked/space.rs` (an empty stub) hold no logic to model.
- `poll_session_init` (`src/session.rs:43`) has an empty body, so there is nothing to model.
- Projection.FromPlatform: requires at least 16 values, so the panic `Mat4::from_cols_slice` raises on a shorter slice (`src/projection.rs:15`, `src/projection.rs:38`) is excluded; the platform's `projectionMatrix` always holds 16 values. `Projection.CameraProjectionContract` carries the same requirement.
- Balloons.OnEvent: a moved or spawned balloon takes the event's pose token. The source keeps the event's translation but turns a held balloon only 10% of the way (`lerp`) toward a `looking_to` rotation built from the event pose, and gives a new balloon that rotation outright. Both need floating-point arithmetic on the pose.
- Hands.UpdateXrHands: requires at most one origin entity instead of modelling the `origin.single()` panic when a wrist is spawned with several origins.
- Cameras.UpdateXrCameras: requires at most one origin entity instead of modelling the `origin.single()` panic, and does not model the panic of `get_viewport(..).unwrap()`.
- Cameras.UpdateXrCameras: states only the fallback path and the framebuffer registration. The render path's per-camera effects are stated by `Cameras.MatchedViewRefreshes`, `Cameras.UnmatchedViewSpawns`, `Cameras.SurplusDisabled` and `Cameras.EveryCameraAccountedFor`, which are about the view loop it runs.
- Controllers.Unclassified: states only that the order list grows. What it selects and spawns is stated by `ControllerFacts.ListedTracked` and `ControllerFacts.UnlistedSpawned`.
