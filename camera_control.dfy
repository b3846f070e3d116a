/** The control state of the camera screen: the capture button (tap for a photo, hold for a video),
    the recorder, the filter preview loop, the smart-mode analyzer, the flash and the camera binding.

    Handler posts, the camera-provider future and the recorder's callbacks are events of a
    sequential trace; an event that waits on a pending callback (the long-press timer, a filter
    tick, the provider becoming ready) is enabled only while that callback is pending. What the
    screen asks of the platform (take a picture, start or stop a recording, set the torch, close an
    analyzer) is appended to a log of effects. */
module CameraControl {
  import opened JavaText

  /** CameraSelector.DEFAULT_BACK_CAMERA / DEFAULT_FRONT_CAMERA. */
  datatype Facing = Back | Front

  datatype UseCase = PreviewUse | ImageCaptureUse | AnalysisUse | VideoUse

  datatype Effect =
    | PhotoTaken                                          // imageCapture.takePicture(...)
    | PhotoSkipped                                        // takePhoto() before any ImageCapture exists
    | RecordingRefused                                    // startRecording() without recorder
    | AudioPermissionRequested
    | RecordingStarted(recording: nat, withAudio: bool)   // pending.start(...)
    | RecordingStopRequested(recording: nat)              // currentRecording.stop()
    | AnalyzerCreated(analyzer: nat)
    | AnalyzerClosed(analyzer: nat)
    | TorchSet(on: bool, selected: Facing, camera: Facing) // enableTorch on the camera bound last
    | FlashUnavailable                                    // the flash button on the front camera

  /** The filter preview: currentFilter, filterRunning, the filterLoopRunnable posts pending on
      the main handler, and the overlay view (absent when it could not be created). */
  datatype FilterState = FilterState(
    currentFilter: int, running: bool, ticks: nat, overlayPresent: bool, overlayVisible: bool)

  /** The capture button: captureButtonPressed, pendingLongPress, the startRecordingRunnable posts
      pending on the press handler, and where in the effect log the current press began. */
  datatype PressState = PressState(
    pressed: bool, pendingLongPress: bool, timers: nat, start: nat)

  /** imageCapture, recorder/videoCapture, isRecording and currentRecording; `live` counts the
      recordings started and not finalized yet. */
  datatype MediaState = MediaState(
    imageCaptureReady: bool, recorderReady: bool, isRecording: bool,
    currentRecording: Option<nat>, nextRecording: nat, live: nat)

  /** cameraSelector, flashEnabled, smartMode, currentCamera (the camera of the last successful
      bind), the bound use cases, the smartAnalyzer field, the analyzers created and not closed,
      and the provider-future listeners not yet run. */
  datatype BindingState = BindingState(
    facing: Facing, flashEnabled: bool, smartMode: bool, currentCamera: Option<Facing>,
    bound: set<UseCase>, smartAnalyzer: Option<nat>, nextAnalyzer: nat, liveAnalyzers: set<nat>,
    pendingBinds: nat)

  datatype CameraState = CameraState(
    filter: FilterState, press: PressState, media: MediaState, binding: BindingState,
    destroyed: bool, effects: seq<Effect>)

  datatype Event =
    | TouchDown
    | TouchUp                               // ACTION_UP or ACTION_CANCEL
    | LongPressTimer(hasAudio: bool)        // startRecordingRunnable; audio permission at that time
    | RecorderStart
    | RecorderFinalize
    | FilterClick
    | FilterTick                            // filterLoopRunnable
    | SwitchClick
    | SmartClick
    | FlashClick
    | ProviderReady(providerOk: bool, recorderBuilds: bool, bindSucceeds: bool)
    | Destroy

  /** The delay after which a held button starts a recording. */
  const LONG_PRESS_THRESHOLD_MS: nat := 350

  /** The filter preview is refreshed this often while it runs. */
  const FILTER_PERIOD_MS: nat := 120

  /** The number of filters currentFilter cycles through (0 is none). */
  const FILTER_COUNT: int := 3

  /** The screen after onCreate with camera permission: back camera, no filter, nothing bound yet,
      one startCamera() waiting for the provider. */
  function Initial(overlayPresent: bool): CameraState
  {
    CameraState(
      FilterState(0, false, 0, overlayPresent, false),
      PressState(false, false, 0, 0),
      MediaState(false, false, false, None, 0, 0),
      BindingState(Back, false, false, None, {}, None, 0, {}, 1),
      false, [])
  }

  // ---------------------------------------------------------------------------
  // The private helpers of the activity

  function TakePhoto(s: CameraState): CameraState
  {
    s.(effects := s.effects + [if s.media.imageCaptureReady then PhotoTaken else PhotoSkipped])
  }

  /** What startRecording asks of the platform: a refusal without a recorder, otherwise the
      audio permission request when audio is missing, then the start of a fresh recording. */
  function RecordingEffects(m: MediaState, hasAudio: bool): seq<Effect>
  {
    if !m.recorderReady then [RecordingRefused]
    else (if hasAudio then [] else [AudioPermissionRequested]) + [RecordingStarted(m.nextRecording, hasAudio)]
  }

  function StartRecording(s: CameraState, hasAudio: bool): CameraState
  {
    var m := s.media;
    var m' := if !m.recorderReady then m
              else m.(currentRecording := Some(m.nextRecording), nextRecording := m.nextRecording + 1,
                      live := m.live + 1);
    s.(media := m', effects := s.effects + RecordingEffects(m, hasAudio))
  }

  function StopRecording(s: CameraState): CameraState
  {
    if s.media.currentRecording.Some? then
      s.(effects := s.effects + [RecordingStopRequested(s.media.currentRecording.value)])
    else s
  }

  function StopFilterPreview(f: FilterState): FilterState
  {
    f.(running := false, ticks := 0, overlayVisible := false)
  }

  function StartFilterPreview(f: FilterState): FilterState
  {
    if !f.overlayPresent then f
    else f.(running := true, overlayVisible := true, ticks := 1)
  }

  function UpdateTorch(s: CameraState): CameraState
  {
    var b := s.binding;
    if b.currentCamera.None? then s
    else
      var flash := if b.facing == Front then false else b.flashEnabled;
      s.(binding := b.(flashEnabled := flash),
         effects := s.effects + [TorchSet(flash, b.facing, b.currentCamera.value)])
  }

  function StartCamera(b: BindingState): BindingState
  {
    b.(pendingBinds := b.pendingBinds + 1)
  }

  /** The use cases a successful bind attaches. */
  function UseCases(smartMode: bool, withVideo: bool): set<UseCase>
  {
    {PreviewUse, ImageCaptureUse} + (if smartMode then {AnalysisUse} else {})
    + (if withVideo then {VideoUse} else {})
  }

  /** With smart mode off, an existing analyzer is closed and the field cleared. */
  function ReleaseAnalyzer(s: CameraState): CameraState
  {
    var b := s.binding;
    if !b.smartMode && b.smartAnalyzer.Some? then
      s.(binding := b.(smartAnalyzer := None, liveAnalyzers := b.liveAnalyzers - {b.smartAnalyzer.value}),
         effects := s.effects + [AnalyzerClosed(b.smartAnalyzer.value)])
    else s
  }

  /** With smart mode on, a new analyzer is created and stored in the field. */
  function CreateAnalyzer(s: CameraState): CameraState
  {
    var b := s.binding;
    if b.smartMode then
      s.(binding := b.(smartAnalyzer := Some(b.nextAnalyzer), nextAnalyzer := b.nextAnalyzer + 1,
                       liveAnalyzers := b.liveAnalyzers + {b.nextAnalyzer}),
         effects := s.effects + [AnalyzerCreated(b.nextAnalyzer)])
    else s
  }

  /** bindToLifecycle: on success the camera of the selected facing with its use cases; on an
      exception nothing is bound and currentCamera keeps its old value. */
  function AttachUseCases(s: CameraState, recorderBuilds: bool, bindSucceeds: bool): CameraState
  {
    var b := s.binding;
    if bindSucceeds then
      s.(binding := b.(currentCamera := Some(b.facing), bound := UseCases(b.smartMode, recorderBuilds)))
    else s
  }

  /** bindCameraUseCases: unbind everything, rebuild the capture and recorder use cases, close the
      analyzer when smart mode is off or create a fresh one when it is on, bind, update the torch. */
  function BindCameraUseCases(s: CameraState, recorderBuilds: bool, bindSucceeds: bool): CameraState
  {
    var s1 := s.(binding := s.binding.(bound := {}),
                 media := s.media.(imageCaptureReady := true, recorderReady := recorderBuilds));
    UpdateTorch(AttachUseCases(CreateAnalyzer(ReleaseAnalyzer(s1)), recorderBuilds, bindSucceeds))
  }

  // ---------------------------------------------------------------------------
  // The event handlers

  function OnTouchDown(s: CameraState): CameraState
  {
    s.(press := PressState(true, false, s.press.timers + 1, |s.effects|))
  }

  function OnTouchUp(s: CameraState): CameraState
  {
    var s1 := s.(press := s.press.(timers := 0));
    var s2 := if !s1.press.pendingLongPress then TakePhoto(s1) else StopRecording(s1);
    s2.(press := s2.press.(pressed := false, pendingLongPress := false))
  }

  function OnLongPressTimer(s: CameraState, hasAudio: bool): CameraState
    requires s.press.timers > 0
  {
    var s1 := s.(press := s.press.(timers := s.press.timers - 1));
    if s1.press.pressed && !s1.media.isRecording then
      StartRecording(s1.(press := s1.press.(pendingLongPress := true)), hasAudio)
    else s1
  }

  function OnFilterClick(f: FilterState): FilterState
  {
    var f1 := f.(currentFilter := (f.currentFilter + 1) % FILTER_COUNT);
    if f1.currentFilter == 0 then StopFilterPreview(f1) else StartFilterPreview(f1)
  }

  /** One run of filterLoopRunnable: it ends the loop once filterRunning is false, otherwise it
      filters a frame and posts itself again. */
  function OnFilterTick(f: FilterState): FilterState
    requires f.ticks > 0
  {
    var f1 := f.(ticks := f.ticks - 1);
    if !f1.running then f1 else f1.(ticks := f1.ticks + 1)
  }

  function OnSwitchClick(b: BindingState): BindingState
  {
    var facing := if b.facing == Back then Front else Back;
    StartCamera(b.(facing := facing, flashEnabled := if facing == Front then false else b.flashEnabled))
  }

  function OnSmartClick(b: BindingState): BindingState
  {
    StartCamera(b.(smartMode := !b.smartMode))
  }

  function OnFlashClick(s: CameraState): CameraState
  {
    if s.binding.facing == Front then s.(effects := s.effects + [FlashUnavailable])
    else UpdateTorch(s.(binding := s.binding.(flashEnabled := !s.binding.flashEnabled)))
  }

  /** The provider future's listener: bind when get() succeeds; an exception is only logged. */
  function OnProviderReady(s: CameraState, providerOk: bool, recorderBuilds: bool, bindSucceeds: bool): CameraState
    requires s.binding.pendingBinds > 0
  {
    var s1 := s.(binding := s.binding.(pendingBinds := s.binding.pendingBinds - 1));
    if providerOk then BindCameraUseCases(s1, recorderBuilds, bindSucceeds) else s1
  }

  /** onDestroy: stop the filter preview, close the analyzer (the field keeps its value), stop a
      running recording, and drop the pending long-press timer. */
  function OnDestroy(s: CameraState): CameraState
  {
    var s1 := s.(filter := StopFilterPreview(s.filter));
    var b := s1.binding;
    var s2 :=
      if b.smartAnalyzer.Some? then
        s1.(binding := b.(liveAnalyzers := b.liveAnalyzers - {b.smartAnalyzer.value}),
            effects := s1.effects + [AnalyzerClosed(b.smartAnalyzer.value)])
      else s1;
    var s3 := if s2.media.isRecording then StopRecording(s2) else s2;
    s3.(press := s3.press.(timers := 0), destroyed := true)
  }

  /** Which events can happen: after onDestroy only the callbacks it does not remove (the
      provider-future listeners and the recorder's events); the gesture stream alternates down and
      up; a posted callback runs only while it is pending; the recorder reports only on recordings. */
  predicate Enabled(s: CameraState, e: Event)
  {
    (!s.destroyed || OutlivesDestroy(e)) &&
    match e
    case TouchDown => !s.press.pressed
    case TouchUp => s.press.pressed
    case LongPressTimer(_) => s.press.timers > 0
    case RecorderStart => s.media.live > 0
    case RecorderFinalize => s.media.live > 0
    case FilterTick => s.filter.ticks > 0
    case ProviderReady(_, _, _) => s.binding.pendingBinds > 0
    case _ => true
  }

  /** The events whose callbacks onDestroy leaves registered: the listeners startCamera() adds to
      the provider future and the listener of a recording already started. */
  predicate OutlivesDestroy(e: Event)
  {
    e.ProviderReady? || e.RecorderStart? || e.RecorderFinalize?
  }

  function Step(s: CameraState, e: Event): CameraState
    requires Enabled(s, e)
  {
    match e
    case TouchDown => OnTouchDown(s)
    case TouchUp => OnTouchUp(s)
    case LongPressTimer(hasAudio) => OnLongPressTimer(s, hasAudio)
    case RecorderStart => s.(media := s.media.(isRecording := true))
    case RecorderFinalize => s.(media := s.media.(isRecording := false, live := s.media.live - 1))
    case FilterClick => s.(filter := OnFilterClick(s.filter))
    case FilterTick => s.(filter := OnFilterTick(s.filter))
    case SwitchClick => s.(binding := OnSwitchClick(s.binding))
    case SmartClick => s.(binding := OnSmartClick(s.binding))
    case FlashClick => OnFlashClick(s)
    case ProviderReady(ok, rb, bs) => OnProviderReady(s, ok, rb, bs)
    case Destroy => OnDestroy(s)
  }

  predicate Runnable(s: CameraState, es: seq<Event>)
    decreases |es|
  {
    es == [] || (Enabled(s, es[0]) && Runnable(Step(s, es[0]), es[1..]))
  }

  function Run(s: CameraState, es: seq<Event>): CameraState
    requires Runnable(s, es)
    decreases |es|
  {
    if es == [] then s else Run(Step(s, es[0]), es[1..])
  }

  // ---------------------------------------------------------------------------
  // Counting what a press asked for

  predicate IsPhotoCall(e: Effect)
  {
    e.PhotoTaken? || e.PhotoSkipped?
  }

  predicate IsRecordingAttempt(e: Effect)
  {
    e.RecordingStarted? || e.RecordingRefused?
  }

  /** How many takePhoto() calls the effects record. */
  function Photos(es: seq<Effect>): nat
  {
    if es == [] then 0 else Photos(es[..|es| - 1]) + (if IsPhotoCall(es[|es| - 1]) then 1 else 0)
  }

  /** How many startRecording() calls the effects record. */
  function Attempts(es: seq<Effect>): nat
  {
    if es == [] then 0
    else Attempts(es[..|es| - 1]) + (if IsRecordingAttempt(es[|es| - 1]) then 1 else 0)
  }

  lemma {:induction false} CountsAppend(a: seq<Effect>, b: seq<Effect>)
    ensures Photos(a + b) == Photos(a) + Photos(b)
    ensures Attempts(a + b) == Attempts(a) + Attempts(b)
    decreases |b|
  {
    if b == [] {
      assert a + b == a;
    } else {
      var b' := b[..|b| - 1];
      assert (a + b)[..|a + b| - 1] == a + b';
      CountsAppend(a, b');
    }
  }

  /** A startRecording call logs exactly one recording attempt, no photo, and no torch request. */
  lemma RecordingEffectsCount(m: MediaState, hasAudio: bool)
    ensures Photos(RecordingEffects(m, hasAudio)) == 0
    ensures Attempts(RecordingEffects(m, hasAudio)) == 1
    ensures TorchSafe(RecordingEffects(m, hasAudio))
  {
    if m.recorderReady && !hasAudio {
      CountsAppend([AudioPermissionRequested], [RecordingStarted(m.nextRecording, hasAudio)]);
    }
  }

  lemma SliceAppend(es: seq<Effect>, p: nat, x: seq<Effect>)
    requires p <= |es|
    ensures (es + x)[p..] == es[p..] + x
  {
  }

  /** No torch was ever switched on while the front camera was selected. */
  ghost predicate TorchSafe(es: seq<Effect>)
  {
    forall i :: 0 <= i < |es| && es[i].TorchSet? && es[i].on ==> es[i].selected == Back
  }

  // ---------------------------------------------------------------------------
  // The invariant

  /** The filter index stays in range; exactly one tick is pending while the preview runs and
      none otherwise; the overlay is visible exactly while the preview runs. */
  ghost predicate FilterInv(f: FilterState)
  {
    && 0 <= f.currentFilter < FILTER_COUNT
    && f.ticks == (if f.running then 1 else 0)
    && (f.running ==> f.overlayPresent && f.currentFilter != 0)
    && f.overlayVisible == f.running
  }

  /** At most one long-press timer is pending, none once it fired or the button is up; during a
      press no photo was requested, and a recording was attempted exactly when pendingLongPress. */
  ghost predicate PressInv(p: PressState, effects: seq<Effect>)
  {
    && p.timers <= 1
    && (!p.pressed ==> p.timers == 0 && !p.pendingLongPress)
    && (p.pendingLongPress ==> p.timers == 0)
    && p.start <= |effects|
    && (p.pressed ==>
          Photos(effects[p.start..]) == 0
          && Attempts(effects[p.start..]) == (if p.pendingLongPress then 1 else 0))
  }

  ghost predicate BindingInv(b: BindingState, destroyed: bool)
  {
    && (b.facing == Front ==> !b.flashEnabled)
    && (b.smartAnalyzer.Some? && !destroyed ==> b.smartAnalyzer.value in b.liveAnalyzers)
    && (forall a :: a in b.liveAnalyzers ==> a < b.nextAnalyzer)
  }

  ghost predicate MediaInv(m: MediaState)
  {
    m.currentRecording.Some? ==> m.currentRecording.value < m.nextRecording
  }

  ghost predicate Inv(s: CameraState)
  {
    && FilterInv(s.filter)
    && PressInv(s.press, s.effects)
    && BindingInv(s.binding, s.destroyed)
    && MediaInv(s.media)
    && TorchSafe(s.effects)
  }

  lemma InitialInv(overlayPresent: bool)
    ensures Inv(Initial(overlayPresent))
  {
  }

  /** The effects no press count and no torch rule is about. */
  ghost predicate Neutral(x: seq<Effect>)
  {
    forall i :: 0 <= i < |x| ==>
      !IsPhotoCall(x[i]) && !IsRecordingAttempt(x[i]) && !(x[i].TorchSet? && x[i].on)
  }

  lemma {:induction false} NeutralCountsZero(x: seq<Effect>)
    requires Neutral(x)
    ensures Photos(x) == 0 && Attempts(x) == 0
    decreases |x|
  {
    if x != [] {
      NeutralCountsZero(x[..|x| - 1]);
    }
  }

  lemma TorchSafeAppend(a: seq<Effect>, b: seq<Effect>)
    requires TorchSafe(a) && TorchSafe(b)
    ensures TorchSafe(a + b)
  {
    forall i | 0 <= i < |a + b| && (a + b)[i].TorchSet? && (a + b)[i].on
      ensures (a + b)[i].selected == Back
    {
      if i >= |a| { assert (a + b)[i] == b[i - |a|]; }
    }
  }

  /** Logging neutral effects keeps the press counts and the torch rule. */
  lemma NeutralAppend(p: PressState, effects: seq<Effect>, x: seq<Effect>)
    requires PressInv(p, effects) && TorchSafe(effects) && Neutral(x)
    ensures PressInv(p, effects + x) && TorchSafe(effects + x)
  {
    TorchSafeAppend(effects, x);
    if p.pressed {
      SliceAppend(effects, p.start, x);
      CountsAppend(effects[p.start..], x);
      NeutralCountsZero(x);
    }
  }

  lemma StopRecordingInv(s: CameraState)
    requires Inv(s)
    ensures Inv(StopRecording(s))
  {
    if s.media.currentRecording.Some? {
      NeutralAppend(s.press, s.effects, [RecordingStopRequested(s.media.currentRecording.value)]);
    }
  }

  lemma UpdateTorchInv(s: CameraState)
    requires Inv(s)
    ensures Inv(UpdateTorch(s))
  {
    var b := s.binding;
    if b.currentCamera.Some? {
      var flash := if b.facing == Front then false else b.flashEnabled;
      var x := [TorchSet(flash, b.facing, b.currentCamera.value)];
      TorchSafeAppend(s.effects, x);
      if s.press.pressed {
        SliceAppend(s.effects, s.press.start, x);
        CountsAppend(s.effects[s.press.start..], x);
        assert Photos(x) == 0 && Attempts(x) == 0;
      }
    }
  }

  lemma TouchDownInv(s: CameraState)
    requires Inv(s) && !s.press.pressed
    ensures Inv(OnTouchDown(s))
  {
    assert s.effects[|s.effects|..] == [];
  }

  lemma TouchUpInv(s: CameraState)
    requires Inv(s) && s.press.pressed
    ensures Inv(OnTouchUp(s))
  {
    var x := if !s.press.pendingLongPress then [if s.media.imageCaptureReady then PhotoTaken else PhotoSkipped]
             else if s.media.currentRecording.Some? then [RecordingStopRequested(s.media.currentRecording.value)]
             else [];
    assert OnTouchUp(s).effects == s.effects + x;
    TorchSafeAppend(s.effects, x);
  }

  /** Logging one recording attempt starts the long press. */
  lemma AttemptAppend(p: PressState, effects: seq<Effect>, x: seq<Effect>)
    requires PressInv(p, effects) && TorchSafe(effects) && TorchSafe(x)
    requires p.pressed && !p.pendingLongPress && p.timers == 1
    requires Photos(x) == 0 && Attempts(x) == 1
    ensures PressInv(p.(timers := 0, pendingLongPress := true), effects + x)
    ensures TorchSafe(effects + x)
  {
    SliceAppend(effects, p.start, x);
    CountsAppend(effects[p.start..], x);
    TorchSafeAppend(effects, x);
  }

  lemma LongPressTimerInv(s: CameraState, hasAudio: bool)
    requires Inv(s) && s.press.timers > 0
    ensures Inv(OnLongPressTimer(s, hasAudio))
  {
    if s.press.pressed && !s.media.isRecording {
      var x := RecordingEffects(s.media, hasAudio);
      RecordingEffectsCount(s.media, hasAudio);
      AttemptAppend(s.press, s.effects, x);
      var t := OnLongPressTimer(s, hasAudio);
      assert t.press == s.press.(timers := 0, pendingLongPress := true);
      assert t.effects == s.effects + x;
    }
  }

  lemma FilterClickInv(f: FilterState)
    requires FilterInv(f)
    ensures FilterInv(OnFilterClick(f))
  {
  }

  lemma FilterTickInv(f: FilterState)
    requires FilterInv(f) && f.ticks > 0
    ensures FilterInv(OnFilterTick(f))
  {
  }

  lemma FlashClickInv(s: CameraState)
    requires Inv(s)
    ensures Inv(OnFlashClick(s))
  {
    if s.binding.facing == Front {
      NeutralAppend(s.press, s.effects, [FlashUnavailable]);
    } else {
      UpdateTorchInv(s.(binding := s.binding.(flashEnabled := !s.binding.flashEnabled)));
    }
  }

  lemma BindInv(s: CameraState, rb: bool, bs: bool)
    requires Inv(s)
    ensures Inv(BindCameraUseCases(s, rb, bs))
  {
    var s1 := s.(binding := s.binding.(bound := {}),
                 media := s.media.(imageCaptureReady := true, recorderReady := rb));
    var b1 := s1.binding;
    if !b1.smartMode && b1.smartAnalyzer.Some? {
      NeutralAppend(s1.press, s1.effects, [AnalyzerClosed(b1.smartAnalyzer.value)]);
    }
    var s2 := ReleaseAnalyzer(s1);
    assert Inv(s2);
    if s2.binding.smartMode {
      NeutralAppend(s2.press, s2.effects, [AnalyzerCreated(s2.binding.nextAnalyzer)]);
    }
    var s3 := CreateAnalyzer(s2);
    assert Inv(s3);
    var s4 := AttachUseCases(s3, rb, bs);
    assert Inv(s4);
    UpdateTorchInv(s4);
  }

  lemma ProviderReadyInv(s: CameraState, ok: bool, rb: bool, bs: bool)
    requires Inv(s) && s.binding.pendingBinds > 0
    ensures Inv(OnProviderReady(s, ok, rb, bs))
  {
    if ok {
      BindInv(s.(binding := s.binding.(pendingBinds := s.binding.pendingBinds - 1)), rb, bs);
    }
  }

  lemma DestroyInv(s: CameraState)
    requires Inv(s)
    ensures Inv(OnDestroy(s))
  {
    var s1 := s.(filter := StopFilterPreview(s.filter), destroyed := true);
    var b := s1.binding;
    var s2 := s1;
    if b.smartAnalyzer.Some? {
      NeutralAppend(s1.press, s1.effects, [AnalyzerClosed(b.smartAnalyzer.value)]);
      s2 := s1.(binding := b.(liveAnalyzers := b.liveAnalyzers - {b.smartAnalyzer.value}),
                effects := s1.effects + [AnalyzerClosed(b.smartAnalyzer.value)]);
    }
    assert Inv(s2);
    if s2.media.isRecording {
      StopRecordingInv(s2);
    }
  }

  lemma StepPreservesInv(s: CameraState, e: Event)
    requires Inv(s) && Enabled(s, e)
    ensures Inv(Step(s, e))
  {
    match e
    case TouchDown => TouchDownInv(s);
    case TouchUp => TouchUpInv(s);
    case LongPressTimer(hasAudio) => LongPressTimerInv(s, hasAudio);
    case RecorderStart => {}
    case RecorderFinalize => {}
    case FilterClick => FilterClickInv(s.filter);
    case FilterTick => FilterTickInv(s.filter);
    case SwitchClick => {}
    case SmartClick => {}
    case FlashClick => FlashClickInv(s);
    case ProviderReady(ok, rb, bs) => ProviderReadyInv(s, ok, rb, bs);
    case Destroy => DestroyInv(s);
  }

  /** The invariant holds after every run of events from a state that satisfies it. */
  lemma {:induction false} RunPreservesInv(s: CameraState, es: seq<Event>)
    requires Inv(s) && Runnable(s, es)
    ensures Inv(Run(s, es))
    decreases |es|
  {
    if es != [] {
      StepPreservesInv(s, es[0]);
      RunPreservesInv(Step(s, es[0]), es[1..]);
    }
  }

  // ---------------------------------------------------------------------------
  // What the screen promises

  /** A press ends in exactly one of the two gestures: released before the long-press timer
      started a recording, it takes a photo; otherwise it stops the recording and takes none. */
  lemma PressIsTapOrHold(s: CameraState)
    requires Inv(s) && Enabled(s, TouchUp)
    ensures var t := Step(s, TouchUp);
      && Photos(t.effects[s.press.start..]) + Attempts(t.effects[s.press.start..]) == 1
      && (Photos(t.effects[s.press.start..]) == 1 <==> !s.press.pendingLongPress)
      && !t.press.pressed && t.press.timers == 0
  {
    var t := Step(s, TouchUp);
    var q := s.effects[s.press.start..];
    var x: seq<Effect>;
    if !s.press.pendingLongPress {
      x := [if s.media.imageCaptureReady then PhotoTaken else PhotoSkipped];
      assert Photos(x) == 1 && Attempts(x) == 0 by { assert x[..0] == []; }
    } else {
      x := if s.media.currentRecording.Some? then [RecordingStopRequested(s.media.currentRecording.value)]
           else [];
      assert Photos(x) == 0 && Attempts(x) == 0 by { if x != [] { assert x[..0] == []; } }
    }
    assert t.effects == s.effects + x;
    SliceAppend(s.effects, s.press.start, x);
    CountsAppend(q, x);
  }

  /** The long-press timer starts a recording exactly when the button is still held and no
      recording is in progress; the recording gets a fresh id and asks for audio permission
      when it has to go without sound. */
  lemma LongPressStartsRecording(s: CameraState, hasAudio: bool)
    requires Inv(s) && Enabled(s, LongPressTimer(hasAudio))
    ensures var t := Step(s, LongPressTimer(hasAudio));
      && t.press.timers == 0
      && (t.press.pendingLongPress <==> s.press.pressed && !s.media.isRecording)
      && (t.press.pendingLongPress ==> Attempts(t.effects) == Attempts(s.effects) + 1)
      && (!t.press.pendingLongPress ==> t.effects == s.effects && t.media == s.media)
      && (t.press.pendingLongPress && s.media.recorderReady ==>
            t.media.currentRecording == Some(s.media.nextRecording)
            && t.effects[|t.effects| - 1] == RecordingStarted(s.media.nextRecording, hasAudio)
            && (AudioPermissionRequested in t.effects[|s.effects|..] <==> !hasAudio))
      && (t.press.pendingLongPress && !s.media.recorderReady ==>
            t.effects == s.effects + [RecordingRefused] && t.media == s.media)
  {
    var t := Step(s, LongPressTimer(hasAudio));
    assert t == OnLongPressTimer(s, hasAudio);
    if s.press.pressed && !s.media.isRecording {
      var s1 := s.(press := s.press.(timers := s.press.timers - 1, pendingLongPress := true));
      assert t == StartRecording(s1, hasAudio);
      StartRecordingAttempts(s1, hasAudio);
    }
  }

  /** One startRecording logs one attempt: a refusal that changes nothing else without a
      recorder, otherwise a fresh recording, preceded by the audio request exactly when audio
      is missing. */
  lemma StartRecordingAttempts(s: CameraState, hasAudio: bool)
    ensures var t := StartRecording(s, hasAudio);
      && Attempts(t.effects) == Attempts(s.effects) + 1
      && (s.media.recorderReady ==>
            t.media.currentRecording == Some(s.media.nextRecording)
            && t.effects[|t.effects| - 1] == RecordingStarted(s.media.nextRecording, hasAudio)
            && (AudioPermissionRequested in t.effects[|s.effects|..] <==> !hasAudio))
      && (!s.media.recorderReady ==> t.effects == s.effects + [RecordingRefused] && t.media == s.media)
  {
    var t := StartRecording(s, hasAudio);
    var x := RecordingEffects(s.media, hasAudio);
    assert t.effects == s.effects + x;
    assert t.effects[|s.effects|..] == x;
    RecordingEffectsCount(s.media, hasAudio);
    CountsAppend(s.effects, x);
  }

  /** isRecording follows the recorder alone: its Start event sets it, its Finalize event clears
      it, and no other event touches it. */
  lemma IsRecordingFollowsRecorder(s: CameraState, e: Event)
    requires Enabled(s, e)
    ensures e.RecorderStart? ==> Step(s, e).media.isRecording
    ensures e.RecorderFinalize? ==> !Step(s, e).media.isRecording
    ensures !e.RecorderStart? && !e.RecorderFinalize? ==>
      Step(s, e).media.isRecording == s.media.isRecording
  {
    match e
    case ProviderReady(ok, rb, bs) => {
      var s1 := s.(binding := s.binding.(pendingBinds := s.binding.pendingBinds - 1));
      if ok {
        var s2 := s1.(binding := s1.binding.(bound := {}),
                      media := s1.media.(imageCaptureReady := true, recorderReady := rb));
        assert CreateAnalyzer(ReleaseAnalyzer(s2)).media == s2.media;
      }
    }
    case _ => {}
  }

  /** stopRecording asks the current recording to stop, and does nothing before the first one. */
  lemma StopRecordingOnlyWithRecording(s: CameraState)
    ensures s.media.currentRecording.None? ==> StopRecording(s) == s
    ensures s.media.currentRecording.Some? ==>
      StopRecording(s).effects == s.effects + [RecordingStopRequested(s.media.currentRecording.value)]
  {
  }

  /** The filter button cycles none, first, second, none; the preview runs exactly when a filter
      is chosen and the overlay exists, with a single pending tick. */
  lemma FilterClickCycles(f: FilterState)
    requires FilterInv(f)
    ensures var g := OnFilterClick(f);
      && g.currentFilter == (if f.currentFilter == FILTER_COUNT - 1 then 0 else f.currentFilter + 1)
      && (g.running <==> g.currentFilter != 0 && f.overlayPresent)
      && g.ticks <= 1
      && OnFilterClick(OnFilterClick(g)).currentFilter == f.currentFilter
  {
    var g := OnFilterClick(f);
    FilterClickInv(f);
    FilterClickInv(g);
  }

  /** Starting or stopping the preview twice is the same as once: the loop never runs twice. */
  lemma FilterPreviewIdempotent(f: FilterState)
    ensures StartFilterPreview(StartFilterPreview(f)) == StartFilterPreview(f)
    ensures StopFilterPreview(StopFilterPreview(f)) == StopFilterPreview(f)
    ensures f.overlayPresent ==> StartFilterPreview(f).running && StartFilterPreview(f).ticks == 1
    ensures !f.overlayPresent ==> StartFilterPreview(f) == f
    ensures !StopFilterPreview(f).running && StopFilterPreview(f).ticks == 0
  {
  }

  /** The filter loop ends at the first tick after the preview stopped, and reschedules itself
      exactly while it runs. */
  lemma FilterLoopEnds(f: FilterState)
    requires f.ticks > 0
    ensures f.running ==> OnFilterTick(f) == f
    ensures !f.running ==> OnFilterTick(f) == f.(ticks := f.ticks - 1)
  {
  }

  /** From the screen's start, the torch is never switched on while the front camera is selected,
      and the flash flag is off whenever the front camera is selected. */
  lemma FrontCameraNeverLit(overlayPresent: bool, es: seq<Event>)
    requires Runnable(Initial(overlayPresent), es)
    ensures var t := Run(Initial(overlayPresent), es);
      && (forall i :: 0 <= i < |t.effects| && t.effects[i].TorchSet? && t.effects[i].selected == Front
            ==> !t.effects[i].on)
      && (t.binding.facing == Front ==> !t.binding.flashEnabled)
  {
    InitialInv(overlayPresent);
    RunPreservesInv(Initial(overlayPresent), es);
  }

  /** A successful bind attaches preview and photo capture, analysis exactly in smart mode and
      video exactly when the recorder could be built, on the selected camera. A failed bind
      leaves nothing bound and the previous camera in currentCamera; a provider that fails leaves
      everything but the pending listener as it was. */
  lemma BindAttachesUseCases(s: CameraState, ok: bool, rb: bool, bs: bool)
    requires Enabled(s, ProviderReady(ok, rb, bs))
    ensures var t := Step(s, ProviderReady(ok, rb, bs));
      && (ok && bs ==>
            && t.binding.currentCamera == Some(s.binding.facing)
            && PreviewUse in t.binding.bound && ImageCaptureUse in t.binding.bound
            && (AnalysisUse in t.binding.bound <==> s.binding.smartMode)
            && (VideoUse in t.binding.bound <==> rb))
      && (ok && !bs ==> t.binding.bound == {} && t.binding.currentCamera == s.binding.currentCamera)
      && (ok ==> t.media.imageCaptureReady && t.media.recorderReady == rb)
      && (!ok ==> t == s.(binding := s.binding.(pendingBinds := s.binding.pendingBinds - 1)))
  {
  }

  /** In smart mode every bind creates a new analyzer and overwrites the field without closing
      the one it held: the old analyzer stays open and is no longer reachable. */
  lemma RebindInSmartModeLeaksAnalyzer(s: CameraState, rb: bool, bs: bool)
    requires Inv(s) && !s.destroyed && Enabled(s, ProviderReady(true, rb, bs))
    requires s.binding.smartMode && s.binding.smartAnalyzer.Some?
    ensures var t := Step(s, ProviderReady(true, rb, bs));
      var a := s.binding.smartAnalyzer.value;
      && t.binding.smartAnalyzer == Some(s.binding.nextAnalyzer)
      && a != s.binding.nextAnalyzer
      && a in t.binding.liveAnalyzers
      && AnalyzerClosed(a) !in t.effects[|s.effects|..]
      && !OneLiveAnalyzer(t.binding)
  {
    var t := Step(s, ProviderReady(true, rb, bs));
    var s1 := s.(binding := s.binding.(pendingBinds := s.binding.pendingBinds - 1, bound := {}),
                 media := s.media.(imageCaptureReady := true, recorderReady := rb));
    var s3 := AttachUseCases(CreateAnalyzer(s1), rb, bs);
    assert t == UpdateTorch(s3);
    var n := s.binding.nextAnalyzer;
    var x := [AnalyzerCreated(n)] + (if s3.binding.currentCamera.Some? then [TorchSet(
               if s3.binding.facing == Front then false else s3.binding.flashEnabled,
               s3.binding.facing, s3.binding.currentCamera.value)] else []);
    assert t.effects == s.effects + x;
    assert t.effects[|s.effects|..] == x;
  }

  /** Every analyzer created and not closed is the one the field holds. */
  ghost predicate OneLiveAnalyzer(b: BindingState)
  {
    b.liveAnalyzers == (if b.smartAnalyzer.Some? then {b.smartAnalyzer.value} else {})
  }

  /** The evidently intended creation, as the comments on bindCameraUseCases describe it: the
      analyzer the field holds is reused, and one is created only when the field is null. */
  function ReuseOrCreateAnalyzer(s: CameraState): CameraState
  {
    if s.binding.smartMode && s.binding.smartAnalyzer.None? then CreateAnalyzer(s) else s
  }

  /** bindCameraUseCases with the analyzer reused across binds. */
  function CorrectedBindCameraUseCases(s: CameraState, recorderBuilds: bool, bindSucceeds: bool): CameraState
  {
    var s1 := s.(binding := s.binding.(bound := {}),
                 media := s.media.(imageCaptureReady := true, recorderReady := recorderBuilds));
    UpdateTorch(AttachUseCases(ReuseOrCreateAnalyzer(ReleaseAnalyzer(s1)), recorderBuilds, bindSucceeds))
  }

  /** With the analyzer reused, a bind leaves exactly the analyzer smart mode asks for open: none
      when it is off (the held one is closed), one when it is on. A bind in smart mode that finds
      an analyzer keeps it and creates none. */
  lemma CorrectedBindKeepsOneAnalyzer(s: CameraState, rb: bool, bs: bool)
    requires OneLiveAnalyzer(s.binding)
    ensures var t := CorrectedBindCameraUseCases(s, rb, bs);
      && OneLiveAnalyzer(t.binding)
      && (t.binding.smartAnalyzer.Some? <==> s.binding.smartMode)
      && (s.binding.smartMode && s.binding.smartAnalyzer.Some? ==>
            t.binding.smartAnalyzer == s.binding.smartAnalyzer
            && forall i :: |s.effects| <= i < |t.effects| ==> !t.effects[i].AnalyzerCreated?)
      && (!s.binding.smartMode && s.binding.smartAnalyzer.Some? ==>
            t.effects[|s.effects|] == AnalyzerClosed(s.binding.smartAnalyzer.value))
  {
    var s1 := s.(binding := s.binding.(bound := {}),
                 media := s.media.(imageCaptureReady := true, recorderReady := rb));
    var s2 := ReleaseAnalyzer(s1);
    var s3 := ReuseOrCreateAnalyzer(s2);
    assert OneLiveAnalyzer(s3.binding);
    var s4 := AttachUseCases(s3, rb, bs);
    assert s4.binding.smartAnalyzer == s3.binding.smartAnalyzer && s4.binding.liveAnalyzers == s3.binding.liveAnalyzers;
    var t := UpdateTorch(s4);
    assert t.effects[..|s4.effects|] == s4.effects;
    if s.binding.smartMode && s.binding.smartAnalyzer.Some? {
      assert s4.effects == s.effects;
      assert |t.effects| <= |s.effects| + 1;
    }
    if !s.binding.smartMode && s.binding.smartAnalyzer.Some? {
      assert s2.effects == s.effects + [AnalyzerClosed(s.binding.smartAnalyzer.value)];
      assert s4.effects == s2.effects;
      assert t.effects[|s.effects|] == s2.effects[|s.effects|];
    }
  }

  /** The same two binds as in the leak, with the analyzer reused: the second bind keeps the
      analyzer of the first and creates none. */
  lemma CorrectedRebindReusesAnalyzer(s: CameraState, rb: bool, bs: bool)
    requires OneLiveAnalyzer(s.binding) && s.binding.smartMode && s.binding.smartAnalyzer.None?
    ensures var t1 := CorrectedBindCameraUseCases(s, rb, bs);
      var t2 := CorrectedBindCameraUseCases(t1, rb, bs);
      && t1.binding.smartAnalyzer == Some(s.binding.nextAnalyzer)
      && t2.binding.smartAnalyzer == t1.binding.smartAnalyzer
      && t2.binding.liveAnalyzers == {s.binding.nextAnalyzer}
      && t2.binding.nextAnalyzer == t1.binding.nextAnalyzer
  {
    CorrectedBindKeepsOneAnalyzer(s, rb, bs);
    var t1 := CorrectedBindCameraUseCases(s, rb, bs);
    CorrectedBindKeepsOneAnalyzer(t1, rb, bs);
  }

  /** With smart mode off, the next bind closes the analyzer once and clears the field. */
  lemma SmartOffClosesAnalyzer(s: CameraState, rb: bool, bs: bool)
    requires Inv(s) && Enabled(s, ProviderReady(true, rb, bs))
    requires !s.binding.smartMode && s.binding.smartAnalyzer.Some?
    ensures var t := Step(s, ProviderReady(true, rb, bs));
      var a := s.binding.smartAnalyzer.value;
      && t.binding.smartAnalyzer.None?
      && a !in t.binding.liveAnalyzers
      && t.effects[|s.effects|] == AnalyzerClosed(a)
      && AnalyzerClosed(a) !in t.effects[|s.effects| + 1..]
  {
    var t := Step(s, ProviderReady(true, rb, bs));
    var a := s.binding.smartAnalyzer.value;
    var s2 := ReleaseAnalyzer(s.(binding := s.binding.(pendingBinds := s.binding.pendingBinds - 1, bound := {}),
                                 media := s.media.(imageCaptureReady := true, recorderReady := rb)));
    var s3 := AttachUseCases(s2, rb, bs);
    assert t == UpdateTorch(s3);
    var y := if s3.binding.currentCamera.Some? then [TorchSet(
               if s3.binding.facing == Front then false else s3.binding.flashEnabled,
               s3.binding.facing, s3.binding.currentCamera.value)] else [];
    assert t.effects == s.effects + [AnalyzerClosed(a)] + y;
    assert t.effects[|s.effects| + 1..] == y;
  }

  /** Two binds in smart mode from the screen's start leave the first analyzer open and
      unreachable. */
  lemma SmartModeLeakExample()
    ensures var es := [SmartClick, ProviderReady(true, true, true), SwitchClick,
                       ProviderReady(true, true, true)];
      && Runnable(Initial(true), es)
      && var t := Run(Initial(true), es);
      && t.binding.smartAnalyzer == Some(1)
      && 0 in t.binding.liveAnalyzers
      && AnalyzerClosed(0) !in t.effects
  {
    var s0 := Initial(true);
    var s1 := Step(s0, SmartClick);
    var s2 := Step(s1, ProviderReady(true, true, true));
    assert s2.binding.smartAnalyzer == Some(0);
    assert s2.effects == [AnalyzerCreated(0), TorchSet(false, Back, Back)];
    var s3 := Step(s2, SwitchClick);
    var s4 := Step(s3, ProviderReady(true, true, true));
    assert s4.effects == s2.effects + [AnalyzerCreated(1), TorchSet(false, Front, Front)];
    var es := [SmartClick, ProviderReady(true, true, true), SwitchClick, ProviderReady(true, true, true)];
    assert es[1..][1..][1..][1..] == [];
    assert Run(s3, es[1..][1..][1..]) == s4;
  }

  /** updateTorch checks the selected camera, not the one bound last: a flash click after
      switching back to the back camera, while that bind is still pending, asks the front camera
      it still holds to light its torch. */
  lemma TorchRequestedOfFrontCamera()
    ensures var es := [ProviderReady(true, true, true), SwitchClick, ProviderReady(true, true, true),
                       SwitchClick, FlashClick];
      && Runnable(Initial(false), es)
      && var t := Run(Initial(false), es);
      && t.effects[|t.effects| - 1] == TorchSet(true, Back, Front)
  {
    var s0 := Initial(false);
    var s1 := Step(s0, ProviderReady(true, true, true));
    var s2 := Step(s1, SwitchClick);
    var s3 := Step(s2, ProviderReady(true, true, true));
    assert s3.binding.currentCamera == Some(Front);
    var s4 := Step(s3, SwitchClick);
    assert s4.binding.facing == Back && s4.binding.currentCamera == Some(Front);
    var s5 := Step(s4, FlashClick);
    assert s5.effects == s4.effects + [TorchSet(true, Back, Front)];
    var es := [ProviderReady(true, true, true), SwitchClick, ProviderReady(true, true, true),
               SwitchClick, FlashClick];
    assert es[1..][1..][1..][1..][1..] == [];
    assert Run(s4, es[1..][1..][1..][1..]) == s5;
  }

  /** No torch request in the log asks a front camera to light. */
  ghost predicate FrontNeverAsked(es: seq<Effect>)
  {
    forall i :: 0 <= i < |es| && es[i].TorchSet? && es[i].camera == Front ==> !es[i].on
  }

  /** The evidently intended updateTorch, which the comment on its front-camera guard states: the
      torch is asked on only of a back camera, so a front camera still bound while a switch to the
      back camera is pending is asked to keep it off. The flash flag is kept as before. */
  function CorrectedUpdateTorch(s: CameraState): CameraState
  {
    var b := s.binding;
    if b.currentCamera.None? then s
    else
      var flash := if b.facing == Front then false else b.flashEnabled;
      s.(binding := b.(flashEnabled := flash),
         effects := s.effects + [TorchSet(flash && b.currentCamera.value == Back, b.facing, b.currentCamera.value)])
  }

  /** The corrected updateTorch never asks a front camera to light, keeps the flash flag as the
      original does, and differs from it only while the bound camera is not the selected one. */
  lemma CorrectedTorchNeverLightsFront(s: CameraState)
    ensures FrontNeverAsked(s.effects) ==> FrontNeverAsked(CorrectedUpdateTorch(s).effects)
    ensures CorrectedUpdateTorch(s).binding == UpdateTorch(s).binding
    ensures s.binding.currentCamera == Some(s.binding.facing) ==> CorrectedUpdateTorch(s) == UpdateTorch(s)
    ensures s.binding.currentCamera == Some(Back) ==> CorrectedUpdateTorch(s) == UpdateTorch(s)
  {
    var t := CorrectedUpdateTorch(s);
    if s.binding.currentCamera.Some? && FrontNeverAsked(s.effects) {
      forall i | 0 <= i < |t.effects| && t.effects[i].TorchSet? && t.effects[i].camera == Front
        ensures !t.effects[i].on
      {
        if i < |s.effects| { assert t.effects[i] == s.effects[i]; }
      }
    }
  }

  /** onDestroy stops the filter loop and the long-press timer, closes the analyzer the field
      holds and asks a running recording to stop; afterwards only the provider listeners still
      pending and the recorder's events arrive. */
  lemma DestroyReleases(s: CameraState, e: Event)
    requires Enabled(s, Destroy)
    ensures var t := Step(s, Destroy);
      && !t.filter.running && t.filter.ticks == 0 && t.press.timers == 0
      && (s.binding.smartAnalyzer.Some? ==>
            AnalyzerClosed(s.binding.smartAnalyzer.value) in t.effects[|s.effects|..]
            && t.binding.smartAnalyzer == s.binding.smartAnalyzer)
      && (s.media.isRecording && s.media.currentRecording.Some? ==>
            RecordingStopRequested(s.media.currentRecording.value) in t.effects[|s.effects|..])
      && (!OutlivesDestroy(e) ==> !Enabled(t, e))
  {
    var t := Step(s, Destroy);
    var b := s.binding;
    var x := (if b.smartAnalyzer.Some? then [AnalyzerClosed(b.smartAnalyzer.value)] else [])
             + (if s.media.isRecording && s.media.currentRecording.Some?
                then [RecordingStopRequested(s.media.currentRecording.value)] else []);
    assert t.effects == s.effects + x;
    assert t.effects[|s.effects|..] == x;
  }

  /** The switch button flips the camera, turns the flash off on the front camera, and asks for a
      new bind; two switches select the camera again. */
  lemma SwitchFlipsFacing(b: BindingState)
    ensures var c := OnSwitchClick(b);
      && c.facing != b.facing
      && (c.facing == Front ==> !c.flashEnabled)
      && (c.facing == Back ==> c.flashEnabled == b.flashEnabled)
      && c.pendingBinds == b.pendingBinds + 1
      && OnSwitchClick(c).facing == b.facing
  {
  }

  /** The smart button toggles smart mode and asks for a new bind, which applies it. */
  lemma SmartClickRebinds(b: BindingState)
    ensures var c := OnSmartClick(b);
      c.smartMode != b.smartMode && c.pendingBinds == b.pendingBinds + 1
      && OnSmartClick(c).smartMode == b.smartMode
  {
  }

  /** On the front camera the flash button only shows a notice; on the back camera it toggles the
      flash and, once a camera is bound, sets its torch to the new value. */
  lemma FlashTogglesOnBackOnly(s: CameraState)
    requires Inv(s)
    ensures var t := OnFlashClick(s);
      && (s.binding.facing == Front ==> t.binding == s.binding && t.effects == s.effects + [FlashUnavailable])
      && (s.binding.facing == Back ==> t.binding.flashEnabled == !s.binding.flashEnabled)
      && (s.binding.facing == Back && s.binding.currentCamera.Some? ==>
            t.effects == s.effects + [TorchSet(!s.binding.flashEnabled, Back, s.binding.currentCamera.value)])
  {
  }

  // ---------------------------------------------------------------------------
  // Callbacks that outlive onDestroy

  /** A step of the destroyed screen in smart mode closes no analyzer: smart mode can no longer
      change, so a late bind only creates one, and the recorder's events leave the binding alone. */
  lemma DestroyedStepClosesNothing(s: CameraState, e: Event)
    requires s.destroyed && s.binding.smartMode && Enabled(s, e)
    ensures var u := Step(s, e);
      && u.destroyed && u.binding.smartMode
      && s.binding.liveAnalyzers <= u.binding.liveAnalyzers
      && |s.effects| <= |u.effects| && u.effects[..|s.effects|] == s.effects
      && forall i :: |s.effects| <= i < |u.effects| ==> !u.effects[i].AnalyzerClosed?
  {
    var u := Step(s, e);
    match e
    case ProviderReady(ok, rb, bs) => {
      if ok {
        var s1 := s.(binding := s.binding.(pendingBinds := s.binding.pendingBinds - 1, bound := {}),
                     media := s.media.(imageCaptureReady := true, recorderReady := rb));
        var s3 := AttachUseCases(CreateAnalyzer(s1), rb, bs);
        assert u == UpdateTorch(s3);
        var x := [AnalyzerCreated(s.binding.nextAnalyzer)] + (if s3.binding.currentCamera.Some? then [TorchSet(
                   if s3.binding.facing == Front then false else s3.binding.flashEnabled,
                   s3.binding.facing, s3.binding.currentCamera.value)] else []);
        assert u.effects == s.effects + x;
      }
    }
    case _ => {}
  }

  /** Once the screen is destroyed in smart mode, no analyzer is ever closed again: every analyzer
      open at that point, and every one a late bind creates, stays open for good. */
  lemma {:induction false} NothingClosedAfterDestroy(s: CameraState, es: seq<Event>)
    requires s.destroyed && s.binding.smartMode && Runnable(s, es)
    ensures var t := Run(s, es);
      && s.binding.liveAnalyzers <= t.binding.liveAnalyzers
      && |s.effects| <= |t.effects| && t.effects[..|s.effects|] == s.effects
      && forall i :: |s.effects| <= i < |t.effects| ==> !t.effects[i].AnalyzerClosed?
    decreases |es|
  {
    if es != [] {
      var u := Step(s, es[0]);
      DestroyedStepClosesNothing(s, es[0]);
      NothingClosedAfterDestroy(u, es[1..]);
      var t := Run(s, es);
      assert t == Run(u, es[1..]);
      assert t.effects[..|u.effects|] == u.effects;
      assert t.effects[..|s.effects|] == u.effects[..|s.effects|];
      forall i | |s.effects| <= i < |t.effects|
        ensures !t.effects[i].AnalyzerClosed?
      {
        if i < |u.effects| {
          assert t.effects[i] == t.effects[..|u.effects|][i] == u.effects[i];
        }
      }
    }
  }

  /** A provider listener still pending when the screen is destroyed binds anyway: in smart mode
      it creates an analyzer that the field then holds, and nothing will close it. */
  lemma BindAfterDestroyLeaksAnalyzer(s: CameraState, rb: bool, bs: bool)
    requires s.destroyed && s.binding.smartMode && s.binding.pendingBinds > 0
    ensures var t := Step(s, ProviderReady(true, rb, bs));
      var n := s.binding.nextAnalyzer;
      && t.binding.smartAnalyzer == Some(n)
      && n in t.binding.liveAnalyzers
      && AnalyzerCreated(n) in t.effects[|s.effects|..]
      && forall es :: Runnable(t, es) ==> n in Run(t, es).binding.liveAnalyzers
  {
    var t := Step(s, ProviderReady(true, rb, bs));
    var n := s.binding.nextAnalyzer;
    var s1 := s.(binding := s.binding.(pendingBinds := s.binding.pendingBinds - 1, bound := {}),
                 media := s.media.(imageCaptureReady := true, recorderReady := rb));
    var s3 := AttachUseCases(CreateAnalyzer(s1), rb, bs);
    assert t == UpdateTorch(s3);
    assert t.effects[|s.effects|] == AnalyzerCreated(n);
    forall es | Runnable(t, es)
      ensures n in Run(t, es).binding.liveAnalyzers
    {
      NothingClosedAfterDestroy(t, es);
    }
  }

  /** Smart mode on, the screen destroyed before its first bind, and the bind run afterwards (and
      failing on the destroyed lifecycle): analyzer 0 is held, open and never closed. */
  lemma DestroyedScreenLeakExample()
    ensures var es := [SmartClick, Destroy, ProviderReady(true, true, false)];
      && Runnable(Initial(true), es)
      && var t := Run(Initial(true), es);
      && t.destroyed && t.binding.bound == {}
      && t.binding.smartAnalyzer == Some(0)
      && 0 in t.binding.liveAnalyzers
      && AnalyzerClosed(0) !in t.effects
  {
    var s0 := Initial(true);
    var s1 := Step(s0, SmartClick);
    var s2 := Step(s1, Destroy);
    assert s2.effects == [] && s2.binding.pendingBinds == 2;
    var s3 := Step(s2, ProviderReady(true, true, false));
    assert s3.effects == [AnalyzerCreated(0)];
    var es := [SmartClick, Destroy, ProviderReady(true, true, false)];
    assert es[1..][1..][1..] == [];
    assert Run(s2, es[1..][1..]) == s3;
  }

  /** The evidently intended provider listener, matching the cleanup onDestroy promises: a
      listener that runs after onDestroy binds nothing and creates no analyzer. */
  function CorrectedOnProviderReady(s: CameraState, providerOk: bool, recorderBuilds: bool, bindSucceeds: bool): CameraState
    requires s.binding.pendingBinds > 0
  {
    if s.destroyed then s.(binding := s.binding.(pendingBinds := s.binding.pendingBinds - 1))
    else OnProviderReady(s, providerOk, recorderBuilds, bindSucceeds)
  }

  /** With the corrected listener, a screen that held at most its one analyzer has none open once
      destroyed, and a listener that runs late opens none; while the screen lives the listener
      is the original one. */
  lemma CorrectedDestroyLeavesNoAnalyzer(s: CameraState, ok: bool, rb: bool, bs: bool)
    requires OneLiveAnalyzer(s.binding) && s.binding.pendingBinds > 0
    ensures !s.destroyed ==> CorrectedOnProviderReady(s, ok, rb, bs) == OnProviderReady(s, ok, rb, bs)
    ensures var d := OnDestroy(s);
      var t := CorrectedOnProviderReady(d, ok, rb, bs);
      && d.binding.liveAnalyzers == {}
      && t.binding.liveAnalyzers == {}
      && t.effects == d.effects
      && t.binding.bound == s.binding.bound
  {
  }
}
