/** The camera screen as an object whose handlers update its fields in place. Each handler is
    proved to move the fields exactly as the corresponding step of CameraControl does, so the
    invariant and the lemmas proved there hold of the object. */
module CameraScreen {
  import opened JavaText
  import CameraControl

  class CameraActivity {
    var cameraSelector: CameraControl.Facing
    var smartMode: bool
    var currentFilter: int
    var filterRunning: bool
    var filterTicks: nat
    var overlayPresent: bool
    var overlayVisible: bool
    var captureButtonPressed: bool
    var pendingLongPress: bool
    var pressTimers: nat
    ghost var pressStart: nat
    var imageCaptureReady: bool
    var recorderReady: bool
    var isRecording: bool
    var currentRecording: Option<nat>
    var nextRecording: nat
    ghost var liveRecordings: nat
    var flashEnabled: bool
    var currentCamera: Option<CameraControl.Facing>
    var bound: set<CameraControl.UseCase>
    var smartAnalyzer: Option<nat>
    var nextAnalyzer: nat
    ghost var liveAnalyzers: set<nat>
    var pendingBinds: nat
    var destroyed: bool
    ghost var effects: seq<CameraControl.Effect>

    ghost function State(): CameraControl.CameraState
      reads this
    {
      CameraControl.CameraState(
        CameraControl.FilterState(currentFilter, filterRunning, filterTicks, overlayPresent, overlayVisible),
        CameraControl.PressState(captureButtonPressed, pendingLongPress, pressTimers, pressStart),
        CameraControl.MediaState(imageCaptureReady, recorderReady, isRecording, currentRecording,
                                 nextRecording, liveRecordings),
        CameraControl.BindingState(cameraSelector, flashEnabled, smartMode, currentCamera, bound,
                                   smartAnalyzer, nextAnalyzer, liveAnalyzers, pendingBinds),
        destroyed, effects)
    }

    ghost predicate Valid()
      reads this
    {
      CameraControl.Inv(State())
    }

    /** onCreate with camera permission: the fields' initial values and one startCamera(). */
    constructor(overlayPresent: bool)
      ensures State() == CameraControl.Initial(overlayPresent) && Valid()
    {
      cameraSelector := CameraControl.Back;
      smartMode := false;
      currentFilter := 0;
      filterRunning := false;
      filterTicks := 0;
      this.overlayPresent := overlayPresent;
      overlayVisible := false;
      captureButtonPressed := false;
      pendingLongPress := false;
      pressTimers := 0;
      pressStart := 0;
      imageCaptureReady := false;
      recorderReady := false;
      isRecording := false;
      currentRecording := None;
      nextRecording := 0;
      liveRecordings := 0;
      flashEnabled := false;
      currentCamera := None;
      bound := {};
      smartAnalyzer := None;
      nextAnalyzer := 0;
      liveAnalyzers := {};
      pendingBinds := 1;
      destroyed := false;
      effects := [];
      new;
      CameraControl.InitialInv(overlayPresent);
    }

    // -------------------------------------------------------------------------
    // Private helpers

    method TakePhoto()
      modifies this
      ensures State() == CameraControl.TakePhoto(old(State()))
    {
      if !imageCaptureReady {
        effects := effects + [CameraControl.PhotoSkipped];
        return;
      }
      effects := effects + [CameraControl.PhotoTaken];
    }

    method StartRecording(hasAudio: bool)
      modifies this
      ensures State() == CameraControl.StartRecording(old(State()), hasAudio)
    {
      if !recorderReady {
        effects := effects + [CameraControl.RecordingRefused];
        return;
      }
      if !hasAudio {
        effects := effects + [CameraControl.AudioPermissionRequested];
      }
      currentRecording := Some(nextRecording);
      effects := effects + [CameraControl.RecordingStarted(nextRecording, hasAudio)];
      nextRecording := nextRecording + 1;
      liveRecordings := liveRecordings + 1;
    }

    method StopRecording()
      modifies this
      ensures State() == CameraControl.StopRecording(old(State()))
    {
      if currentRecording.Some? {
        effects := effects + [CameraControl.RecordingStopRequested(currentRecording.value)];
      }
    }

    method StopFilterPreview()
      modifies this
      ensures State() == old(State()).(filter := CameraControl.StopFilterPreview(old(State()).filter))
    {
      filterRunning := false;
      filterTicks := 0;
      overlayVisible := false;
    }

    method StartFilterPreview()
      modifies this
      ensures State() == old(State()).(filter := CameraControl.StartFilterPreview(old(State()).filter))
    {
      if !overlayPresent {
        return;
      }
      filterRunning := true;
      overlayVisible := true;
      filterTicks := 0;               // removeCallbacks(filterLoopRunnable)
      filterTicks := filterTicks + 1; // post(filterLoopRunnable)
    }

    method UpdateTorch()
      modifies this
      ensures State() == CameraControl.UpdateTorch(old(State()))
    {
      if currentCamera.Some? {
        if cameraSelector == CameraControl.Front {
          flashEnabled := false;
        }
        effects := effects + [CameraControl.TorchSet(flashEnabled, cameraSelector, currentCamera.value)];
      }
    }

    method StartCamera()
      modifies this
      ensures State() == old(State()).(binding := CameraControl.StartCamera(old(State()).binding))
    {
      pendingBinds := pendingBinds + 1;
    }

    method ReleaseAnalyzer()
      modifies this
      ensures State() == CameraControl.ReleaseAnalyzer(old(State()))
    {
      if !smartMode && smartAnalyzer.Some? {
        effects := effects + [CameraControl.AnalyzerClosed(smartAnalyzer.value)];
        liveAnalyzers := liveAnalyzers - {smartAnalyzer.value};
        smartAnalyzer := None;
      }
    }

    method CreateAnalyzer()
      modifies this
      ensures State() == CameraControl.CreateAnalyzer(old(State()))
    {
      if smartMode {
        smartAnalyzer := Some(nextAnalyzer);
        liveAnalyzers := liveAnalyzers + {nextAnalyzer};
        effects := effects + [CameraControl.AnalyzerCreated(nextAnalyzer)];
        nextAnalyzer := nextAnalyzer + 1;
      }
    }

    method AttachUseCases(recorderBuilds: bool, bindSucceeds: bool)
      modifies this
      ensures State() == CameraControl.AttachUseCases(old(State()), recorderBuilds, bindSucceeds)
    {
      if bindSucceeds {
        bound := CameraControl.UseCases(smartMode, recorderBuilds);
        currentCamera := Some(cameraSelector);
      }
    }

    method BindCameraUseCases(recorderBuilds: bool, bindSucceeds: bool)
      modifies this
      ensures State() == CameraControl.BindCameraUseCases(old(State()), recorderBuilds, bindSucceeds)
    {
      ghost var s0 := State();
      bound := {};
      imageCaptureReady := true;
      recorderReady := recorderBuilds;
      ghost var s1 := State();
      assert s1 == s0.(binding := s0.binding.(bound := {}),
                       media := s0.media.(imageCaptureReady := true, recorderReady := recorderBuilds));
      ReleaseAnalyzer();
      CreateAnalyzer();
      AttachUseCases(recorderBuilds, bindSucceeds);
      ghost var s4 := State();
      assert s4 == CameraControl.AttachUseCases(CameraControl.CreateAnalyzer(CameraControl.ReleaseAnalyzer(s1)),
                                                recorderBuilds, bindSucceeds);
      UpdateTorch();
    }

    /** The analyzer close of onDestroy, which leaves the field as it is. */
    method CloseAnalyzer()
      modifies this
      ensures var s := old(State()); var b := s.binding;
        State() == if b.smartAnalyzer.Some? then
          s.(binding := b.(liveAnalyzers := b.liveAnalyzers - {b.smartAnalyzer.value}),
             effects := s.effects + [CameraControl.AnalyzerClosed(b.smartAnalyzer.value)])
        else s
    {
      if smartAnalyzer.Some? {
        effects := effects + [CameraControl.AnalyzerClosed(smartAnalyzer.value)];
        liveAnalyzers := liveAnalyzers - {smartAnalyzer.value};
      }
    }

    // -------------------------------------------------------------------------
    // Event handlers

    method OnTouchDown()
      requires Valid() && CameraControl.Enabled(State(), CameraControl.TouchDown)
      modifies this
      ensures Valid() && State() == CameraControl.Step(old(State()), CameraControl.TouchDown)
    {
      CameraControl.StepPreservesInv(State(), CameraControl.TouchDown);
      captureButtonPressed := true;
      pendingLongPress := false;
      pressStart := |effects|;
      pressTimers := pressTimers + 1;   // postDelayed(startRecordingRunnable, LONG_PRESS_THRESHOLD_MS)
    }

    /** ACTION_UP and ACTION_CANCEL. */
    method OnTouchUp()
      requires Valid() && CameraControl.Enabled(State(), CameraControl.TouchUp)
      modifies this
      ensures Valid() && State() == CameraControl.Step(old(State()), CameraControl.TouchUp)
    {
      ghost var s0 := State();
      CameraControl.StepPreservesInv(s0, CameraControl.TouchUp);
      assert CameraControl.Step(s0, CameraControl.TouchUp) == CameraControl.OnTouchUp(s0);
      pressTimers := 0;                 // removeCallbacks(startRecordingRunnable)
      ghost var s1 := State();
      assert s1 == s0.(press := s0.press.(timers := 0));
      if !pendingLongPress {
        TakePhoto();
      } else {
        StopRecording();
      }
      ghost var s2 := State();
      assert s2 == if !s1.press.pendingLongPress then CameraControl.TakePhoto(s1) else CameraControl.StopRecording(s1);
      captureButtonPressed := false;
      pendingLongPress := false;
      assert State() == s2.(press := s2.press.(pressed := false, pendingLongPress := false));
    }

    /** startRecordingRunnable, with the audio permission the user has granted at that time. */
    method StartRecordingRunnable(hasAudio: bool)
      requires Valid() && CameraControl.Enabled(State(), CameraControl.LongPressTimer(hasAudio))
      modifies this
      ensures Valid() && State() == CameraControl.Step(old(State()), CameraControl.LongPressTimer(hasAudio))
    {
      CameraControl.StepPreservesInv(State(), CameraControl.LongPressTimer(hasAudio));
      pressTimers := pressTimers - 1;
      if captureButtonPressed && !isRecording {
        pendingLongPress := true;
        StartRecording(hasAudio);
      }
    }

    /** The recorder's VideoRecordEvent.Start. */
    method OnRecordingStart()
      requires Valid() && CameraControl.Enabled(State(), CameraControl.RecorderStart)
      modifies this
      ensures Valid() && State() == CameraControl.Step(old(State()), CameraControl.RecorderStart)
    {
      CameraControl.StepPreservesInv(State(), CameraControl.RecorderStart);
      isRecording := true;
    }

    /** The recorder's VideoRecordEvent.Finalize. */
    method OnRecordingFinalize()
      requires Valid() && CameraControl.Enabled(State(), CameraControl.RecorderFinalize)
      modifies this
      ensures Valid() && State() == CameraControl.Step(old(State()), CameraControl.RecorderFinalize)
    {
      CameraControl.StepPreservesInv(State(), CameraControl.RecorderFinalize);
      isRecording := false;
      liveRecordings := liveRecordings - 1;
    }

    method OnFilterClick()
      requires Valid() && CameraControl.Enabled(State(), CameraControl.FilterClick)
      modifies this
      ensures Valid() && State() == CameraControl.Step(old(State()), CameraControl.FilterClick)
    {
      CameraControl.StepPreservesInv(State(), CameraControl.FilterClick);
      currentFilter := (currentFilter + 1) % CameraControl.FILTER_COUNT;
      if currentFilter == 0 {
        StopFilterPreview();
      } else {
        StartFilterPreview();
      }
    }

    /** filterLoopRunnable. */
    method FilterLoopTick()
      requires Valid() && CameraControl.Enabled(State(), CameraControl.FilterTick)
      modifies this
      ensures Valid() && State() == CameraControl.Step(old(State()), CameraControl.FilterTick)
    {
      CameraControl.StepPreservesInv(State(), CameraControl.FilterTick);
      filterTicks := filterTicks - 1;
      if !filterRunning {
        return;
      }
      filterTicks := filterTicks + 1;   // postDelayed(this, FILTER_PERIOD_MS)
    }

    method OnSwitchClick()
      requires Valid() && CameraControl.Enabled(State(), CameraControl.SwitchClick)
      modifies this
      ensures Valid() && State() == CameraControl.Step(old(State()), CameraControl.SwitchClick)
    {
      CameraControl.StepPreservesInv(State(), CameraControl.SwitchClick);
      if cameraSelector == CameraControl.Back {
        cameraSelector := CameraControl.Front;
        flashEnabled := false;
      } else {
        cameraSelector := CameraControl.Back;
      }
      StartCamera();
    }

    method OnSmartClick()
      requires Valid() && CameraControl.Enabled(State(), CameraControl.SmartClick)
      modifies this
      ensures Valid() && State() == CameraControl.Step(old(State()), CameraControl.SmartClick)
    {
      CameraControl.StepPreservesInv(State(), CameraControl.SmartClick);
      smartMode := !smartMode;
      StartCamera();
    }

    method OnFlashClick()
      requires Valid() && CameraControl.Enabled(State(), CameraControl.FlashClick)
      modifies this
      ensures Valid() && State() == CameraControl.Step(old(State()), CameraControl.FlashClick)
    {
      CameraControl.StepPreservesInv(State(), CameraControl.FlashClick);
      if cameraSelector == CameraControl.Front {
        effects := effects + [CameraControl.FlashUnavailable];
        return;
      }
      flashEnabled := !flashEnabled;
      UpdateTorch();
    }

    /** The listener startCamera() adds to the provider future. */
    method OnProviderReady(providerOk: bool, recorderBuilds: bool, bindSucceeds: bool)
      requires Valid()
      requires CameraControl.Enabled(State(), CameraControl.ProviderReady(providerOk, recorderBuilds, bindSucceeds))
      modifies this
      ensures Valid()
      ensures State() == CameraControl.Step(old(State()), CameraControl.ProviderReady(providerOk, recorderBuilds, bindSucceeds))
    {
      CameraControl.StepPreservesInv(State(), CameraControl.ProviderReady(providerOk, recorderBuilds, bindSucceeds));
      pendingBinds := pendingBinds - 1;
      if providerOk {
        BindCameraUseCases(recorderBuilds, bindSucceeds);
      }
    }

    method OnDestroy()
      requires Valid() && CameraControl.Enabled(State(), CameraControl.Destroy)
      modifies this
      ensures Valid() && State() == CameraControl.Step(old(State()), CameraControl.Destroy)
    {
      CameraControl.StepPreservesInv(State(), CameraControl.Destroy);
      StopFilterPreview();
      CloseAnalyzer();
      if isRecording {
        StopRecording();
      }
      pressTimers := 0;
      destroyed := true;
    }
  }
}
