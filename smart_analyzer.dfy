/** SmartAnalyzer: runs the text recognizer and the barcode scanner on one camera frame at a time
    and posts one merged line of what they found.

    The two detectors, their futures and the main-thread handler are external: a frame's analysis
    is an admission (analyze) followed later by one completion event carrying both detectors'
    outcomes. Single-flight is an invariant over every sequence of such events. */
module Analyzers {
  import opened JavaText

  const TEXT_LABEL: string := "TEXTO: "
  const CODES_LABEL: string := "QR: "

  /** How a detector's task completed. */
  datatype TaskOutcome<T> = Succeeded(result: T) | Failed

  /** The recognizer's Text (null or the string getText() returns). */
  type TextTask = TaskOutcome<Option<string>>

  /** The scanner's barcode list (null or the raw value of each barcode, each possibly null). */
  type BarcodeTask = TaskOutcome<Option<seq<Option<string>>>>

  // ---------------------------------------------------------------------------
  // Merging the two detectors' results

  /** The text line: present only when the recognizer succeeded with a text that is not blank. */
  function TextPart(text: TextTask): (part: string)
    ensures part != [] <==>
      text.Succeeded? && text.result.Some? && !AllTrimmable(text.result.value)
    ensures part != [] ==> part == TEXT_LABEL + Trim(text.result.value) + "\n"
  {
    if text.Succeeded? && text.result.Some? then
      TrimEmptyIffBlank(text.result.value);
      if Trim(text.result.value) != [] then TEXT_LABEL + Trim(text.result.value) + "\n" else ""
    else ""
  }

  /** The raw values kept from the barcodes: the non-null, non-empty ones, in scan order. */
  function KeptRawValues(raws: seq<Option<string>>): (vals: seq<string>)
    ensures |vals| <= |raws|
    ensures forall k :: 0 <= k < |vals| ==> vals[k] != []
  {
    if raws == [] then []
    else (if raws[0].Some? && raws[0].value != [] then [raws[0].value] else []) + KeptRawValues(raws[1..])
  }

  /** A value is kept exactly when some barcode has it as a non-null, non-empty raw value. */
  lemma {:induction false} KeptRawValuesAreTheNonEmpty(raws: seq<Option<string>>, v: string)
    ensures v in KeptRawValues(raws) <==> v != [] && Some(v) in raws
  {
    if raws != [] {
      KeptRawValuesAreTheNonEmpty(raws[1..], v);
      assert raws == [raws[0]] + raws[1..];
    }
  }

  /** Keeping values commutes with concatenation, so the scan order is preserved. */
  lemma {:induction false} KeptRawValuesAppend(a: seq<Option<string>>, b: seq<Option<string>>)
    ensures KeptRawValues(a + b) == KeptRawValues(a) + KeptRawValues(b)
  {
    if a == [] {
      assert a + b == b;
    } else {
      assert (a + b)[0] == a[0] && (a + b)[1..] == a[1..] + b;
      KeptRawValuesAppend(a[1..], b);
    }
  }

  /** The loop over the barcodes that collects their raw values. */
  method CollectRawValues(raws: seq<Option<string>>) returns (vals: seq<string>)
    ensures vals == KeptRawValues(raws)
  {
    vals := [];
    var i := 0;
    while i < |raws|
      invariant 0 <= i <= |raws|
      invariant vals == KeptRawValues(raws[..i])
    {
      var raw := raws[i];
      var kept := if raw.Some? && raw.value != [] then [raw.value] else [];
      assert KeptRawValues([raw]) == kept by { assert [raw][1..] == []; }
      KeptRawValuesAppend(raws[..i], [raw]);
      assert raws[..i + 1] == raws[..i] + [raw];
      vals := vals + kept;
      i := i + 1;
    }
    assert raws[..i] == raws;
  }

  /** The codes line: present only when the scanner succeeded and some raw value was kept. */
  function CodesPart(codes: BarcodeTask): (part: string)
    ensures part != [] <==>
      codes.Succeeded? && codes.result.Some? && KeptRawValues(codes.result.value) != []
    ensures part != [] ==> part == CODES_LABEL + Join(" ", KeptRawValues(codes.result.value))
  {
    if codes.Succeeded? && codes.result.Some? && codes.result.value != []
       && KeptRawValues(codes.result.value) != [] then
      CODES_LABEL + Join(" ", KeptRawValues(codes.result.value))
    else ""
  }

  /** finalResult: the trimmed contents of the builder, or null when nothing was appended. */
  function FinalResult(sb: string): (r: Option<string>)
    requires sb == [] || !IsTrimmable(sb[0])
    ensures r.None? <==> sb == []
    ensures r.Some? ==> r.value == Trim(sb)
    ensures r.Some? ==> r.value != [] && Trim(r.value) == r.value
  {
    if |sb| > 0 then
      TrimEmptyIffBlank(sb);
      TrimIdempotent(sb);
      Some(Trim(sb))
    else None
  }

  /** The string handed to the listener: the text line followed by the codes line, trimmed; null
      when neither line is present. */
  function MergeResults(text: TextTask, codes: BarcodeTask): (r: Option<string>)
    ensures r.None? <==> TextPart(text) == [] && CodesPart(codes) == []
    ensures r.Some? ==> r.value == Trim(TextPart(text) + CodesPart(codes))
    ensures r.Some? ==> r.value != [] && Trim(r.value) == r.value
  {
    var sb := TextPart(text) + CodesPart(codes);
    assert sb == [] || !IsTrimmable(sb[0]) by {
      if TextPart(text) != [] { assert sb[0] == TEXT_LABEL[0]; }
      else if sb != [] { assert sb[0] == CODES_LABEL[0]; }
    }
    FinalResult(sb)
  }

  /** The completion listener's StringBuilder: append the text line, then the codes line, then
      trim; null when nothing was appended. */
  method BuildResult(text: TextTask, codes: BarcodeTask) returns (finalResult: Option<string>)
    ensures finalResult == MergeResults(text, codes)
  {
    var sb := "";
    if text.Succeeded? && text.result.Some? {
      var t := text.result.value;
      if Trim(t) != [] {
        sb := sb + TEXT_LABEL + Trim(t) + "\n";
      }
    }
    assert sb == TextPart(text);
    ghost var textLine := sb;
    if codes.Succeeded? && codes.result.Some? && codes.result.value != [] {
      var vals := CollectRawValues(codes.result.value);
      if vals != [] {
        sb := sb + CODES_LABEL + Join(" ", vals);
        assert CodesPart(codes) == CODES_LABEL + Join(" ", vals);
      } else {
        assert CodesPart(codes) == [];
      }
    } else {
      assert CodesPart(codes) == [];
    }
    assert sb == textLine + CodesPart(codes);
    MergeOfParts(text, codes);
    finalResult := if |sb| > 0 then Some(Trim(sb)) else None;
  }

  /** Whether the listener gets a result: finalResult != null && !finalResult.isEmpty(). */
  predicate Notifies(r: Option<string>)
  {
    r.Some? && r.value != []
  }

  /** The listener is called exactly when at least one detector contributed a line. */
  lemma NotifiesIffSomeLine(text: TextTask, codes: BarcodeTask)
    ensures Notifies(MergeResults(text, codes)) <==> TextPart(text) != [] || CodesPart(codes) != []
  {
  }

  /** The merged result is the final result of the builder holding the text line, then the codes
      line. */
  lemma MergeOfParts(text: TextTask, codes: BarcodeTask)
    ensures var sb := TextPart(text) + CodesPart(codes);
      (sb == [] || !IsTrimmable(sb[0])) && MergeResults(text, codes) == FinalResult(sb)
  {
    var sb := TextPart(text) + CodesPart(codes);
    assert sb == [] || !IsTrimmable(sb[0]) by {
      if TextPart(text) != [] { assert sb[0] == TEXT_LABEL[0]; }
      else if sb != [] { assert sb[0] == CODES_LABEL[0]; }
    }
  }

  /** A builder starting with a kept char is only trimmed at its end. */
  lemma TrimOfKeptStart(s: string)
    requires s != [] && !IsTrimmable(s[0])
    ensures Trim(s) == TrimEnd(s)
  {
    TrimStartOfKept(s);
  }

  /** With text and no codes, the text line loses its trailing newline and nothing else. */
  lemma MergeTextOnly(text: TextTask, codes: BarcodeTask)
    requires TextPart(text) != [] && CodesPart(codes) == []
    ensures MergeResults(text, codes) == Some(TEXT_LABEL + Trim(text.result.value))
  {
    var t := Trim(text.result.value);
    var line := TEXT_LABEL + t;
    var sb := TextPart(text) + CodesPart(codes);
    assert sb == line + "\n";
    MergeOfParts(text, codes);
    assert !IsTrimmable(sb[0]) by { assert sb[0] == TEXT_LABEL[0]; }
    TrimOfKeptStart(sb);
    TrimEndDropsSuffix(line, "\n");
    assert line[|line| - 1] == t[|t| - 1];
    assert TrimEnd(line) == line;
  }

  /** With codes, the text line is kept whole (newline included) and only the end of the codes
      line is trimmed. */
  lemma MergeWithCodes(text: TextTask, codes: BarcodeTask)
    requires CodesPart(codes) != []
    ensures MergeResults(text, codes) == Some(TextPart(text) + TrimEnd(CodesPart(codes)))
  {
    var tp, cp := TextPart(text), CodesPart(codes);
    assert !AllTrimmable(cp) by { assert cp[0] == CODES_LABEL[0]; }
    TrimEndKeepsPrefix(tp, cp);
    MergeOfParts(text, codes);
    TrimOfKeptStart(tp + cp);
  }

  /** When the last kept raw value ends in a visible char the codes line survives trimming whole. */
  lemma CodesLineKeptWhole(codes: BarcodeTask)
    requires CodesPart(codes) != []
    requires var vals := KeptRawValues(codes.result.value); !IsTrimmable(vals[|vals| - 1][|vals[|vals| - 1]| - 1])
    ensures TrimEnd(CodesPart(codes)) == CodesPart(codes)
  {
    var vals := KeptRawValues(codes.result.value);
    var j := Join(" ", vals);
    var cp := CodesPart(codes);
    JoinEndsWithLast(" ", vals);
    var l := vals[|vals| - 1];
    assert j[|j| - 1] == l[|l| - 1];
    assert cp[|cp| - 1] == j[|j| - 1];
    TrimEndOfKept(cp);
  }

  /** A failed detector contributes nothing and the other one is still used. */
  lemma FailedDetectorIsIgnored(text: TextTask, codes: BarcodeTask)
    ensures MergeResults(Failed, codes) == MergeResults(Succeeded(None), codes)
    ensures MergeResults(text, Failed) == MergeResults(text, Succeeded(None))
    ensures MergeResults(Failed, Failed).None?
  {
  }

  /** A text "Hello" and one code "ABC123" give exactly "TEXTO: Hello\nQR: ABC123". */
  lemma MergeExample()
    ensures MergeResults(Succeeded(Some("Hello")), Succeeded(Some([Some("ABC123")])))
         == Some("TEXTO: Hello\nQR: ABC123")
  {
    assert "TEXTO: Hello\n" + "QR: ABC123" == "TEXTO: Hello\nQR: ABC123";
    var text: TextTask := Succeeded(Some("Hello"));
    var codes: BarcodeTask := Succeeded(Some([Some("ABC123")]));
    assert Trim("Hello") == "Hello" by { TrimOfTrimmed("Hello"); }
    assert TextPart(text) == "TEXTO: Hello\n";
    assert KeptRawValues([Some("ABC123")]) == ["ABC123"];
    assert CodesPart(codes) == "QR: ABC123";
    assert TrimEnd("QR: ABC123") == "QR: ABC123";
    MergeWithCodes(text, codes);
  }

  /** A code whose raw value is only blanks is kept, and the line that reaches the listener is the
      bare label "QR:". */
  lemma BlankCodeStillNotifies()
    ensures MergeResults(Failed, Succeeded(Some([Some(" ")]))) == Some("QR:")
  {
    var codes: BarcodeTask := Succeeded(Some([Some(" ")]));
    assert KeptRawValues([Some(" ")]) == [" "];
    assert CodesPart(codes) == "QR:" + "  ";
    assert TrimEnd("QR:" + "  ") == "QR:" by {
      TrimEndDropsSuffix("QR:", "  ");
      assert TrimEnd("QR:") == "QR:";
    }
    MergeWithCodes(Failed, codes);
    assert TextPart(Failed) + TrimEnd(CodesPart(codes)) == "QR:";
  }

  // ---------------------------------------------------------------------------
  // The admission gate as a state machine

  /** A frame handed to analyze(); hasImage is imageProxy.getImage() != null. */
  datatype Frame = Frame(id: nat, hasImage: bool)

  datatype AnalyzerState = AnalyzerState(
    processing: bool,            // isProcessing
    inFlight: Option<nat>,       // the frame the completion listener holds and will close
    arrived: seq<nat>,           // every frame handed to analyze, in order
    admitted: seq<nat>,          // every frame that won the compare-and-set
    completed: seq<nat>,         // every admitted frame whose detectors have both finished
    closed: seq<nat>,            // every imageProxy.close(), in order
    posted: seq<string>,         // every result posted to the listener
    textRecognizerCloses: nat,   // close() calls on the text recognizer
    barcodeScannerCloses: nat)   // close() calls on the barcode scanner

  datatype Event =
    | FrameArrived(frame: Frame)
    | DetectorsCompleted(text: TextTask, codes: BarcodeTask)
    | CloseCalled

  function Initial(): AnalyzerState
  {
    AnalyzerState(false, None, [], [], [], [], [], 0, 0)
  }

  /** Detector completion only happens for a frame that was admitted and not yet completed. */
  predicate Enabled(s: AnalyzerState, e: Event)
  {
    e.DetectorsCompleted? ==> s.inFlight.Some?
  }

  /** analyze(): a frame without image is closed; a frame losing the compare-and-set is closed;
      the winner sets isProcessing and is kept for the completion listener. */
  function Analyze(s: AnalyzerState, frame: Frame): AnalyzerState
  {
    var s := s.(arrived := s.arrived + [frame.id]);
    if !frame.hasImage then s.(closed := s.closed + [frame.id])
    else if s.processing then s.(closed := s.closed + [frame.id])
    else s.(processing := true, inFlight := Some(frame.id), admitted := s.admitted + [frame.id])
  }

  /** The completion listener, given the merged result r: post r if it is a non-empty string, close
      the frame, and clear isProcessing (in a finally block, so also when close throws). */
  function Complete(s: AnalyzerState, r: Option<string>): AnalyzerState
    requires s.inFlight.Some?
  {
    s.(posted := if Notifies(r) then s.posted + [r.value] else s.posted,
       closed := s.closed + [s.inFlight.value],
       completed := s.completed + [s.inFlight.value],
       processing := false,
       inFlight := None)
  }

  /** close(): both recognizers are closed, the second even when closing the first throws. */
  function CloseRecognizers(s: AnalyzerState): AnalyzerState
  {
    s.(textRecognizerCloses := s.textRecognizerCloses + 1,
       barcodeScannerCloses := s.barcodeScannerCloses + 1)
  }

  function Step(s: AnalyzerState, e: Event): AnalyzerState
    requires Enabled(s, e)
  {
    match e
    case FrameArrived(f) => Analyze(s, f)
    case DetectorsCompleted(text, codes) => Complete(s, MergeResults(text, codes))
    case CloseCalled => CloseRecognizers(s)
  }

  predicate Runnable(s: AnalyzerState, es: seq<Event>)
    decreases |es|
  {
    es == [] || (Enabled(s, es[0]) && Runnable(Step(s, es[0]), es[1..]))
  }

  function Run(s: AnalyzerState, es: seq<Event>): AnalyzerState
    requires Runnable(s, es)
    decreases |es|
  {
    if es == [] then s else Run(Step(s, es[0]), es[1..])
  }

  function InFlightFrames(s: AnalyzerState): multiset<nat>
  {
    if s.inFlight.Some? then multiset{s.inFlight.value} else multiset{}
  }

  /** The gate's invariant: isProcessing exactly while one admitted frame awaits completion, the
      admitted frames are completed in order, and every frame that arrived is closed exactly once
      or is the one in flight. */
  ghost predicate Inv(s: AnalyzerState)
  {
    && (s.processing <==> s.inFlight.Some?)
    && |s.admitted| == |s.completed| + (if s.processing then 1 else 0)
    && s.completed == s.admitted[..|s.completed|]
    && (s.inFlight.Some? ==> s.admitted[|s.admitted| - 1] == s.inFlight.value)
    && multiset(s.arrived) == multiset(s.closed) + InFlightFrames(s)
  }

  lemma InitialInv()
    ensures Inv(Initial())
  {
  }

  lemma StepPreservesInv(s: AnalyzerState, e: Event)
    requires Inv(s) && Enabled(s, e)
    ensures Inv(Step(s, e))
  {
    match e
    case FrameArrived(f) => {
      var t := Step(s, e);
      assert t.admitted[..|t.completed|] == s.admitted[..|s.completed|];
    }
    case DetectorsCompleted(text, codes) => {
      var t := Step(s, e);
      assert t.admitted == s.admitted;
    }
    case CloseCalled => {}
  }

  /** Single flight over every run: at most one admitted frame is awaiting completion, and no
      frame is lost or closed twice. */
  lemma {:induction false} RunPreservesInv(s: AnalyzerState, es: seq<Event>)
    requires Inv(s) && Runnable(s, es)
    ensures Inv(Run(s, es))
    ensures |Run(s, es).admitted| - |Run(s, es).completed| <= 1
    decreases |es|
  {
    if es != [] {
      StepPreservesInv(s, es[0]);
      RunPreservesInv(Step(s, es[0]), es[1..]);
    }
  }

  function Arrivals(frames: seq<Frame>): (es: seq<Event>)
    ensures |es| == |frames|
    ensures forall k :: 0 <= k < |frames| ==> es[k] == FrameArrived(frames[k])
  {
    if frames == [] then [] else [FrameArrived(frames[0])] + Arrivals(frames[1..])
  }

  function Ids(frames: seq<Frame>): seq<nat>
  {
    if frames == [] then [] else [frames[0].id] + Ids(frames[1..])
  }

  /** A frame without an image is closed at once and leaves the gate as it was. */
  lemma FrameWithoutImageIsClosed(s: AnalyzerState, f: Frame)
    requires !f.hasImage
    ensures var t := Step(s, FrameArrived(f));
      && t.closed == s.closed + [f.id]
      && t.processing == s.processing && t.inFlight == s.inFlight
      && t.admitted == s.admitted && t.posted == s.posted
  {
  }

  /** close() closes each recognizer once and leaves the frames alone. */
  lemma CloseClosesBoth(s: AnalyzerState)
    ensures var t := Step(s, CloseCalled);
      && t.textRecognizerCloses == s.textRecognizerCloses + 1
      && t.barcodeScannerCloses == s.barcodeScannerCloses + 1
      && t.closed == s.closed && t.processing == s.processing && t.posted == s.posted
  {
  }

  /** While a frame is in flight, every arriving frame is closed at once and the gate stays busy. */
  lemma {:induction false} BusyGateDropsAll(s: AnalyzerState, frames: seq<Frame>)
    requires s.processing
    ensures Runnable(s, Arrivals(frames))
    ensures var t := Run(s, Arrivals(frames));
      t.processing && t.inFlight == s.inFlight && t.admitted == s.admitted
      && t.closed == s.closed + Ids(frames) && t.posted == s.posted
    decreases |frames|
  {
    if frames != [] {
      var es := Arrivals(frames);
      assert es[0] == FrameArrived(frames[0]) && es[1..] == Arrivals(frames[1..]);
      var s' := Step(s, es[0]);
      assert s' == s.(arrived := s.arrived + [frames[0].id], closed := s.closed + [frames[0].id]);
      BusyGateDropsAll(s', frames[1..]);
      assert Ids(frames) == [frames[0].id] + Ids(frames[1..]);
      assert s.closed + Ids(frames) == s'.closed + Ids(frames[1..]);
    }
  }

  /** N frames with images arriving at an idle gate before any completion: the first is admitted
      and the other N - 1 are closed without processing. */
  lemma {:induction false} BurstAdmitsOne(s: AnalyzerState, frames: seq<Frame>)
    requires !s.processing && frames != []
    requires forall k :: 0 <= k < |frames| ==> frames[k].hasImage
    ensures Runnable(s, Arrivals(frames))
    ensures var t := Run(s, Arrivals(frames));
      t.processing && t.inFlight == Some(frames[0].id)
      && t.admitted == s.admitted + [frames[0].id]
      && t.closed == s.closed + Ids(frames[1..])
  {
    var es := Arrivals(frames);
    assert es[0] == FrameArrived(frames[0]) && es[1..] == Arrivals(frames[1..]);
    var s1 := Step(s, es[0]);
    assert s1.processing && s1.inFlight == Some(frames[0].id);
    assert s1.admitted == s.admitted + [frames[0].id] && s1.closed == s.closed;
    BusyGateDropsAll(s1, frames[1..]);
  }

  /** A frame with an image arriving at an idle gate is admitted, and once both detectors have
      completed it is closed, its merged result posted when non-empty, and the gate is idle again. */
  lemma OneFrameRoundTrip(s: AnalyzerState, f: Frame, text: TextTask, codes: BarcodeTask)
    requires Inv(s) && !s.processing && f.hasImage
    ensures var es := [FrameArrived(f), DetectorsCompleted(text, codes)];
      var r := MergeResults(text, codes);
      Runnable(s, es)
      && Run(s, es).posted == s.posted + (if Notifies(r) then [r.value] else [])
      && Run(s, es).closed == s.closed + [f.id]
      && Run(s, es).completed == s.completed + [f.id]
      && !Run(s, es).processing && Inv(Run(s, es))
  {
    var es := [FrameArrived(f), DetectorsCompleted(text, codes)];
    var s1 := Step(s, es[0]);
    assert es[1..][0] == es[1] && es[1..][1..] == [];
    assert Run(s, es) == Run(s1, es[1..]);
    assert Run(s1, es[1..]) == Step(s1, es[1]);
    StepPreservesInv(s, es[0]);
    StepPreservesInv(s1, es[1]);
  }

  // ---------------------------------------------------------------------------
  // The analyzer object

  class SmartAnalyzer {
    var isProcessing: bool
    var inFlight: Option<nat>
    ghost var arrived: seq<nat>
    ghost var admitted: seq<nat>
    ghost var completed: seq<nat>
    ghost var closed: seq<nat>
    ghost var posted: seq<string>
    ghost var textRecognizerCloses: nat
    ghost var barcodeScannerCloses: nat

    ghost function State(): AnalyzerState
      reads this
    {
      AnalyzerState(isProcessing, inFlight, arrived, admitted, completed, closed, posted,
                    textRecognizerCloses, barcodeScannerCloses)
    }

    ghost predicate Valid()
      reads this
    {
      Inv(State())
    }

    /** The recognizers are created once, here; nothing is in flight. */
    constructor ()
      ensures State() == Initial() && Valid()
    {
      isProcessing, inFlight := false, None;
      arrived, admitted, completed, closed, posted := [], [], [], [], [];
      textRecognizerCloses, barcodeScannerCloses := 0, 0;
    }

    method Analyze(frame: Frame)
      requires Valid()
      modifies this
      ensures Valid() && State() == Step(old(State()), FrameArrived(frame))
    {
      StepPreservesInv(State(), FrameArrived(frame));
      arrived := arrived + [frame.id];
      if !frame.hasImage {
        closed := closed + [frame.id];
        return;
      }
      if isProcessing {
        // compareAndSet(false, true) failed: drop the frame
        closed := closed + [frame.id];
        return;
      }
      isProcessing := true;
      inFlight := Some(frame.id);
      admitted := admitted + [frame.id];
    }

    /** Both detector tasks have completed for the frame in flight: merge their results, then post
        and release the frame. */
    method OnDetectorsComplete(text: TextTask, codes: BarcodeTask)
      requires Valid() && inFlight.Some?
      modifies this
      ensures Valid() && State() == Step(old(State()), DetectorsCompleted(text, codes))
    {
      StepPreservesInv(State(), DetectorsCompleted(text, codes));
      var finalResult := BuildResult(text, codes);
      PostAndRelease(finalResult);
    }

    /** The end of the completion listener: post a non-empty result, close the frame, and clear
        isProcessing in the finally block. */
    method PostAndRelease(finalResult: Option<string>)
      requires inFlight.Some?
      modifies this
      ensures State() == Complete(old(State()), finalResult)
    {
      if finalResult.Some? && finalResult.value != [] {
        posted := posted + [finalResult.value];
      }
      closed := closed + [inFlight.value];
      completed := completed + [inFlight.value];
      isProcessing := false;
      inFlight := None;
    }

    method Close()
      requires Valid()
      modifies this
      ensures Valid() && State() == Step(old(State()), CloseCalled)
    {
      textRecognizerCloses := textRecognizerCloses + 1;
      barcodeScannerCloses := barcodeScannerCloses + 1;
    }
  }
}
