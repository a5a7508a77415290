/** The presentation-practice screen: the user uploads a slide deck, presents
    it while the microphone records, and receives feedback. The screen's state
    lives in `PresentationScreen`; the recorder, the file picker, the network
    calls and the toasts are outside it and reach it through parameters. */
module Presentation {
  import opened Wrappers
  import opened JsText

  datatype Step = Upload | Presenting | Results

  const TotalSlides: int := 8

  /** The first file of the picker: its MIME type and its name. */
  datatype File = File(mimeType: string, name: string)

  /** The upload filter: a PDF by MIME type, or a PowerPoint file by name. */
  predicate Accepts(f: File) {
    f.mimeType == "application/pdf" || EndsWith(f.name, ".ppt") || EndsWith(f.name, ".pptx")
  }

  /** `padStart(2, '0')` */
  function PadTwo(s: string): (r: string)
    ensures |s| >= 2 ==> r == s
    ensures |s| < 2 ==> |r| == 2 && r[2 - |s|..] == s && forall k :: 0 <= k < 2 - |s| ==> r[k] == '0'
    decreases 2 - |s|
  {
    if |s| >= 2 then s else PadTwo("0" + s)
  }

  /** `mins:ss`: whole minutes, a colon, and the remaining seconds on two
      digits. */
  function FormatDuration(seconds: nat): (r: string)
    ensures |r| >= 4 && r[|r| - 3] == ':'
    ensures AllDigits(r[..|r| - 3]) && AllDigits(r[|r| - 2..])
    ensures '0' <= r[|r| - 2] <= '5'
    ensures DigitsValue(r[..|r| - 3]) == seconds / 60
    ensures DigitsValue(r[|r| - 2..]) == seconds % 60
  {
    var mins := NatToString(seconds / 60);
    var secs := PadTwo(NatToString(seconds % 60));
    SecondsField(seconds % 60);
    NatToStringRoundTrip(seconds / 60);
    var r := mins + ":" + secs;
    assert r[..|r| - 3] == mins && r[|r| - 2..] == secs;
    r
  }

  /** A seconds count below a minute pads to two digits, the first at most
      5, that read back as the count. */
  lemma SecondsField(secs: nat)
    requires secs < 60
    ensures var f := PadTwo(NatToString(secs));
      |f| == 2 && AllDigits(f) && '0' <= f[0] <= '5' && DigitsValue(f) == secs
  {
    var f := PadTwo(NatToString(secs));
    if secs < 10 {
      assert f == ['0', DigitChar(secs)];
      assert f[..1] == ['0'];
    } else {
      assert NatToString(secs / 10) == [DigitChar(secs / 10)];
      assert f == [DigitChar(secs / 10), DigitChar(secs % 10)];
      var head := f[..1];
      assert head == [DigitChar(secs / 10)] && head[..0] == [];
      assert DigitsValue(head) == DigitValue(f[0]);
      assert DigitsValue(f) == DigitsValue(head) * 10 + DigitValue(f[1]);
    }
  }

  /** Reads a `mins:ss` display back into seconds. */
  function ParseDuration(r: string): (seconds: Option<nat>)
    ensures seconds.Some? ==> |r| >= 4 && r[|r| - 3] == ':'
  {
    if |r| >= 4 && r[|r| - 3] == ':' && AllDigits(r[..|r| - 3]) && AllDigits(r[|r| - 2..]) then
      Some(DigitsValue(r[..|r| - 3]) * 60 + DigitsValue(r[|r| - 2..]))
    else None
  }

  /** Parsing the display gives back the seconds it shows. */
  lemma DurationRoundTrip(seconds: nat)
    ensures ParseDuration(FormatDuration(seconds)) == Some(seconds)
  {
    ReadBack(FormatDuration(seconds), seconds / 60, seconds % 60);
  }

  /** A display with a colon before two digits reads back as its minutes
      and seconds. */
  lemma ReadBack(r: string, mins: nat, secs: nat)
    requires |r| >= 4 && r[|r| - 3] == ':'
    requires AllDigits(r[..|r| - 3]) && AllDigits(r[|r| - 2..])
    requires DigitsValue(r[..|r| - 3]) == mins && DigitsValue(r[|r| - 2..]) == secs
    ensures ParseDuration(r) == Some(mins * 60 + secs)
  {
  }

  /** Two different durations never show the same text. */
  lemma FormatDurationInjective(a: nat, b: nat)
    requires FormatDuration(a) == FormatDuration(b)
    ensures a == b
  {
    DurationRoundTrip(a);
    DurationRoundTrip(b);
  }

  class PresentationScreen {
    var step: Step
    var fileName: string
    var currentSlide: int
    var duration: nat
    var feedback: Option<string>
    /** The recorder hook's state: recording, and a finished recording held. */
    var isRecording: bool
    var hasAudio: bool
    var isProcessing: bool

    ghost predicate Valid()
      reads this
    {
      1 <= currentSlide <= TotalSlides
    }

    constructor ()
      ensures Valid()
      ensures step == Upload && fileName == "" && currentSlide == 1 && duration == 0 && feedback == None
      ensures !isRecording && !hasAudio && !isProcessing
    {
      step := Upload;
      fileName := "";
      currentSlide := 1;
      duration := 0;
      feedback := None;
      isRecording := false;
      hasAudio := false;
      isProcessing := false;
    }

    /** `handleFileUpload`, given the picker's first file if any: an accepted
        file's name becomes `fileName`; anything else changes nothing. */
    method UploadFile(file: Option<File>)
      modifies this
      ensures file.Some? && Accepts(file.value) ==> fileName == file.value.name
      ensures !(file.Some? && Accepts(file.value)) ==> fileName == old(fileName)
      ensures step == old(step) && currentSlide == old(currentSlide) && duration == old(duration)
      ensures feedback == old(feedback) && isRecording == old(isRecording)
      ensures hasAudio == old(hasAudio) && isProcessing == old(isProcessing)
    {
      if file.Some? && Accepts(file.value) {
        fileName := file.value.name;
      }
    }

    /** `handleStartPresentation`; `micOk` says whether the recorder could
        open the microphone. */
    method StartPresentation(micOk: bool)
      modifies this
      ensures fileName != "" && micOk ==> step == Presenting && duration == 0 && isRecording
      ensures fileName != "" && micOk ==> !hasAudio
      ensures !(fileName != "" && micOk) ==>
        step == old(step) && duration == old(duration) && isRecording == old(isRecording) && hasAudio == old(hasAudio)
      ensures fileName == old(fileName) && currentSlide == old(currentSlide)
      ensures feedback == old(feedback) && isProcessing == old(isProcessing)
    {
      if fileName == "" {
        return;
      }
      if micOk {
        isRecording := true;
        hasAudio := false;
        step := Presenting;
        duration := 0;
      }
    }

    /** One second of the interval timer, which runs only while recording. */
    method Tick()
      modifies this
      ensures isRecording ==> duration == old(duration) + 1
      ensures !isRecording ==> duration == old(duration)
      ensures step == old(step) && fileName == old(fileName) && currentSlide == old(currentSlide)
      ensures feedback == old(feedback) && isRecording == old(isRecording)
      ensures hasAudio == old(hasAudio) && isProcessing == old(isProcessing)
    {
      if isRecording {
        duration := duration + 1;
      }
    }

    method NextSlide()
      requires Valid()
      modifies this
      ensures Valid()
      ensures old(currentSlide) < TotalSlides ==> currentSlide == old(currentSlide) + 1
      ensures old(currentSlide) == TotalSlides ==> currentSlide == TotalSlides
      ensures step == old(step) && fileName == old(fileName) && duration == old(duration)
      ensures feedback == old(feedback) && isRecording == old(isRecording)
      ensures hasAudio == old(hasAudio) && isProcessing == old(isProcessing)
    {
      if currentSlide < TotalSlides {
        currentSlide := currentSlide + 1;
      }
    }

    method PrevSlide()
      requires Valid()
      modifies this
      ensures Valid()
      ensures old(currentSlide) > 1 ==> currentSlide == old(currentSlide) - 1
      ensures old(currentSlide) == 1 ==> currentSlide == 1
      ensures step == old(step) && fileName == old(fileName) && duration == old(duration)
      ensures feedback == old(feedback) && isRecording == old(isRecording)
      ensures hasAudio == old(hasAudio) && isProcessing == old(isProcessing)
    {
      if currentSlide > 1 {
        currentSlide := currentSlide - 1;
      }
    }

    /** `handleEndSession`: stopping the recorder leaves a recording. */
    method EndSession()
      modifies this
      ensures !isRecording
      ensures hasAudio == (old(hasAudio) || old(isRecording))
      ensures step == old(step) && fileName == old(fileName) && currentSlide == old(currentSlide)
      ensures duration == old(duration) && feedback == old(feedback) && isProcessing == old(isProcessing)
    {
      if isRecording {
        isRecording := false;
        hasAudio := true;
      }
    }

    /** The effect that runs `processPresentation` once a recording exists,
        taken as one step; `analysis` is the feedback of the transcription
        and analysis calls, `None` when either fails. The recording is
        dropped and the processing flag cleared in every case. */
    method ProcessRecording(analysis: Option<string>)
      modifies this
      ensures var runs := old(hasAudio) && !old(isProcessing) && old(step) != Results;
        && (runs ==> !hasAudio && !isProcessing)
        && (runs && analysis.Some? ==> step == Results && feedback == analysis)
        && (!(runs && analysis.Some?) ==> step == old(step) && feedback == old(feedback))
        && (!runs ==> hasAudio == old(hasAudio) && isProcessing == old(isProcessing))
      ensures fileName == old(fileName) && currentSlide == old(currentSlide)
      ensures duration == old(duration) && isRecording == old(isRecording)
    {
      if hasAudio && !isProcessing && step != Results {
        if analysis.Some? {
          feedback := analysis;
          step := Results;
        }
        isProcessing := false;
        hasAudio := false;
      }
    }

    /** The "New Presentation" button. */
    method NewPresentation()
      modifies this
      ensures Valid()
      ensures step == Upload && fileName == "" && currentSlide == 1 && duration == 0 && feedback == None
      ensures isRecording == old(isRecording) && hasAudio == old(hasAudio) && isProcessing == old(isProcessing)
    {
      step := Upload;
      fileName := "";
      currentSlide := 1;
      duration := 0;
      feedback := None;
    }
  }
}
