/**
 * The chat bottom bar's input controller. The text `input` and the functions
 * `setInput`, `handleInputChange`, `handleSubmit` and `stop` belong to the parent;
 * here `input` is a field, and every `handleSubmit` or `stop` call is recorded.
 */
module ChatBottombar {
  import opened Wrappers
  import JsText
  import Speech
  import opened Attachments

  /** What `handleSubmit` receives: the parent's text at that moment and `{images: base64Images}`. */
  datatype Submission = Submission(text: string, images: seq<string>)

  /** The text area's value: the transcript while listening, the typed input otherwise. */
  function DisplayedValue(isListening: bool, transcript: string, input: string): (shown: string)
    ensures isListening ==> shown == transcript
    ensures !isListening ==> shown == input
  {
    if isListening then (if |transcript| > 0 then transcript else "") else input
  }

  /** The send button is disabled while sending, while listening, or when the typed input is blank; the transcript plays no part. */
  function SendDisabled(isLoading: bool, input: string, isListening: bool): (disabled: bool)
    ensures disabled <==> isLoading || isListening || JsText.AllWhitespace(input)
  {
    JsText.TrimEmptyIff(input);
    isLoading || JsText.Trim(input) == "" || isListening
  }

  /** The options the bottom bar passes to the speech hook: `{continuous: true}`. */
  const BarOptions: Speech.Options := Speech.Options(None, None, Some(true))

  class Composer {
    const session: Speech.SpeechSession
    /** Whether the parent passed the optional `setInput`. */
    const hasSetInput: bool
    const toBase64: File -> string
    var input: string
    var isLoading: bool
    var imageFiles: Option<seq<File>>
    var base64Images: seq<string>
    /** Every call of the parent's `handleSubmit`, oldest first. */
    var submitted: seq<Submission>
    /** How many times the parent's `stop` was called. */
    var stopRequests: nat

    ghost predicate Valid()
      reads this, session
    {
      session.Valid()
    }

    /** The thumbnails show the encoding of exactly the current files. */
    ghost predicate Synced()
      reads this
    {
      base64Images == EncodeAll(FilesOf(imageFiles), toBase64)
    }

    /**
     * The first render and the mount effects: the speech hook is made with
     * `{continuous: true}`, and the `isLoading` effect runs once, so a bar
     * mounted while sending commits the (empty) transcript.
     */
    constructor (capable: bool, hasSetInput: bool, input: string, isLoading: bool, toBase64: File -> string)
      ensures Valid() && Synced() && fresh(session)
      ensures session.State() == Speech.Mounted(capable, BarOptions)
      ensures capable ==> session.engine == Some(Speech.EngineConfig(true, "en-US", true))
      ensures this.hasSetInput == hasSetInput && this.toBase64 == toBase64 && this.isLoading == isLoading
      ensures this.input == (if isLoading && hasSetInput then "" else input)
      ensures imageFiles.None? && base64Images == [] && submitted == [] && stopRequests == 0
    {
      session := new Speech.SpeechSession(capable, BarOptions);
      this.hasSetInput := hasSetInput;
      this.toBase64 := toBase64;
      this.input := if isLoading && hasSetInput then "" else input;
      this.isLoading := isLoading;
      imageFiles := None;
      base64Images := [];
      submitted := [];
      stopRequests := 0;
    }

    /** `stopVoiceInput`: write the transcript into the parent's text (when `setInput` exists), then stop listening. */
    method StopVoiceInput()
      requires Valid()
      modifies this`input, session
      ensures Valid()
      ensures input == if hasSetInput then old(session.transcript) else old(input)
      ensures session.State() == Speech.Stop(old(session.State()))
      ensures !session.isListening
    {
      if hasSetInput {
        input := if |session.transcript| > 0 then session.transcript else "";
      }
      session.StopListening();
    }

    /** `listen`: start when idle; when listening, commit the transcript and stop. */
    method Listen()
      requires Valid()
      modifies this`input, session
      ensures Valid()
      ensures old(session.isListening) ==> input == (if hasSetInput then old(session.transcript) else old(input))
      ensures old(session.isListening) ==> session.State() == Speech.Stop(old(session.State())) && !session.isListening
      ensures !old(session.isListening) ==> input == old(input)
      ensures !old(session.isListening) ==> session.State() == Speech.Start(old(session.State()))
    {
      if session.isListening {
        StopVoiceInput();
      } else {
        session.StartListening();
      }
    }

    /** A click on the microphone button, which is disabled while sending. */
    method HandleListenClick()
      requires Valid()
      modifies this`input, session
      ensures Valid()
      ensures old(isLoading) ==> input == old(input) && session.State() == old(session.State())
      ensures !old(isLoading) && old(session.isListening) ==> input == (if hasSetInput then old(session.transcript) else old(input))
      ensures !old(isLoading) && old(session.isListening) ==> session.State() == Speech.Stop(old(session.State()))
      ensures !old(isLoading) && !old(session.isListening) ==> input == old(input)
      ensures !old(isLoading) && !old(session.isListening) ==> session.State() == Speech.Start(old(session.State()))
    {
      if !isLoading {
        Listen();
      }
    }

    /** A new `isLoading` value from the parent; the effect runs only when the value changes, and stops and commits when it became true. */
    method SetLoading(loading: bool)
      requires Valid()
      modifies this`isLoading, this`input, session
      ensures Valid()
      ensures isLoading == loading
      ensures loading && !old(isLoading) ==> input == (if hasSetInput then old(session.transcript) else old(input))
      ensures loading && !old(isLoading) ==> session.State() == Speech.Stop(old(session.State())) && !session.isListening
      ensures !(loading && !old(isLoading)) ==> input == old(input) && session.State() == old(session.State())
    {
      if loading != isLoading {
        isLoading := loading;
        if loading {
          StopVoiceInput();
        }
      }
    }

    /** The parent's `handleInputChange`: the text area's new value becomes the parent's text. */
    method InputChange(value: string)
      modifies this`input
      ensures input == value
    {
      input := value;
    }

    /** `handleKeyPress`: Enter without Shift prevents the newline and submits, without consulting the send button's state. */
    method HandleKeyPress(key: string, shiftKey: bool) returns (defaultPrevented: bool)
      modifies this`submitted
      ensures defaultPrevented <==> key == "Enter" && !shiftKey
      ensures submitted == old(submitted) + (if defaultPrevented then [Submission(input, base64Images)] else [])
    {
      defaultPrevented := false;
      if key == "Enter" && !shiftKey {
        defaultPrevented := true;
        submitted := submitted + [Submission(input, base64Images)];
      }
    }

    /** A click on the send button: the form's `onSubmit` runs only when the button is enabled. */
    method ClickSend()
      modifies this`submitted
      ensures !SendDisabled(isLoading, input, session.isListening) ==> submitted == old(submitted) + [Submission(input, base64Images)]
      ensures SendDisabled(isLoading, input, session.isListening) ==> submitted == old(submitted)
    {
      var loading, text, listening := isLoading, input, session.isListening;
      var disabled := SendDisabled(loading, text, listening);
      if !disabled {
        submitted := submitted + [Submission(input, base64Images)];
      }
      assert isLoading == loading && input == text && session.isListening == listening;
    }

    /** A click on the stop button, which is shown only while sending in place of the send button. */
    method ClickStop()
      modifies this`stopRequests
      ensures stopRequests == old(stopRequests) + (if isLoading then 1 else 0)
    {
      if isLoading {
        stopRequests := stopRequests + 1;
      }
    }

    /** `appendFiles`, reached from both the file picker and a drop. */
    method AppendFiles(files: seq<File>)
      modifies this`imageFiles
      ensures imageFiles == Some(Appended(old(imageFiles), files))
    {
      var next := AppendUpdater(imageFiles, files);
      imageFiles := Some(next);
    }

    /** `removeImageFile`: nothing happens while the list is null. */
    method RemoveImageFile(index: int)
      modifies this`imageFiles
      ensures old(imageFiles).None? ==> imageFiles.None?
      ensures old(imageFiles).Some? ==> imageFiles == Some(Spliced(old(imageFiles).value, index))
    {
      if imageFiles.Some? {
        var next := RemoveUpdater(imageFiles.value, index);
        imageFiles := Some(next);
      }
    }

    /** The `imageFiles` effect together with its completion: one whole encoding pass is published. */
    method EncodeImages()
      modifies this`base64Images
      ensures Synced()
    {
      var encoded := ImageToBase64(imageFiles, toBase64);
      assert encoded == EncodeAll(FilesOf(imageFiles), toBase64);
      base64Images := encoded;
    }
  }

  /** While listening the text area shows the transcript, never the typed text, whatever was typed. */
  lemma ListeningHidesInput(transcript: string, input: string, input': string)
    ensures DisplayedValue(true, transcript, input) == DisplayedValue(true, transcript, input')
  {
  }

  /** The gate reads the typed input, not the transcript on screen. */
  lemma GateIgnoresTranscript(isLoading: bool, input: string)
    ensures SendDisabled(isLoading, input, true)
    ensures SendDisabled(isLoading, input, false) <==> isLoading || JsText.AllWhitespace(input)
  {
  }

  /** With the thumbnails in sync, removing thumbnail i and re-encoding drops exactly thumbnail i. */
  lemma RemoveKeepsThumbnailsAligned(files: seq<File>, i: int, toBase64: File -> string)
    requires 0 <= i < |files|
    ensures EncodeAll(Spliced(files, i), toBase64) == EncodeAll(files, toBase64)[..i] + EncodeAll(files, toBase64)[i + 1..]
  {
    EncodeAllSpliced(files, i, toBase64);
    SplicedInRange(EncodeAll(files, toBase64), i);
  }

  lemma HiThereJoined()
    ensures Speech.WellFormed([[Speech.Alternative("hi there")]])
    ensures Speech.Joined([[Speech.Alternative("hi there")]]) == "hi there"
  {
  }

  lemma HiThereCapitalised()
    ensures Speech.CapFirst("hi there") == "Hi there"
  {
  }

  /** Speaking "hi there" and toggling the microphone off leaves "Hi there" as the parent's text. */
  method VoiceCommitScenario(toBase64: File -> string) returns (text: string, listening: bool)
    ensures text == "Hi there" && !listening
  {
    var bar := new Composer(true, true, "", false, toBase64);
    assert bar.session.engine.Some? && !bar.session.isListening && !bar.session.engineActive && !bar.isLoading;
    bar.HandleListenClick();
    assert bar.session.State() == Speech.Start(Speech.Mounted(true, BarOptions));
    assert bar.session.isListening && !bar.isLoading && bar.hasSetInput;
    var results := [[Speech.Alternative("hi there")]];
    HiThereJoined();
    bar.session.OnResult(results);
    ghost var spoken := bar.session.transcript;
    assert spoken == Speech.CapFirst("hi there");
    bar.HandleListenClick();
    text, listening := bar.input, bar.session.isListening;
    assert text == spoken;
    HiThereCapitalised();
  }

  /** Appending two files and removing index 0 leaves only the second file. */
  method AppendRemoveScenario(f1: File, f2: File, toBase64: File -> string) returns (files: seq<File>, images: seq<string>)
    ensures files == [f2] && images == [toBase64(f2)]
  {
    var bar := new Composer(true, true, "", false, toBase64);
    bar.AppendFiles([f1, f2]);
    bar.RemoveImageFile(0);
    bar.EncodeImages();
    files := FilesOf(bar.imageFiles);
    images := bar.base64Images;
  }

  /** A bar that starts idle and has "hello" typed submits {text: "hello", images: []} on Enter; the send button was enabled. */
  method TypeAndSubmitScenario(toBase64: File -> string) returns (blankDisabled: bool, sent: seq<Submission>, wasDisabled: bool)
    ensures blankDisabled && sent == [Submission("hello", [])] && !wasDisabled
  {
    var bar := new Composer(true, true, "", false, toBase64);
    blankDisabled := SendDisabled(bar.isLoading, bar.input, bar.session.isListening);
    bar.InputChange("hello");
    assert !JsText.AllWhitespace("hello") by {
      assert !JsText.IsJsWhitespace("hello"[0]);
    }
    wasDisabled := SendDisabled(bar.isLoading, bar.input, bar.session.isListening);
    var prevented := bar.HandleKeyPress("Enter", false);
    sent := bar.submitted;
  }
}
