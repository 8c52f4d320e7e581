/**
 * `SpeechController`: owns the text-to-speech engine handle and the flag that
 * says whether speech is playing. The worker body `run_speech` is split at its
 * one blocking call (`runAndWait`) into BeginSpeech and FinishSpeech, so that a
 * `stop()` from the interface can be placed between the two; RunSpeech is the
 * body run without interruption.
 */
module Speech {
  import opened Wrappers

  /** An opaque handle for the engine that `pyttsx3.init()` returns. */
  datatype Engine = Engine(id: nat)

  /** An opaque handle for the background thread. */
  datatype Worker = Worker(id: nat)

  /** How a run of the worker body ends. */
  datatype SynthesisOutcome =
    | Spoken                         // say and runAndWait returned normally
    | InitRaised(message: string)    // pyttsx3.init() raised: no engine was stored
    | SpeechRaised(message: string)  // setProperty, say or runAndWait raised after the engine was stored

  const SynthesisErrorPrefix: string := "Speech synthesis error: "

  /** The warning that the `except` branch shows for a raised exception, if any. */
  function Warning(raised: Option<string>): Option<string>
  {
    match raised
    case None => None
    case Some(message) => Some(SynthesisErrorPrefix + message)
  }

  class SpeechController {
    var engine: Option<Engine>
    var speechThread: Option<Worker>
    var isSpeaking: bool

    /** Engines stored by the worker body, and calls of `engine.stop()`. */
    ghost var acquired: nat
    ghost var released: nat

    /**
     * An engine is only held while speech is flagged as playing, and every
     * engine ever stored has been stopped exactly once, except the one still held.
     */
    ghost predicate Valid()
      reads this
    {
      (engine.Some? ==> isSpeaking)
      && released + (if engine.Some? then 1 else 0) == acquired
    }

    constructor ()
      ensures Valid()
      ensures engine == None && speechThread == None && !isSpeaking
      ensures acquired == 0 && released == 0
    {
      engine := None;
      speechThread := None;
      isSpeaking := false;
      acquired, released := 0, 0;
    }

    /** Stops and drops the engine if there is one; nothing else changes. */
    method Cleanup()
      requires Valid()
      modifies this`engine, this`released
      ensures Valid()
      ensures engine == None
      ensures released == old(released) + (if old(engine).Some? then 1 else 0)
    {
      if engine.Some? {
        released := released + 1;  // engine.stop()
        engine := None;
      }
    }

    /**
     * When speech is not flagged, nothing changes. Otherwise the engine is
     * released if held and the flag is cleared. Either way no engine is held
     * and speech is not flagged afterwards.
     */
    method Stop()
      requires Valid()
      modifies this`engine, this`isSpeaking, this`released
      ensures Valid()
      ensures !isSpeaking && engine == None
      ensures !old(isSpeaking) ==> unchanged(this)
      ensures released == old(released) + (if old(engine).Some? then 1 else 0)
    {
      if isSpeaking {
        Cleanup();
        isSpeaking := false;
      }
    }

    /**
     * The start of the worker body: flag speech and store the engine that
     * `pyttsx3.init()` returned, unless it raised (`initOk` false). Before the
     * body starts, `speak` has joined the previous worker, whose `finally`
     * dropped its engine; hence no engine is held here.
     */
    method BeginSpeech(e: Engine, initOk: bool)
      requires Valid() && engine == None
      modifies this`engine, this`isSpeaking, this`acquired
      ensures Valid()
      ensures isSpeaking
      ensures engine == (if initOk then Some(e) else None)
      ensures acquired == old(acquired) + (if initOk then 1 else 0)
    {
      isSpeaking := true;
      if initOk {
        engine := Some(e);
        acquired := acquired + 1;
      }
    }

    /**
     * The end of the worker body: report the exception, if one was raised, then
     * the `finally` block releases the engine if still held and clears the flag.
     */
    method FinishSpeech(raised: Option<string>) returns (warning: Option<string>)
      requires Valid()
      modifies this`engine, this`isSpeaking, this`released
      ensures Valid()
      ensures engine == None && !isSpeaking
      ensures released == old(released) + (if old(engine).Some? then 1 else 0)
      ensures warning == Warning(raised)
    {
      warning := Warning(raised);
      Cleanup();
      isSpeaking := false;
    }

    /**
     * The worker body from start to end. However it ends, no engine is held,
     * speech is not flagged, and every stored engine has been released once.
     */
    method RunSpeech(e: Engine, outcome: SynthesisOutcome) returns (warning: Option<string>)
      requires Valid() && engine == None
      modifies this`engine, this`isSpeaking, this`acquired, this`released
      ensures Valid()
      ensures engine == None && !isSpeaking && released == acquired
      ensures acquired == old(acquired) + (if outcome.InitRaised? then 0 else 1)
      ensures released == old(released) + (if outcome.InitRaised? then 0 else 1)
      ensures outcome.Spoken? ==> warning == None
      ensures !outcome.Spoken? ==> warning == Some(SynthesisErrorPrefix + outcome.message)
    {
      BeginSpeech(e, !outcome.InitRaised?);
      var raised := if outcome.Spoken? then None else Some(outcome.message);
      warning := FinishSpeech(raised);
    }
  }

  /**
   * `stop()` from the interface while the worker waits in `runAndWait`, then the
   * worker's `finally`: the engine is released once, by `stop`, and the
   * `finally` block releases nothing more.
   */
  method StopDuringSpeech(c: SpeechController, e: Engine, raised: Option<string>)
    returns (warning: Option<string>)
    requires c.Valid() && c.engine == None
    modifies c
    ensures c.Valid() && c.engine == None && !c.isSpeaking
    ensures c.acquired == old(c.acquired) + 1 && c.released == old(c.released) + 1
  {
    c.BeginSpeech(e, true);
    c.Stop();
    assert c.released == old(c.released) + 1;
    warning := c.FinishSpeech(raised);
  }

  /** A second `stop()` after the first is a no-op; so is a second `cleanup()`. */
  method StopTwice(c: SpeechController)
    requires c.Valid()
    modifies c
    ensures c.Valid() && c.engine == None && !c.isSpeaking
    ensures c.released == old(c.released) + (if old(c.engine).Some? then 1 else 0)
  {
    c.Stop();
    ghost var afterFirst := c.released;
    c.Stop();
    assert c.released == afterFirst;
    c.Cleanup();
  }
}
