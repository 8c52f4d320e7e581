/** The session fields of the Streamlit page and `reset_app`. */
module Session {
  import opened Wrappers
  import opened Speech

  /** The two input modes of the radio button. */
  datatype Mode = Text | Voice

  class AppSession {
    var currentMode: Option<Mode>
    var chatResponse: string
    var userInput: string
    var isSpeaking: bool
    var inputTextKey: int
    const speechController: SpeechController

    ghost predicate Valid()
      reads this, speechController
    {
      speechController.Valid()
    }

    /** The first-run initialisation of the session fields. */
    constructor (controller: SpeechController)
      requires controller.Valid()
      ensures Valid() && speechController == controller
      ensures currentMode == None && chatResponse == "" && userInput == ""
      ensures !isSpeaking && inputTextKey == 0
    {
      speechController := controller;
      currentMode := None;
      chatResponse := "";
      userInput := "";
      isSpeaking := false;
      inputTextKey := 0;
    }

    /**
     * Clears the reply and the query, clears the speaking flag, moves the text
     * box to a fresh key, and stops the speech controller. The mode is kept.
     */
    method ResetApp()
      requires Valid()
      modifies this`chatResponse, this`userInput, this`isSpeaking, this`inputTextKey
      modifies speechController`engine, speechController`isSpeaking, speechController`released
      ensures Valid()
      ensures chatResponse == "" && userInput == "" && !isSpeaking
      ensures inputTextKey == old(inputTextKey) + 1
      ensures !speechController.isSpeaking && speechController.engine == None
      ensures speechController.released ==
                old(speechController.released) + (if old(speechController.engine).Some? then 1 else 0)
    {
      chatResponse := "";
      userInput := "";
      isSpeaking := false;
      inputTextKey := inputTextKey + 1;
      speechController.Stop();
    }
  }
}
