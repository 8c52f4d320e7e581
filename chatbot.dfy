/**
 * `get_chatbot_response`: build the prompt, ask the language model, and either
 * clean its text or turn the raised exception into an "Error: ..." reply.
 */
module Chatbot {
  import opened Text
  import opened Cleaning
  import opened Prompts

  /** What the remote call yields: the reply's `text`, or the message of the exception it raised. */
  datatype Reply = Generated(text: string) | Raised(message: string)

  const ErrorPrefix: string := "Error: "

  /**
   * The language model is a parameter: `generate` maps the prompt to the
   * service's outcome. A generated text is cleaned; an exception becomes the
   * reply `"Error: " + message`, which is not cleaned.
   */
  function ChatbotResponse(userInput: string, generate: string -> Reply): (r: string)
    ensures generate(Prompt(userInput)).Generated? ==>
              Bullet !in r && IsStripped(r) && IsSubsequence(r, generate(Prompt(userInput)).text)
    ensures generate(Prompt(userInput)).Raised? ==>
              |r| == |ErrorPrefix| + |generate(Prompt(userInput)).message|
              && r[..|ErrorPrefix|] == ErrorPrefix
              && r[|ErrorPrefix|..] == generate(Prompt(userInput)).message
  {
    match generate(Prompt(userInput))
    case Generated(text) => Clean(text)
    case Raised(message) => ErrorPrefix + message
  }

  /** A generated reply that is already one clean paragraph is shown exactly as generated. */
  lemma CleanReplyUnchanged(userInput: string, generate: string -> Reply)
    requires generate(Prompt(userInput)).Generated?
    requires var text := generate(Prompt(userInput)).text;
             Bullet !in text && NoDashSpace(text) && IsStripped(text)
    ensures ChatbotResponse(userInput, generate) == generate(Prompt(userInput)).text
  {
    CleanIdentity(generate(Prompt(userInput)).text);
  }

  /** The error path is not cleaned: an exception message with a bullet reaches the reply. */
  lemma ErrorReplyKeepsBullet(userInput: string)
    ensures Bullet in ChatbotResponse(userInput, _ => Raised([Bullet]))
  {
    var r := ChatbotResponse(userInput, _ => Raised([Bullet]));
    assert r[|ErrorPrefix|] == Bullet;
  }
}
