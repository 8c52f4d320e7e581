# AI Voice Assistant: a Dafny model of its checkable logic

The assistant is a Streamlit page (`chatbot.py`). It sends a typed or spoken query to a hosted
language model and shows the reply. It can also read the reply aloud through a text-to-speech engine
that runs on a background thread. Most of the script is glue around the remote model, the microphone
and the speech engine. This project models the parts with logic of their own:

- the cleaning of a generated reply: delete every bullet `•`, then delete `"- "` in one
  left-to-right pass, then strip surrounding whitespace (module `Cleaning`);
- the prompt built around the user's query (module `Prompts`);
- `get_chatbot_response`, with the remote call as a function parameter (module `Chatbot`);
- `SpeechController`, a class over `engine`, `speech_thread` and `is_speaking` (module `Speech`).
  The worker body `run_speech` is cut at its one blocking call into `BeginSpeech` and `FinishSpeech`.
  This lets a `stop()` from the page be placed between the two steps. `RunSpeech` runs the whole
  body without interruption. Two ghost counters record the engines stored and the `engine.stop()`
  calls made. The invariant `Valid` says every stored engine is stopped exactly once, except the
  one still held.
- `reset_app` over the session fields (module `Session`).

Python's `str.replace(old, "")` is modelled as a scan that finds the leftmost match and resumes
after it. `"- "` cannot overlap itself, so this is the same as the left-to-right search. The scan
is also proved equal to an independent definition, `"".join(s.split("- "))`.
`str.strip()` with no argument removes the characters for which `str.isspace()` holds; `Text.IsSpace`
lists them.

Two limits of the cleaning, as the code is written:

- The comment at chatbot.py:118 says the cleaning removes any remaining bullet-like patterns. One
  pass does not remove them all. A dash can join the space after a removed `"- "`: `"--  x"` is
  cleaned to `"- x"` (`Cleaning.CleanCanLeaveDashSpace`). Cleaning is therefore not idempotent either.
- The prompt (chatbot.py:103) forbids bullet points, and line 119 deletes any bullets the model
  still produces. The `except` branch (chatbot.py:122-123) returns `"Error: " + message` without
  cleaning it, so a bullet in an exception message reaches the page (`Chatbot.ErrorReplyKeepsBullet`).

## Model

| member | source | states |
|---|---|---|
| `Cleaning.RemoveBullets` | chatbot.py:119 | after `.replace("•", "")` no bullet is left and the text is no longer |
| `Cleaning.RemoveBulletsKeepsOthers` | chatbot.py:119 | removing bullets only deletes: the result is a subsequence of the input, and every other character occurs as often as before |
| `Cleaning.RemoveBulletsIdentity` | chatbot.py:119 | text without a bullet is unchanged by the first `replace` |
| `Cleaning.RemoveDashSpace` | chatbot.py:119 | the single left-to-right pass of `.replace("- ", "")` never lengthens the text |
| `Cleaning.RemoveDashSpaceIsSubsequence` | chatbot.py:119 | the second `replace` only deletes characters: its result is a subsequence of its input |
| `Cleaning.RemoveDashSpacePrefix` | chatbot.py:119 | a prefix free of `"- "` that cannot form `"- "` with what follows passes through the pass unchanged |
| `Cleaning.RemoveDashSpaceIdentity` | chatbot.py:119 | text without `"- "` is unchanged by the second `replace` |
| `Cleaning.Split` | chatbot.py:119 | the pieces of `s.split("- ")` join back to `s` with `"- "`, and none of them contains `"- "` |
| `Cleaning.RemoveDashSpaceJoin` | chatbot.py:119 | deleting `"- "` from pieces joined by `"- "` runs the pieces together |
| `Cleaning.RemoveDashSpaceIsSplitConcat` | chatbot.py:119 | the pass equals `"".join(s.split("- "))`, Python's meaning of `replace(old, "")` |
| `Cleaning.RemoveDashSpaceCanCreatePattern` | chatbot.py:119 | one pass can leave a new `"- "`: `"--  x"` becomes `"- x"` |
| `Cleaning.LeadingSpace` | chatbot.py:119 | counts the whitespace that `strip` removes at the front: all of it whitespace, and the next character is not |
| `Cleaning.TrailingSpace` | chatbot.py:119 | counts the whitespace that `strip` removes at the end: all of it whitespace, and the character before it is not |
| `Cleaning.Strip` | chatbot.py:119 | `strip()` gives the slice after the leading whitespace, followed only by whitespace, neither starting nor ending with whitespace |
| `Cleaning.StripIsSubsequence` | chatbot.py:119 | `strip()` only deletes characters |
| `Cleaning.StripIdentity` | chatbot.py:119 | text without surrounding whitespace is unchanged by `strip()` |
| `Cleaning.StripIdempotent` | chatbot.py:119 | stripping twice is stripping once |
| `Cleaning.Clean` | chatbot.py:119 | the cleaned reply has no bullet and no surrounding whitespace; it is a subsequence of the model's text and never longer |
| `Cleaning.CleanIdentity` | chatbot.py:119 | text with no bullet, no `"- "` and no surrounding whitespace is returned unchanged |
| `Cleaning.CleanCanLeaveDashSpace` | chatbot.py:119 | cleaning can return text holding `"- "` (`"--  x"` gives `"- x"`), and cleaning that again gives `"x"` |
| `Prompts.Prompt` | chatbot.py:102-106 | the prompt is the fixed instruction, then the query verbatim, then `"\n\nResponse:"` |
| `Prompts.QueryOf` | chatbot.py:102-106 | reading a query back out of a prompt yields a text of the prompt's length minus the fixed parts |
| `Prompts.QueryOfPrompt` | chatbot.py:102-106 | the query can be read back from the prompt built from it |
| `Prompts.PromptOfQuery` | chatbot.py:102-106 | any text that reads back as a query is exactly the prompt built from that query |
| `Prompts.PromptInjective` | chatbot.py:102-106 | different queries give different prompts |
| `Prompts.QueryInPrompt` | chatbot.py:102-106 | the query occurs in the prompt as a substring |
| `Chatbot.ChatbotResponse` | chatbot.py:100-123 | a generated reply comes back without bullets and surrounding whitespace, as a subsequence of the text; an exception comes back as `"Error: "` followed by its message |
| `Chatbot.CleanReplyUnchanged` | chatbot.py:100-120 | a generated reply that is already clean is shown exactly as generated |
| `Chatbot.ErrorReplyKeepsBullet` | chatbot.py:122-123 | the error reply is not cleaned: a bullet in the exception message reaches the page |
| `Speech.SpeechController.constructor` | chatbot.py:45-48 | a new controller holds no engine and no thread, is not speaking, and has stored and released nothing |
| `Speech.SpeechController.Cleanup` | chatbot.py:79-83 | with an engine, stops it exactly once and drops it; with none, changes nothing; afterwards no engine is held |
| `Speech.SpeechController.Stop` | chatbot.py:73-77 | when not speaking nothing changes; when speaking the engine is released if held and the flag cleared; afterwards nothing is held or flagged |
| `Speech.SpeechController.BeginSpeech` | chatbot.py:53-55 | the worker flags speech and stores the engine from `pyttsx3.init()` unless `init` raised |
| `Speech.SpeechController.FinishSpeech` | chatbot.py:59-63 | the `except` branch reports `"Speech synthesis error: "` plus the message; the `finally` block leaves no engine held and the flag cleared |
| `Speech.SpeechController.RunSpeech` | chatbot.py:52-63 | after the worker body, by normal end or an exception, no engine is held, speech is not flagged, and the engine stored was released exactly once |
| `Speech.StopDuringSpeech` | chatbot.py:52-83 | a `stop()` while the worker waits releases the engine, and the worker's `finally` releases nothing more: exactly one release |
| `Speech.StopTwice` | chatbot.py:73-83 | a second `stop()` and a further `cleanup()` release nothing more |
| `Session.AppSession.constructor` | chatbot.py:169-174 | the first run starts with no mode, empty query and reply, speaking flag off and text-box key 0 |
| `Session.AppSession.ResetApp` | chatbot.py:176-182 | clears reply and query and the speaking flag, adds 1 to the text-box key, stops the controller, and keeps the mode |

## Left out

- The call to the Gemini model with its settings (250 output tokens, temperature 0.7, top-p 0.9). It is a remote service with floating-point settings. `Chatbot.ChatbotResponse` takes the service as a function from prompt to reply text or exception message. A failure while reading `response.text` counts as an exception.
- `str(e)` of an exception: the message is an opaque string.
- `get_voice_input`: microphone capture and a remote recognizer, pure I/O.
- Speech.SpeechController.Cleanup: assumes `engine.stop()` (chatbot.py:82) returns normally. If it raised, line 83 would not drop the engine. Inside the worker's `finally` (line 62) the exception would also skip line 63, leaving `is_speaking` set and the engine held after the thread ends. The next `speak` would not join the finished thread (line 66), and its worker would overwrite the held engine at line 55 without stopping it. The model does not cover this path. `Valid`'s "stopped exactly once", `RunSpeech`'s `released == acquired`, and the `engine == None` precondition of `BeginSpeech` and `RunSpeech` all rest on this assumption.
- The inside of the pyttsx3 engine (`init`, `setProperty(rate, 150)`, `say`, `runAndWait`). The engine is an opaque handle, and how a run ends is an input (`SynthesisOutcome`).
- `st.error` in the worker: modelled as the returned warning text, not as output on the page.
- `SpeechController.speak`: thread creation, the daemon flag and joining the previous thread. `BeginSpeech` instead requires that no engine is held; `speak` ensures this by joining the previous worker, whose `finally` dropped its engine (given that `engine.stop()` returns; see the `Cleanup` line above). The `speech_thread` field is therefore only set by the constructor.
- Concurrency: `is_speaking` and `engine` are written by the worker and the page without a lock. The model places a `stop()` only between whole steps of the worker. Interleavings inside `cleanup` are not modelled; two threads could both stop the engine, or one could call `stop` on an engine already dropped.
- The Streamlit layout, widgets, `st.rerun`, status messages, the mode switch and the module-level configuration.
