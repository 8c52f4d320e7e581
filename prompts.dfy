/** The prompt that `get_chatbot_response` sends to the language model. */
module Prompts {
  import opened Wrappers
  import opened Text

  /** The fixed instruction that forces a single plain paragraph, ending in the query label. */
  const Instruction: string :=
    "IMPORTANT: Respond in paragraph format ONLY. Never use bullet points, dashes, numbers, "
    + "or any list formatting. Use complete sentences in a single cohesive paragraph. "
    + "Query: "

  /** What follows the user's query. */
  const ResponseCue: string := "\n\nResponse:"

  /** The user's query sits verbatim between the instruction and the response cue. */
  function Prompt(query: string): (p: string)
    ensures |p| == |Instruction| + |query| + |ResponseCue|
    ensures p[..|Instruction|] == Instruction
    ensures p[|Instruction|..|Instruction| + |query|] == query
    ensures p[|Instruction| + |query|..] == ResponseCue
  {
    Instruction + query + ResponseCue
  }

  /** Reads the query back out of a prompt; `None` for text that is not a prompt. */
  function QueryOf(p: string): (q: Option<string>)
    ensures q.Some? ==> |q.value| == |p| - |Instruction| - |ResponseCue|
  {
    if |p| >= |Instruction| + |ResponseCue|
       && p[..|Instruction|] == Instruction
       && p[|p| - |ResponseCue|..] == ResponseCue
    then Some(p[|Instruction|..|p| - |ResponseCue|])
    else None
  }

  lemma QueryOfPrompt(query: string)
    ensures QueryOf(Prompt(query)) == Some(query)
  {
    var p := Prompt(query);
    assert p[|p| - |ResponseCue|..] == ResponseCue;
  }

  /** Every text that reads back as a query is exactly the prompt built from it. */
  lemma PromptOfQuery(p: string)
    requires QueryOf(p).Some?
    ensures Prompt(QueryOf(p).value) == p
  {
    var q := QueryOf(p).value;
    assert p == p[..|Instruction|] + p[|Instruction|..|p| - |ResponseCue|] + p[|p| - |ResponseCue|..];
  }

  /** Different queries give different prompts. */
  lemma PromptInjective(q1: string, q2: string)
    requires Prompt(q1) == Prompt(q2)
    ensures q1 == q2
  {
    QueryOfPrompt(q1);
    QueryOfPrompt(q2);
  }

  /** The query occurs in the prompt as a contiguous substring. */
  lemma QueryInPrompt(query: string)
    ensures IsSubstring(query, Prompt(query))
  {
    assert OccursAt(query, Prompt(query), |Instruction|);
  }
}
