/** `generate_sql`: the prompt is `BASE_PROMPT.format(schema=..., question=...)`,
    the language model's chat completion is an oracle (a function from the
    request to the message content, which may be missing), and the content
    goes through `(content or "").strip().strip("```sql").strip("```").strip()`. */
module OpenAIClient {
  import opened Strings
  import opened Formatting
  import opened Prompts
  import opened SqlCleaning
  import opened Wrappers

  // ---------------------------------------------------------------------------
  // Rendering the prompt

  /** The cheap check on the template's fixed text implies the parser's
      notion of brace-free text. */
  lemma BraceFreeHasNoBraces(s: string)
    requires BeforeBraces(s)
    ensures NoBraces(s)
  {
    forall c | c in s
      ensures c != '{' && c != '}'
    {
      var i :| 0 <= i < |s| && s[i] == c;
    }
  }

  /** `BASE_PROMPT` parses into exactly five pieces: the fixed prefix, the
      `schema` field, the fixed middle, the `question` field and the fixed
      suffix. So it holds exactly these two fields, `schema` first, and no
      other brace. */
  lemma BasePromptPieces()
    ensures Parse(BasePrompt)
         == Ok([Lit(Prefix), Field("schema"), Lit(Middle), Field("question"), Lit(Suffix)])
  {
    FixedTextIsBraceFree();
    BraceFreeHasNoBraces(Prefix);
    BraceFreeHasNoBraces(Middle);
    BraceFreeHasNoBraces(Suffix);
    assert Prefix[0] == '\n' && Middle[0] == '\n' && Suffix[0] == '\n';
    assert "{schema}" == "{" + "schema" + "}";
    assert "{question}" == "{" + "question" + "}";
    ParseTwoFields(Prefix, "schema", Middle, "question", Suffix);
  }

  function PromptArgs(schema: string, question: string): map<string, string>
  {
    map["schema" := schema, "question" := question]
  }

  /** `BASE_PROMPT.format(schema=schema, question=question)`: formatting
      succeeds, and both arguments land verbatim, unescaped, between the
      fixed pieces of the template. */
  function RenderPrompt(schema: string, question: string): (prompt: string)
    ensures prompt == Prefix + (schema + (Middle + (question + Suffix)))
  {
    var args := PromptArgs(schema, question);
    BasePromptPieces();
    RenderTwoFields(Prefix, "schema", Middle, "question", Suffix, args);
    Format(BasePrompt, args).value
  }

  /** The fixed instructions (the preamble and the four rules: a single
      PostgreSQL SELECT, no INSERT/UPDATE/DELETE/DROP/ALTER, schema names
      only, SQL only) open every rendered prompt, whatever the arguments. */
  lemma InstructionsOpenEveryPrompt(schema: string, question: string)
    ensures Preamble + Rules <= RenderPrompt(schema, question)
  {
    var p := RenderPrompt(schema, question);
    var rest := schema + (Middle + (question + Suffix));
    assert p == (Preamble + Rules) + (SchemaHeading + rest);
  }

  /** Nothing is escaped: a schema text that itself contains the middle
      part of the template renders exactly like a question that does. The
      boundary between the two arguments cannot be recovered from the
      prompt. */
  lemma ArgumentsAreNotDelimited(a: string, b: string, c: string)
    ensures RenderPrompt(a + Middle + b, c) == RenderPrompt(a, b + Middle + c)
  {
    var tail := Middle + (c + Suffix);
    assert (a + Middle + b) + tail == a + (Middle + ((b + Middle + c) + Suffix));
  }

  // ---------------------------------------------------------------------------
  // The chat completion request

  datatype Message = Message(role: string, content: string)

  datatype ChatRequest = ChatRequest(model: string, messages: seq<Message>, temperature: real)

  const SystemMessage: string := "You write safe, read-only SQL for PostgreSQL."

  /** The request sent for a rendered prompt: model gpt-4o-mini,
      temperature 0.1, the fixed system message and the prompt as the
      user message. */
  function CompletionRequest(prompt: string): ChatRequest
  {
    ChatRequest("gpt-4o-mini",
                [Message("system", SystemMessage), Message("user", prompt)],
                0.1)
  }

  /** `generate_sql(schema, question)` for a language model `reply`: the
      reply to the request for the rendered prompt, cleaned. A missing
      content gives the empty string; otherwise the result is a piece of
      the content with no surrounding whitespace. */
  function GenerateSql(schema: string, question: string, reply: ChatRequest -> Option<string>): (sql: string)
    ensures reply(CompletionRequest(RenderPrompt(schema, question))).None? ==> sql == []
    ensures reply(CompletionRequest(RenderPrompt(schema, question))).Some? ==>
              IsInfix(sql, reply(CompletionRequest(RenderPrompt(schema, question))).value)
    ensures sql == [] || (sql[0] !in Whitespace && sql[|sql| - 1] !in Whitespace)
  {
    var content := OrEmpty(reply(CompletionRequest(RenderPrompt(schema, question))));
    CleanIsInfix(content);
    Clean(content)
  }
}
