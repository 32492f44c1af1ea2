/** `BASE_PROMPT`, the fixed instruction template with a `{schema}` and a
    `{question}` replacement field. It is written here as its fixed pieces
    around the two fields; concatenated they spell the template character
    for character (the trailing blank after "assistant." included). */
module Prompts {

  // The template's lines, each with its line break. Long lines are spelled
  // as two literals.

  const Opening: string := "\n"
  const Role: string := "You are an expert SQL assistant. \n"
  const Receive: string := "You receive:\n"
  const SchemaInput: string := "1) A database schema.\n"
  const QuestionInput: string := "2) A natural language question " + "from the user.\n"
  const Duties: string := "\nYou must:\n"
  const SelectOnly: string := "- Return a single PostgreSQL " + "SELECT query.\n"
  const NoWrites: string := "- Never use INSERT, UPDATE, DELETE, " + "DROP, ALTER, or other DDL/DML.\n"
  const SchemaOnly: string := "- Use only tables and columns " + "that exist in the schema.\n"
  const SqlOnly: string := "- Do not include explanations, " + "only the SQL.\n"
  const SchemaHeading: string := "Schema:\n"

  /** The opening lines, from the blank first line to "You must:". */
  const Preamble: string := Opening + Role + Receive + SchemaInput + QuestionInput + Duties

  /** The four instruction lines. */
  const Rules: string := SelectOnly + NoWrites + SchemaOnly + SqlOnly

  /** Everything before the `{schema}` field. */
  const Prefix: string := Preamble + Rules + SchemaHeading

  /** Between the `{schema}` and the `{question}` fields. */
  const Middle: string := "\n\nUser question:\n"

  /** After the `{question}` field. */
  const Suffix: string := "\n\nReturn ONLY the SQL query.\n"

  const BasePrompt: string := Prefix + ("{schema}" + (Middle + ("{question}" + Suffix)))

  /** Every character of `s` comes before `{` in code order. This is not
      a second notion of brace-freeness: it is a stronger, cheaper-to-check
      form of `NoBraces` (both braces, and `|` between them, are excluded),
      used only because one bound per character keeps the proofs about the
      long literals cheap. `OpenAIClient.BraceFreeHasNoBraces` carries it
      over to `NoBraces`. */
  ghost predicate BeforeBraces(s: string)
  {
    forall i :: 0 <= i < |s| ==> s[i] < '{'
  }

  // None of the fixed text holds a brace, line by line.

  lemma IntroIsBraceFree()
    ensures BeforeBraces(Opening) && BeforeBraces(Role) && BeforeBraces(Receive) && BeforeBraces(Duties)
  {
  }

  lemma SchemaInputIsBraceFree()
    ensures BeforeBraces(SchemaInput)
  {
  }

  lemma QuestionInputIsBraceFree()
    ensures BeforeBraces(QuestionInput)
  {
  }

  lemma SelectOnlyIsBraceFree()
    ensures BeforeBraces(SelectOnly) && BeforeBraces(SchemaHeading)
  {
  }

  lemma NoWritesIsBraceFree()
    ensures BeforeBraces(NoWrites)
  {
  }

  lemma SchemaOnlyIsBraceFree()
    ensures BeforeBraces(SchemaOnly)
  {
  }

  lemma SqlOnlyIsBraceFree()
    ensures BeforeBraces(SqlOnly)
  {
  }

  lemma TailIsBraceFree()
    ensures BeforeBraces(Middle) && BeforeBraces(Suffix)
  {
  }

  lemma ConcatIsBraceFree(a: string, b: string)
    requires BeforeBraces(a) && BeforeBraces(b)
    ensures BeforeBraces(a + b)
  {
    forall i | 0 <= i < |a + b|
      ensures (a + b)[i] < '{'
    {
      if i >= |a| {
        assert (a + b)[i] == b[i - |a|];
      }
    }
  }

  lemma FixedTextIsBraceFree()
    ensures BeforeBraces(Prefix) && BeforeBraces(Middle) && BeforeBraces(Suffix)
  {
    IntroIsBraceFree();
    SchemaInputIsBraceFree();
    QuestionInputIsBraceFree();
    SelectOnlyIsBraceFree();
    NoWritesIsBraceFree();
    SchemaOnlyIsBraceFree();
    SqlOnlyIsBraceFree();
    TailIsBraceFree();
    ConcatIsBraceFree(Opening, Role);
    ConcatIsBraceFree(Opening + Role, Receive);
    ConcatIsBraceFree(Opening + Role + Receive, SchemaInput);
    ConcatIsBraceFree(Opening + Role + Receive + SchemaInput, QuestionInput);
    ConcatIsBraceFree(Opening + Role + Receive + SchemaInput + QuestionInput, Duties);
    ConcatIsBraceFree(SelectOnly, NoWrites);
    ConcatIsBraceFree(SelectOnly + NoWrites, SchemaOnly);
    ConcatIsBraceFree(SelectOnly + NoWrites + SchemaOnly, SqlOnly);
    ConcatIsBraceFree(Preamble, Rules);
    ConcatIsBraceFree(Preamble + Rules, SchemaHeading);
  }
}
