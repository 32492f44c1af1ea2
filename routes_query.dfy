/** The `/api/query` route: `is_safe_sql`, the keyword blocklist applied to
    generated SQL, and `run_query`, which rejects a blank question, then
    describes the schema, generates SQL, rejects SQL the blocklist flags,
    and executes the rest, turning every cell into text. */
module RoutesQuery {
  import opened Strings
  import opened Wrappers
  import opened SchemaIntrospect
  import opened OpenAIClient

  // ---------------------------------------------------------------------------
  // The safety filter

  /** The words `is_safe_sql` refuses, in lower case. */
  const Forbidden: seq<string> := ["insert", "update", "delete", "drop", "alter", "truncate"]

  /** `is_safe_sql`: the SQL is safe exactly when none of the forbidden
      words occurs anywhere in its lower-cased text. */
  function IsSafeSql(sql: string): (safe: bool)
    ensures safe <==> forall k :: 0 <= k < |Forbidden| ==> !IsInfix(Forbidden[k], Lower(sql))
  {
    var lowered := Lower(sql);
    !(exists k :: 0 <= k < |Forbidden| && Contains(lowered, Forbidden[k]))
  }

  /** The verdict depends only on the letters, not on their case. */
  lemma SafetyIgnoresCase(a: string, b: string)
    requires SameUpToCase(a, b)
    ensures IsSafeSql(a) == IsSafeSql(b)
  {
    assert Lower(a) == Lower(b);
  }

  /** A text that holds an unsafe text anywhere is unsafe. */
  lemma UnsafeInfix(w: string, s: string)
    requires IsInfix(w, s)
    requires !IsSafeSql(w)
    ensures !IsSafeSql(s)
  {
    var k :| 0 <= k < |Forbidden| && IsInfix(Forbidden[k], Lower(w));
    var i :| 0 <= i <= |s| && w <= s[i..];
    assert w == s[i..i + |w|];
    LowerSlice(s, i, i + |w|);
    assert Lower(w) <= Lower(s)[i..];
    InfixTransitive(Forbidden[k], Lower(w), Lower(s));
  }

  /** The empty text is safe. */
  lemma EmptyIsSafe()
    ensures IsSafeSql("")
  {
    forall k | 0 <= k < |Forbidden|
      ensures !IsInfix(Forbidden[k], Lower(""))
    {
      assert |Forbidden[k]| > 0;
    }
  }

  /** Each forbidden word, written in any mix of cases, makes any text that
      holds it unsafe, whatever surrounds it. */
  lemma ForbiddenWordAnywhere(a: string, w: string, b: string, k: nat)
    requires k < |Forbidden|
    requires SameUpToCase(w, Forbidden[k])
    ensures !IsSafeSql(a + w + b)
  {
    var word := Forbidden[k];
    assert Lower(w) == word by {
      forall i | 0 <= i < |word| ensures LowerChar(word[i]) == word[i] {
        assert 'a' <= word[i] <= 'z';
      }
    }
    InfixOfSelf(word);
    InfixOfConcat(a, w, b);
    UnsafeInfix(w, a + w + b);
  }

  /** The test looks for substrings, not words: a column named
      `updated_at` is refused because it begins with "update". */
  lemma UpdatedAtIsRefused(a: string, b: string)
    ensures !IsSafeSql(a + "updated_at" + b)
  {
    assert a + "updated_at" + b == a + "update" + ("d_at" + b);
    ForbiddenWordAnywhere(a, "update", "d_at" + b, 1);
  }

  // ---------------------------------------------------------------------------
  // Outcomes of a request

  /** `not question.strip()`. */
  predicate IsBlank(question: string)
  {
    Trim(question) == []
  }

  /** A question is blank exactly when it is empty or all whitespace. */
  lemma BlankMeansWhitespace(question: string)
    ensures IsBlank(question) <==> forall i :: 0 <= i < |question| ==> question[i] in Whitespace
  {
    StripEmpty(question, Whitespace);
  }

  /** What the database answers to `db.execute(text(sql))` followed by
      `keys()` and `fetchall()`: the columns and the rows, or the message of
      the exception raised on the way. */
  datatype ExecResult<Cell> = Fetched(columns: seq<string>, rows: seq<seq<Cell>>) | Raised(message: string)

  /** The result of `run_query`: one of its three 400 errors or the
      response body. */
  datatype Outcome =
    | EmptyQuestion
    | NotReadOnly
    | ExecError(message: string)
    | Ok(sql: string, columns: seq<string>, rows: seq<seq<string>>)

  /** The HTTP status of an outcome: 200 for the response body, 400 for
      every error. */
  function Status(o: Outcome): (code: int)
    ensures code == 200 <==> o.Ok?
    ensures code != 200 ==> code == 400
  {
    if o.Ok? then 200 else 400
  }

  /** The `detail` of an error. An execution error carries the exception's
      text after a fixed prefix, from which it can be read back. */
  function Detail(o: Outcome): (detail: string)
    requires !o.Ok?
    ensures o.EmptyQuestion? ==> detail == "Question cannot be empty."
    ensures o.NotReadOnly? ==> detail == "Generated SQL is not read-only."
    ensures o.ExecError? ==> "SQL execution error: " <= detail && detail[|"SQL execution error: "|..] == o.message
  {
    match o
    case EmptyQuestion => "Question cannot be empty."
    case NotReadOnly => "Generated SQL is not read-only."
    case ExecError(message) => "SQL execution error: " + message
  }

  /** `[list(map(str, row)) for row in rows]`: the same rows in the same
      order, each cell replaced by its text. */
  function ShowRows<Cell>(rows: seq<seq<Cell>>, show: Cell -> string): (shown: seq<seq<string>>)
    ensures |shown| == |rows|
    ensures forall i :: 0 <= i < |rows| ==>
              |shown[i]| == |rows[i]| && forall j :: 0 <= j < |rows[i]| ==> shown[i][j] == show(rows[i][j])
  {
    seq(|rows|, i requires 0 <= i < |rows| =>
      seq(|rows[i]|, j requires 0 <= j < |rows[i]| => show(rows[i][j])))
  }

  /** The generator of the running backend: `generate_sql` with the
      language model answering `reply`. */
  function LanguageModelGenerator(reply: ChatRequest -> Option<string>): (string, string) -> string
  {
    (schema, question) => GenerateSql(schema, question, reply)
  }

  /** A call `run_query` makes to one of its collaborators. */
  datatype Call = Described | Generated(schema: string, question: string) | Executed(sql: string)

  /** The outcome of `run_query(question)` against a database whose
      inspector is `inspector` and which answers SQL with `execute`, and a
      generator `generate` (in the running backend, `GenerateSql` for the
      language model's replies, as `LanguageModelGenerator` builds it). */
  function QueryOutcome<Cell>(question: string, inspector: Inspector, generate: (string, string) -> string,
                              execute: string -> ExecResult<Cell>, show: Cell -> string): (o: Outcome)
    ensures o.EmptyQuestion? <==> IsBlank(question)
    ensures o.NotReadOnly? <==>
              !IsBlank(question) && !IsSafeSql(generate(Describe(inspector), question))
    ensures o.ExecError? ==>
              var sql := generate(Describe(inspector), question);
              !IsBlank(question) && IsSafeSql(sql) && execute(sql) == Raised(o.message)
    ensures o.Ok? ==>
              !IsBlank(question) && o.sql == generate(Describe(inspector), question)
              && IsSafeSql(o.sql) && execute(o.sql).Fetched?
              && o.columns == execute(o.sql).columns && o.rows == ShowRows(execute(o.sql).rows, show)
  {
    if IsBlank(question) then EmptyQuestion
    else
      var sql := generate(Describe(inspector), question);
      if !IsSafeSql(sql) then NotReadOnly
      else match execute(sql)
        case Raised(message) => ExecError(message)
        case Fetched(columns, rows) => Ok(sql, columns, ShowRows(rows, show))
  }

  /** The calls `run_query(question)` makes, in order. Nothing is called
      for a blank question; otherwise the schema is described and the
      untrimmed question is passed to the generator with it; the database
      is asked to execute the SQL exactly when the filter accepts it, and
      only after that. No stage runs twice. */
  function QueryCalls(question: string, inspector: Inspector, generate: (string, string) -> string): (calls: seq<Call>)
    ensures calls == [] <==> IsBlank(question)
    ensures calls != [] ==>
              |calls| >= 2 && calls[0] == Described && calls[1] == Generated(Describe(inspector), question)
    ensures forall k :: 0 <= k < |calls| && calls[k].Executed? ==>
              k == 2 && IsSafeSql(calls[k].sql) && calls[k].sql == generate(Describe(inspector), question)
    ensures |calls| == 3 <==>
              !IsBlank(question) && IsSafeSql(generate(Describe(inspector), question))
    ensures |calls| <= 3
    ensures |calls| == 3 ==> calls[2] == Executed(generate(Describe(inspector), question))
  {
    if IsBlank(question) then []
    else
      var schema := Describe(inspector);
      var sql := generate(schema, question);
      [Described, Generated(schema, question)] + (if IsSafeSql(sql) then [Executed(sql)] else [])
  }

  /** The route with its collaborators: the database's inspector and
      executor, the SQL generator and `str` on cells. `calls` records, in
      order, every call made to them. */
  class Backend<Cell> {
    const inspector: Inspector
    const generate: (string, string) -> string
    const execute: string -> ExecResult<Cell>
    const show: Cell -> string
    var calls: seq<Call>

    constructor (inspector: Inspector, generate: (string, string) -> string,
                 execute: string -> ExecResult<Cell>, show: Cell -> string)
      ensures this.inspector == inspector && this.generate == generate
      ensures this.execute == execute && this.show == show
      ensures calls == []
    {
      this.inspector := inspector;
      this.generate := generate;
      this.execute := execute;
      this.show := show;
      calls := [];
    }

    /** `get_schema_description(engine)`. */
    method DescribeSchema() returns (desc: string)
      modifies this
      ensures desc == Describe(inspector)
      ensures calls == old(calls) + [Described]
    {
      desc := GetSchemaDescription(inspector);
      calls := calls + [Described];
    }

    /** `await generate_sql(schema, question)`, through the generator. */
    method GenerateQuery(schema: string, question: string) returns (sql: string)
      modifies this
      ensures sql == generate(schema, question)
      ensures calls == old(calls) + [Generated(schema, question)]
    {
      sql := generate(schema, question);
      calls := calls + [Generated(schema, question)];
    }

    /** `db.execute(text(sql))` with `keys()` and `fetchall()`. */
    method Execute(sql: string) returns (result: ExecResult<Cell>)
      modifies this
      ensures result == execute(sql)
      ensures calls == old(calls) + [Executed(sql)]
    {
      result := execute(sql);
      calls := calls + [Executed(sql)];
    }

    /** `run_query`: each stage runs only when the ones before it passed,
      and the calls it makes are exactly `QueryCalls`. */
    method RunQuery(question: string) returns (o: Outcome)
      modifies this
      ensures o == QueryOutcome(question, inspector, generate, execute, show)
      ensures calls == old(calls) + QueryCalls(question, inspector, generate)
    {
      if IsBlank(question) {
        return EmptyQuestion;
      }
      var schemaDesc := DescribeSchema();
      var sql := GenerateQuery(schemaDesc, question);
      if !IsSafeSql(sql) {
        return NotReadOnly;
      }
      var result := Execute(sql);
      match result
      case Raised(message) =>
        o := ExecError(message);
      case Fetched(columns, rows) =>
        o := Ok(sql, columns, ShowRows(rows, show));
    }
  }

  // ---------------------------------------------------------------------------
  // Scenarios

  /** With no tables the description is empty, and a question still goes
      to the generator, with that empty description. */
  lemma NoTablesStillGenerates(question: string, inspector: Inspector, generate: (string, string) -> string)
    requires !IsBlank(question)
    requires inspector.tableNames == []
    ensures QueryCalls(question, inspector, generate)[1] == Generated("", question)
  {
    NoTablesNoDescription(inspector);
  }

  /** `DROP TABLE users;` is refused. */
  lemma DropTableIsRefused()
    ensures !IsSafeSql("DROP TABLE users;")
  {
    assert "DROP TABLE users;" == [] + "DROP" + " TABLE users;";
    ForbiddenWordAnywhere([], "DROP", " TABLE users;", 3);
  }

  /** A generator that answers `DROP TABLE users;` gets the request refused
      as not read-only, and nothing is executed. */
  lemma DropIsNeverExecuted<Cell>(question: string, inspector: Inspector, generate: (string, string) -> string,
                                  execute: string -> ExecResult<Cell>, show: Cell -> string)
    requires !IsBlank(question)
    requires forall schema, q :: generate(schema, q) == "DROP TABLE users;"
    ensures QueryOutcome(question, inspector, generate, execute, show) == NotReadOnly
    ensures forall k :: 0 <= k < |QueryCalls(question, inspector, generate)| ==> !QueryCalls(question, inspector, generate)[k].Executed?
  {
    DropTableIsRefused();
  }

  /** A word of at least two letters does not start at position `i` of `s`
      when its first or its second letter differs from the text there. */
  lemma NotPrefixAt(w: string, s: string, i: nat)
    requires 2 <= |w| && i <= |s|
    requires i + 1 >= |s| || s[i] != w[0] || s[i + 1] != w[1]
    ensures !(w <= s[i..])
  {
  }

  /** No forbidden word occurs in `select id, name from users;`: at no
      position do the first two letters of one of them occur. */
  lemma SelectHoldsNoForbiddenWord()
    ensures forall k :: 0 <= k < |Forbidden| ==> !IsInfix(Forbidden[k], "select id, name from users;")
  {
    var s := "select id, name from users;";
    forall k, i | 0 <= k < |Forbidden| && 0 <= i <= |s|
      ensures !(Forbidden[k] <= s[i..])
    {
      NotPrefixAt(Forbidden[k], s, i);
    }
  }

  /** `SELECT id, name FROM users;` passes the filter. */
  lemma SelectIsSafe()
    ensures IsSafeSql("SELECT id, name FROM users;")
  {
    var upper, lower := "SELECT id, name FROM users;", "select id, name from users;";
    forall i | 0 <= i < |upper|
      ensures Lower(upper)[i] == lower[i]
    {
    }
    assert Lower(upper) == lower;
    SelectHoldsNoForbiddenWord();
  }

  /** The round trip with stub collaborators: a generator answering
      `SELECT id, name FROM users;` and a database returning the columns
      `id` and `name` for it give a response that carries that SQL, those
      columns and the rows as text, after exactly three calls, the last of
      them the execution. */
  lemma StubbedRoundTrip<Cell>(question: string, inspector: Inspector, generate: (string, string) -> string,
                               execute: string -> ExecResult<Cell>, show: Cell -> string, rows: seq<seq<Cell>>)
    requires !IsBlank(question)
    requires forall schema, q :: generate(schema, q) == "SELECT id, name FROM users;"
    requires execute("SELECT id, name FROM users;") == Fetched(["id", "name"], rows)
    ensures QueryOutcome(question, inspector, generate, execute, show)
         == Ok("SELECT id, name FROM users;", ["id", "name"], ShowRows(rows, show))
    ensures |QueryCalls(question, inspector, generate)| == 3
    ensures QueryCalls(question, inspector, generate)[2] == Executed("SELECT id, name FROM users;")
  {
    SelectIsSafe();
  }

  /** With the language model as generator, the SQL that reaches the
      database is the cleaned reply: empty when the reply has no content,
      otherwise a contiguous piece of that content, and never with
      surrounding whitespace. */
  lemma ExecutedSqlComesFromReply(question: string, inspector: Inspector, reply: ChatRequest -> Option<string>)
    ensures forall k :: 0 <= k < |QueryCalls(question, inspector, LanguageModelGenerator(reply))|
                        && QueryCalls(question, inspector, LanguageModelGenerator(reply))[k].Executed? ==>
              var sql := QueryCalls(question, inspector, LanguageModelGenerator(reply))[k].sql;
              var content := reply(CompletionRequest(RenderPrompt(Describe(inspector), question)));
              IsSafeSql(sql)
              && (content.None? ==> sql == [])
              && (content.Some? ==> IsInfix(sql, content.value))
              && (sql == [] || (sql[0] !in Whitespace && sql[|sql| - 1] !in Whitespace))
  {
    var generate := LanguageModelGenerator(reply);
    var sql := GenerateSql(Describe(inspector), question, reply);
    assert generate(Describe(inspector), question) == sql;
  }
}
