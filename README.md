# GENAI_SQL backend, modelled in Dafny

GENAI_SQL answers a natural-language question about a relational database
with one SQL query. The backend's `/api/query` route works in stages:

1. It rejects a blank question.
2. It describes the database schema as text, one line per table.
3. It renders the question and the description into a fixed prompt.
4. It asks a language model for SQL and cleans up the reply with a chain of `strip` calls.
5. It refuses SQL that contains any of six write keywords, in any case and anywhere in the text.
6. It executes the rest and returns the column names and the rows, with every cell turned into text.

The settings read the API key, the database URL and the list of CORS
origins from the environment.

This project models that pipeline and proves what each stage guarantees.
The database and the language model are inputs:

- the inspector's table names and columns;
- the executor's answer to a SQL text;
- the model's reply to a chat request;
- `str` on a cell.

| file | module | models |
|---|---|---|
| `wrappers.dfy` | `Wrappers` | `Option`, Python's `None` or a value |
| `strings.dfy` | `Strings` | `lower()`, `in` on strings, `strip()` / `strip(chars)`, `split(",")`, `sep.join(...)` |
| `formatting.dfy` | `Formatting` | `str.format(**kwargs)` for templates with bare-name fields |
| `prompts.dfy` | `Prompts` | the `BASE_PROMPT` template |
| `openai_client.dfy` | `OpenAIClient` | rendering the prompt, the chat request, `generate_sql` |
| `sql_cleaning.dfy` | `SqlCleaning` | `content or ""` and the strip chain applied to the reply |
| `schema_introspect.dfy` | `SchemaIntrospect` | `get_schema_description`, as a loop building the list of lines |
| `config.dfy` | `Config` | the `Settings` values, in particular `BACKEND_CORS_ORIGINS` |
| `routes_query.dfy` | `RoutesQuery` | `is_safe_sql` and `run_query`, as a class whose collaborators record the calls made to them |

Some facts the code makes visible:

- `strip("```sql")` removes any run of the characters `` ` ``, `s`, `q` and `l`, not the fence as a prefix. So `SELECT * FROM users` comes back as `SELECT * FROM user`.
- The cleaning chain is not idempotent: `x s `` ` `` becomes `x s`, and a second pass gives `x`. Fence stripping might be expected to be idempotent; the model follows the code and proves that it is not.
- The blocklist is a substring test, so any SQL that mentions a column `updated_at` is refused.
- The question is put into the prompt unescaped. A schema text that contains the template's middle part renders exactly like a question that contains it.

## Model

| member | source | states |
|---|---|---|
| Strings.IsSpace | backend/app/core/openai_client.py:20 | definition: the characters Python's `str.isspace()` accepts |
| Strings.Whitespace | backend/app/core/openai_client.py:20 | definition: the set of characters `strip()` with no argument removes |
| Strings.Lower | backend/app/api/routes_query.py:25 | `sql.lower()` keeps the length and folds each character on its own |
| Strings.Contains | backend/app/api/routes_query.py:26 | `word in lowered` holds exactly when the word occurs as a contiguous block of the text |
| Strings.InfixTransitive | backend/app/api/routes_query.py:26 | an occurrence inside an occurrence is an occurrence |
| Strings.Strip | backend/app/core/openai_client.py:20 | `strip(chars)` never lengthens the text and leaves it neither starting nor ending with one of `chars` |
| Strings.StripSpec | backend/app/core/openai_client.py:20 | `strip(chars)` keeps one contiguous slice and cuts only characters of `chars` on either side of it |
| Strings.StripParts | backend/app/core/openai_client.py:20 | the text is the stripped text with a run of `chars` on each side |
| Strings.StripUnique | backend/app/core/openai_client.py:20 | stripping runs of `chars` off a text that starts and ends outside `chars` yields exactly that text |
| Strings.StripIdentity | backend/app/core/openai_client.py:20 | `strip(chars)` changes nothing exactly when the text is empty or starts and ends outside `chars` |
| Strings.StripPadded | backend/app/core/openai_client.py:20 | extra characters of `chars` around a text do not change what `strip(chars)` returns |
| Strings.StripInfix | backend/app/core/openai_client.py:20 | the stripped text occurs in the original |
| Strings.StripEmpty | backend/app/api/routes_query.py:31 | a text strips to nothing exactly when all its characters are in the set |
| Strings.StripSubset | backend/app/core/config.py:11 | stripping introduces no character |
| Strings.Trim | backend/app/core/openai_client.py:20 | definition: `strip()` with no argument, `Strip` over Whitespace, whose contract and lemmas apply to it |
| Strings.Join | backend/app/db/schema_introspect.py:13 | joining no parts gives the empty text; joining one part gives that part |
| Strings.JoinAvoids | backend/app/db/schema_introspect.py:11-13 | a character in neither the separator nor any part is not in the join |
| Strings.JoinHasPart | backend/app/db/schema_introspect.py:11 | every part occurs, whole, in the join |
| Strings.Split | backend/app/core/config.py:12 | `split(",")` returns at least one piece, and no piece holds the separator |
| Strings.SplitJoin | backend/app/core/config.py:12 | splitting a join of separator-free parts gives the parts back |
| Strings.JoinSplit | backend/app/core/config.py:12 | joining the pieces of a split with the separator rebuilds the text |
| Formatting.Parse | backend/app/core/openai_client.py:9 | definition: the template parser behind `str.format` for bare-name fields, with its four `ValueError` cases; its shape on templates is fixed by ParseLiteral, ParseField and ParseTwoFields |
| Formatting.Render | backend/app/core/openai_client.py:9 | rendering succeeds exactly when every field names a given keyword; otherwise it fails with a `KeyError` naming the first field, from the left, whose keyword is absent |
| Formatting.Format | backend/app/core/openai_client.py:9 | `template.format(**args)` succeeds exactly when the template parses and every field it holds names a given keyword |
| Formatting.FirstMissingKeyIsReported | backend/app/core/openai_client.py:9 | `"{f}{g}".format(**args)` with `f` absent parses and then fails with the `KeyError` for `f`, the first field it cannot fill, whether or not `g` is given; `"{a}{b}".format()` is one instance |
| Formatting.ParseLiteral | backend/app/core/openai_client.py:9 | brace-free text parses as one literal run in front of what follows it |
| Formatting.ParseField | backend/app/core/openai_client.py:9 | `{name}` with a brace-free name parses as one replacement field |
| Formatting.ParseTwoFields | backend/app/core/openai_client.py:9 | three brace-free literal runs around two fields parse into exactly those five pieces |
| Formatting.RenderLiteral | backend/app/core/openai_client.py:9 | rendering keeps a literal run as it is |
| Formatting.RenderField | backend/app/core/openai_client.py:9 | rendering puts a present keyword argument in place of its field, verbatim |
| Formatting.RenderTwoFields | backend/app/core/openai_client.py:9 | rendering the five pieces inserts both arguments verbatim between the literal runs |
| Prompts.Prefix | backend/app/prompts.py:1-12 | definition: the template's text before `{schema}`, line by line |
| Prompts.Middle | backend/app/prompts.py:13-16 | definition: the text between `{schema}` and `{question}` |
| Prompts.Suffix | backend/app/prompts.py:16-19 | definition: the text after `{question}` |
| Prompts.BasePrompt | backend/app/prompts.py:1-19 | definition: `BASE_PROMPT`, character for character; BasePromptPieces states its structure |
| Prompts.FixedTextIsBraceFree | backend/app/prompts.py:1-19 | no brace occurs in the template's fixed text outside the two fields |
| OpenAIClient.BraceFreeHasNoBraces | backend/app/prompts.py:1-19 | text whose characters all sort before `{` contains neither brace |
| OpenAIClient.BasePromptPieces | backend/app/prompts.py:1-19 | the template has exactly the fields `schema` then `question`, between the fixed prefix, middle and suffix, and no other brace |
| OpenAIClient.RenderPrompt | backend/app/core/openai_client.py:9 | formatting succeeds, and the prompt is prefix ++ schema ++ middle ++ question ++ suffix with both arguments verbatim |
| OpenAIClient.InstructionsOpenEveryPrompt | backend/app/prompts.py:7-11 | the preamble and the four instruction lines open every rendered prompt |
| OpenAIClient.ArgumentsAreNotDelimited | backend/app/core/openai_client.py:9 | a schema that contains the middle part renders like a question that contains it, because nothing is escaped |
| OpenAIClient.CompletionRequest | backend/app/core/openai_client.py:11-18 | definition: the request sent, with model gpt-4o-mini, the fixed system message, the prompt as the user message and temperature 0.1 |
| OpenAIClient.GenerateSql | backend/app/core/openai_client.py:6-20 | a missing reply gives ""; otherwise the result occurs in the reply; it never has surrounding whitespace |
| SqlCleaning.FenceChars | backend/app/core/openai_client.py:20 | definition: the characters of "```sql", which `strip("```sql")` removes as a set |
| SqlCleaning.Backticks | backend/app/core/openai_client.py:20 | definition: the characters of "```" |
| SqlCleaning.OrEmpty | backend/app/core/openai_client.py:19 | `content or ""` maps `None` to the empty text |
| SqlCleaning.Clean | backend/app/core/openai_client.py:20 | the cleaned text has no leading or trailing whitespace |
| SqlCleaning.CleanIsInfix | backend/app/core/openai_client.py:20 | the cleaned text is a contiguous piece of the reply, so it is never longer |
| SqlCleaning.CleanFixpoint | backend/app/core/openai_client.py:20 | the chain changes nothing exactly when the text is empty or starts and ends outside whitespace and `` ` ``, `s`, `q`, `l` |
| SqlCleaning.CleanFencedBlock | backend/app/core/openai_client.py:20 | a body fenced as "```sql\n" ... "\n```" comes back trimmed |
| SqlCleaning.FenceRunsAreCut | backend/app/core/openai_client.py:20 | runs of `` ` ``, `s`, `q`, `l` are cut from both ends |
| SqlCleaning.FenceAfterWhitespaceIsCut | backend/app/core/openai_client.py:20 | fence characters after whitespace are cut, then the whitespace; fence characters before that whitespace stay |
| SqlCleaning.MissingContentIsEmpty | backend/app/core/openai_client.py:19-20 | a missing content yields "" |
| SqlCleaning.TrailingSIsCut | backend/app/core/openai_client.py:20 | `SELECT * FROM users` becomes `SELECT * FROM user` |
| SqlCleaning.LeadingSIsCut | backend/app/core/openai_client.py:20 | `select 1` becomes `elect 1` |
| SqlCleaning.FencedQuery | backend/app/core/openai_client.py:20 | "```sql\nSELECT 1\n```" becomes `SELECT 1` |
| SqlCleaning.CleanNotIdempotent | backend/app/core/openai_client.py:20 | `x s `` ` `` becomes `x s`, and cleaning again gives `x` |
| SchemaIntrospect.ColumnText | backend/app/db/schema_introspect.py:10 | definition: `name (type)` for one column |
| SchemaIntrospect.ColumnTexts | backend/app/db/schema_introspect.py:10 | one text per column, in column order, each `name (type)` |
| SchemaIntrospect.TableLine | backend/app/db/schema_introspect.py:11 | definition: `Table t: ` followed by the column texts joined by ", "; TableLineListsColumns and TableLineIsOneLine state what it holds |
| SchemaIntrospect.Lines | backend/app/db/schema_introspect.py:8-11 | one line per table name, in the inspector's order, each built from that table's columns |
| SchemaIntrospect.Describe | backend/app/db/schema_introspect.py:4-13 | definition: the description, the tables' lines joined by line breaks; OneLinePerTable states its shape |
| SchemaIntrospect.GetSchemaDescription | backend/app/db/schema_introspect.py:4-13 | the loop's description is the tables' lines joined by line breaks |
| SchemaIntrospect.NoTablesNoDescription | backend/app/db/schema_introspect.py:6-13 | with zero tables the description is "" |
| SchemaIntrospect.TableWithoutColumns | backend/app/db/schema_introspect.py:10-11 | a table without columns renders as `Table t: ` |
| SchemaIntrospect.TableLineListsColumns | backend/app/db/schema_introspect.py:10-11 | a line starts with `Table t: ` and holds every column's text |
| SchemaIntrospect.TableLineIsOneLine | backend/app/db/schema_introspect.py:10-11 | a line holds no line break when the names and types it prints hold none |
| SchemaIntrospect.OneLinePerTable | backend/app/db/schema_introspect.py:8-13 | with n ≥ 1 tables and no line breaks in the table names, column names or types, splitting the description at line breaks gives exactly the n lines, in order |
| Config.GetEnv | backend/app/core/config.py:8-9 | `os.getenv(name, default)` is the value when set and the default otherwise |
| Config.KeepNonBlank | backend/app/core/config.py:10-13 | the kept origins are at most as many as the pieces, non-empty and trimmed |
| Config.CorsOrigins | backend/app/core/config.py:10-14 | the origin list is never empty, and no origin is empty, has surrounding whitespace or holds a comma |
| Config.LoadSettings | backend/app/core/config.py:6-14 | the project is "GENAI_SQL"; the key and the URL default to ""; the origins are those of `CorsOrigins` |
| Config.KeepNonBlankHasNoComma | backend/app/core/config.py:11-12 | trimming comma-free pieces leaves no comma |
| Config.KeepNonBlankAppend | backend/app/core/config.py:10-13 | filtering distributes over concatenation, so the origins keep the pieces' order |
| Config.KeepNonBlankEmpty | backend/app/core/config.py:13 | nothing is kept exactly when every piece is blank |
| Config.WildcardDefault | backend/app/core/config.py:12-14 | nothing is kept exactly when the variable is unset or holds only commas and whitespace; the list is then `["*"]` |
| Config.PieceOfSplit | backend/app/core/config.py:12 | every character of a piece comes from the variable |
| Config.PieceHolding | backend/app/core/config.py:12 | every character other than a comma lies in some piece |
| Config.KeepNonBlankClean | backend/app/core/config.py:11-13 | trimmed, non-blank pieces pass the filter unchanged |
| Config.CorsRoundTrip | backend/app/core/config.py:10-14 | clean, comma-free origins joined by commas are read back as the same list |
| RoutesQuery.Forbidden | backend/app/api/routes_query.py:24 | definition: the six refused words, in lower case and in the source's order |
| RoutesQuery.IsSafeSql | backend/app/api/routes_query.py:23-26 | SQL is unsafe exactly when its lower-cased text contains one of insert/update/delete/drop/alter/truncate |
| RoutesQuery.SafetyIgnoresCase | backend/app/api/routes_query.py:25-26 | two texts that differ only in letter case get the same verdict |
| RoutesQuery.UnsafeInfix | backend/app/api/routes_query.py:24-26 | a text that contains an unsafe text is unsafe |
| RoutesQuery.EmptyIsSafe | backend/app/api/routes_query.py:24-26 | the empty text is safe |
| RoutesQuery.ForbiddenWordAnywhere | backend/app/api/routes_query.py:24-26 | a forbidden word in any case, with anything around it, makes the text unsafe |
| RoutesQuery.UpdatedAtIsRefused | backend/app/api/routes_query.py:24-26 | any text that mentions `updated_at` is refused |
| RoutesQuery.IsBlank | backend/app/api/routes_query.py:31 | definition: `not question.strip()`; BlankMeansWhitespace states what it means |
| RoutesQuery.BlankMeansWhitespace | backend/app/api/routes_query.py:31 | a question is blank exactly when it is empty or all whitespace |
| RoutesQuery.Status | backend/app/api/routes_query.py:31-46 | every error is a 400; the response body is a 200 |
| RoutesQuery.Detail | backend/app/api/routes_query.py:31-46 | the three error details; an execution error's detail is "SQL execution error: " followed by the exception's text |
| RoutesQuery.ShowRows | backend/app/api/routes_query.py:44 | the rows keep their number, order and lengths, and each cell is replaced by its text |
| RoutesQuery.LanguageModelGenerator | backend/app/api/routes_query.py:36 | definition: the generator of the running backend, `generate_sql` for the language model's replies; ExecutedSqlComesFromReply states what it hands to the database |
| RoutesQuery.QueryOutcome | backend/app/api/routes_query.py:29-48 | blank means EmptyQuestion; unsafe generated SQL means NotReadOnly; an exception means ExecError with its text; Ok carries the generated SQL unchanged, the columns and the rows as text |
| RoutesQuery.QueryCalls | backend/app/api/routes_query.py:31-42 | no call for a blank question; otherwise describe, then generate with the untrimmed question, then execute the generated SQL exactly when it is safe; at most three calls, so no stage runs twice |
| RoutesQuery.Backend.constructor | backend/app/api/routes_query.py:30 | the collaborators are set, and no call has been made yet |
| RoutesQuery.Backend.DescribeSchema | backend/app/api/routes_query.py:34 | returns the schema description and records the call |
| RoutesQuery.Backend.GenerateQuery | backend/app/api/routes_query.py:36 | returns the generator's SQL and records the call with its arguments |
| RoutesQuery.Backend.Execute | backend/app/api/routes_query.py:42-44 | returns the database's answer and records the call |
| RoutesQuery.Backend.RunQuery | backend/app/api/routes_query.py:29-48 | the outcome is `QueryOutcome`, and the calls made are exactly `QueryCalls`, appended in order |
| RoutesQuery.NoTablesStillGenerates | backend/app/api/routes_query.py:34-36 | with zero tables the generator is still called, with the empty description |
| RoutesQuery.DropTableIsRefused | backend/app/api/routes_query.py:38-39 | `DROP TABLE users;` is refused |
| RoutesQuery.DropIsNeverExecuted | backend/app/api/routes_query.py:36-42 | a generator answering `DROP TABLE users;` gets NotReadOnly, and execute is never called |
| RoutesQuery.SelectHoldsNoForbiddenWord | backend/app/api/routes_query.py:24-26 | none of the six words occurs in `select id, name from users;` |
| RoutesQuery.SelectIsSafe | backend/app/api/routes_query.py:23-26 | `SELECT id, name FROM users;` passes the filter |
| RoutesQuery.StubbedRoundTrip | backend/app/api/routes_query.py:29-48 | a generator answering `SELECT id, name FROM users;` and a database returning the columns `id`, `name` give Ok with that SQL, those columns and the rows as text, after exactly three calls, the last the execution |
| RoutesQuery.ExecutedSqlComesFromReply | backend/app/api/routes_query.py:36-42 | with the language model as generator, the SQL executed is safe, empty when the reply has no content, otherwise a contiguous piece of the content, and never has surrounding whitespace |

## Left out

- The call to the language model's API (backend/app/core/openai_client.py:11-18) is a network call. The model builds the request it sends (`OpenAIClient.CompletionRequest`) and takes the reply as a function from request to optional content.
- SQLAlchemy is an input:
  - the inspector is the table names and a function from a table name to its columns;
  - `c['type']` is the text the type renders to;
  - `db.execute`, `keys()` and `fetchall()` together are a function from SQL to columns and rows, or an exception message.
- RoutesQuery.QueryOutcome: the SQL generator is a parameter of the route. In the running backend it is `LanguageModelGenerator(reply)`, which is `GenerateSql`; ExecutedSqlComesFromReply connects the two.
- RoutesQuery.ShowRows: `str` of a cell is a total function. A `str` that raises inside the `try` (which the route would report as an execution error) is not modelled.
- Exceptions raised by schema introspection or by the language-model call are not caught by the route; they become HTTP 500 responses. They are not modelled.
- Strings.Lower: `lower()` folds only `A`-`Z`. Python's Unicode case mapping of other letters is not modelled.
- Formatting.Format: the template is parsed in full before it is rendered, whereas `str.format` renders each field as soon as it has parsed it. On a template that is both malformed and missing a keyword, the model may report the `ValueError` case where Python raises `KeyError` (`"{a}}x".format()` is `SingleClose` here, `KeyError('a')` in Python). The template this backend formats parses and has both keywords, so it never fails.
- Formatting.Parse: the template parser covers bare-name replacement fields and the `{{` / `}}` escapes only. Conversions (`!r`), format specs (`:...`), positional, attribute and index fields are not modelled; the template uses none of them.
- Async execution, `load_dotenv`, the module-level `settings` instance and Pydantic request/response validation are not modelled.
- The application wiring, CORS middleware and the health and debug routes (backend/app/main.py) are not part of this model, and neither is the frontend.
