/** The post-processing `generate_sql` applies to the language model's
    reply: `(content or "").strip().strip("```sql").strip("```").strip()`.
    `strip` takes its argument as a set of characters, not as a prefix or
    suffix, which the lemmas below make visible. */
module SqlCleaning {
  import opened Strings
  import opened Wrappers

  /** The characters of "```sql", which `strip("```sql")` removes as a set. */
  const FenceChars: set<char> := {'`', 's', 'q', 'l'}

  /** The characters of "```". */
  const Backticks: set<char> := {'`'}

  /** `content or ""`. */
  function OrEmpty(content: Option<string>): (s: string)
    ensures content.None? ==> s == []
  {
    if content.Some? then content.value else []
  }

  /** The strip chain of `generate_sql`. Its result has no surrounding
      whitespace. */
  function Clean(raw: string): (sql: string)
    ensures sql == [] || (sql[0] !in Whitespace && sql[|sql| - 1] !in Whitespace)
  {
    Trim(Strip(Strip(Trim(raw), FenceChars), Backticks))
  }

  /** The cleaned text is a contiguous piece of the raw reply, so it is
      never longer than the reply. */
  lemma CleanIsInfix(raw: string)
    ensures IsInfix(Clean(raw), raw)
    ensures |Clean(raw)| <= |raw|
  {
    var s1 := Trim(raw);
    var s2 := Strip(s1, FenceChars);
    var s3 := Strip(s2, Backticks);
    StripInfix(raw, Whitespace);
    StripInfix(s1, FenceChars);
    StripInfix(s2, Backticks);
    StripInfix(s3, Whitespace);
    InfixTransitive(s2, s1, raw);
    InfixTransitive(s3, s2, raw);
    InfixTransitive(Clean(raw), s3, raw);
  }

  /** The chain leaves a text unchanged exactly when it is empty or starts
      and ends with a character that is neither whitespace nor one of
      `` ` ``, `s`, `q`, `l`. */
  lemma CleanFixpoint(s: string)
    ensures Clean(s) == s
        <==> (s == [] || (s[0] !in Whitespace + FenceChars && s[|s| - 1] !in Whitespace + FenceChars))
  {
    var s1 := Trim(s);
    var s2 := Strip(s1, FenceChars);
    var s3 := Strip(s2, Backticks);
    if Clean(s) == s {
      assert |s3| <= |s2| <= |s1| <= |s|;
      StripKeepsLength(s, Whitespace);
      StripKeepsLength(s1, FenceChars);
      StripIdentity(s, Whitespace);
      StripIdentity(s1, FenceChars);
    } else if s == [] || (s[0] !in Whitespace + FenceChars && s[|s| - 1] !in Whitespace + FenceChars) {
      StripIdentity(s, Whitespace);
      StripIdentity(s1, FenceChars);
      StripIdentity(s2, Backticks);
      StripIdentity(s3, Whitespace);
    }
  }

  /** A body fenced as "```sql\n" ... "\n```" comes back as the body with
      its surrounding whitespace removed. */
  lemma CleanFencedBlock(body: string)
    ensures Clean("```sql\n" + body + "\n```") == Trim(body)
  {
    var raw := "```sql\n" + body + "\n```";
    StripIdentity(raw, Whitespace);
    assert Trim(raw) == raw;
    var inner := "\n" + body + "\n";
    assert raw == "```sql" + inner + "```";
    if inner[0] in FenceChars || inner[|inner| - 1] in FenceChars {
      assert false;
    }
    StripUnique("```sql", inner, "```", FenceChars);
    StripIdentity(inner, Backticks);
    StripPadded("\n", body, "\n", Whitespace);
  }

  // ---------------------------------------------------------------------------
  // What the chain does to particular replies

  /** `strip("```sql")` removes characters, not a prefix: runs of `` ` ``,
      `s`, `q` and `l` are cut from both ends of a text that is otherwise
      free of surrounding whitespace and fence characters. */
  lemma FenceRunsAreCut(a: string, q: string, b: string)
    requires forall c :: c in a ==> c in FenceChars
    requires forall c :: c in b ==> c in FenceChars
    requires q != [] && q[0] !in Whitespace + FenceChars && q[|q| - 1] !in Whitespace + FenceChars
    ensures Clean(a + q + b) == q
  {
    var s := a + q + b;
    assert s[0] in FenceChars || s[0] == q[0];
    assert s[|s| - 1] in FenceChars || s[|s| - 1] == q[|q| - 1];
    StripIdentity(s, Whitespace);
    StripUnique(a, q, b, FenceChars);
    StripIdentity(q, Backticks);
    StripIdentity(q, Whitespace);
  }

  /** Fence characters after whitespace are cut, then the whitespace, but
      whatever fence characters the whitespace shielded stay. */
  lemma FenceAfterWhitespaceIsCut(q: string, w: string, t: string)
    requires q != [] && q[0] !in Whitespace + FenceChars && q[|q| - 1] !in Whitespace
    requires w != [] && forall c :: c in w ==> c in Whitespace
    requires t != [] && forall c :: c in t ==> c in FenceChars
    ensures Clean(q + w + t) == q
  {
    var s, qw := q + w + t, q + w;
    assert w[|w| - 1] in w && qw[0] == q[0] && qw[|qw| - 1] == w[|w| - 1];
    assert Trim(s) == s by {
      assert t[|t| - 1] in t && s[0] == q[0] && s[|s| - 1] == t[|t| - 1];
      StripIdentity(s, Whitespace);
    }
    assert Strip(s, FenceChars) == qw by {
      assert s == [] + qw + t;
      StripUnique([], qw, t, FenceChars);
    }
    assert Strip(qw, Backticks) == qw by {
      StripIdentity(qw, Backticks);
    }
    assert Trim(qw) == q by {
      assert qw == [] + q + w;
      StripUnique([], q, w, Whitespace);
    }
  }

  /** A missing content yields the empty string. */
  lemma MissingContentIsEmpty()
    ensures Clean(OrEmpty(None)) == ""
  {
    StripIdentity([], Whitespace);
  }

  /** A query ending in a lower-case `s` loses it. */
  lemma TrailingSIsCut()
    ensures Clean("SELECT * FROM users") == "SELECT * FROM user"
  {
    var s, q := "SELECT * FROM users", "SELECT * FROM user";
    assert s == [] + q + "s";
    FenceRunsAreCut([], q, "s");
  }

  /** ... and so does a query starting with one. */
  lemma LeadingSIsCut()
    ensures Clean("select 1") == "elect 1"
  {
    var s, q := "select 1", "elect 1";
    assert s == "s" + q + [];
    FenceRunsAreCut("s", q, []);
  }

  /** A fenced query comes back without its fence. */
  lemma FencedQuery()
    ensures Clean("```sql\nSELECT 1\n```") == "SELECT 1"
  {
    var body := "SELECT 1";
    assert "```sql\nSELECT 1\n```" == "```sql\n" + body + "\n```";
    CleanFencedBlock(body);
    StripIdentity(body, Whitespace);
  }

  /** The chain is not idempotent: a second pass can cut more. */
  lemma CleanNotIdempotent()
    ensures Clean("x s `") == "x s"
    ensures Clean(Clean("x s `")) == "x"
  {
    FenceAfterWhitespaceIsCut("x s", " ", "`");
    assert "x s `" == "x s" + " " + "`";
    FenceAfterWhitespaceIsCut("x", " ", "s");
    assert "x s" == "x" + " " + "s";
  }
}
