/** `Settings`: the project name, the language model's API key, the
    database URL and the list of origins allowed by CORS, read from the
    process environment. Each variable is an optional string, absent when
    it is not set. */
module Config {
  import opened Strings
  import opened Wrappers

  /** `os.getenv(name, default)` for a variable holding `value`. */
  function GetEnv(value: Option<string>, default: string): (s: string)
    ensures value.Some? ==> s == value.value
    ensures value.None? ==> s == default
  {
    if value.Some? then value.value else default
  }

  /** `[origin.strip() for origin in pieces if origin.strip()]`: the
      trimmed pieces that are not blank, in their order. */
  function KeepNonBlank(pieces: seq<string>): (origins: seq<string>)
    ensures |origins| <= |pieces|
    ensures forall k :: 0 <= k < |origins| ==>
              origins[k] != [] && origins[k][0] !in Whitespace && origins[k][|origins[k]| - 1] !in Whitespace
    decreases |pieces|
  {
    if pieces == [] then []
    else
      var origin := Trim(pieces[0]);
      (if origin != [] then [origin] else []) + KeepNonBlank(pieces[1..])
  }

  /** `BACKEND_CORS_ORIGINS`: the comma-separated pieces of the variable
      (empty when unset), trimmed, blanks dropped, or `["*"]` when nothing
      is left. The list is never empty, and no origin is empty, has
      surrounding whitespace or holds a comma. */
  function CorsOrigins(value: Option<string>): (origins: seq<string>)
    ensures origins != []
    ensures forall k :: 0 <= k < |origins| ==>
              origins[k] != [] && origins[k][0] !in Whitespace && origins[k][|origins[k]| - 1] !in Whitespace
    ensures forall k :: 0 <= k < |origins| ==> ',' !in origins[k]
  {
    var pieces := Split(GetEnv(value, ""), ',');
    var kept := KeepNonBlank(pieces);
    KeepNonBlankHasNoComma(pieces);
    if kept == [] then ["*"] else kept
  }

  datatype Settings = Settings(
    projectName: string,
    openAiApiKey: string,
    databaseUrl: string,
    corsOrigins: seq<string>)

  /** The settings for the values of `OPENAI_API_KEY`, `DATABASE_URL` and
      `BACKEND_CORS_ORIGINS`: the project is "GENAI_SQL", and the key and
      the URL are the empty string when unset. */
  function LoadSettings(apiKey: Option<string>, databaseUrl: Option<string>, corsOrigins: Option<string>): (s: Settings)
    ensures s.projectName == "GENAI_SQL"
    ensures s.openAiApiKey == (if apiKey.Some? then apiKey.value else "")
    ensures s.databaseUrl == (if databaseUrl.Some? then databaseUrl.value else "")
    ensures s.corsOrigins != [] && s.corsOrigins == CorsOrigins(corsOrigins)
  {
    Settings("GENAI_SQL", GetEnv(apiKey, ""), GetEnv(databaseUrl, ""), CorsOrigins(corsOrigins))
  }

  // ---------------------------------------------------------------------------
  // Properties of the origin list

  /** Trimming pieces that hold no comma leaves no comma. */
  lemma {:induction false} KeepNonBlankHasNoComma(pieces: seq<string>)
    requires forall k :: 0 <= k < |pieces| ==> ',' !in pieces[k]
    ensures forall k :: 0 <= k < |KeepNonBlank(pieces)| ==> ',' !in KeepNonBlank(pieces)[k]
    decreases |pieces|
  {
    if pieces != [] {
      StripSubset(pieces[0], Whitespace);
      KeepNonBlankHasNoComma(pieces[1..]);
    }
  }

  /** Filtering distributes over concatenation, so the origins keep the
      order of the pieces they come from. */
  lemma {:induction false} KeepNonBlankAppend(xs: seq<string>, ys: seq<string>)
    ensures KeepNonBlank(xs + ys) == KeepNonBlank(xs) + KeepNonBlank(ys)
    decreases |xs|
  {
    if xs == [] {
      assert xs + ys == ys;
    } else {
      var origin := Trim(xs[0]);
      var head := if origin != [] then [origin] else [];
      assert KeepNonBlank(xs + ys) == head + KeepNonBlank(xs[1..] + ys) by {
        assert (xs + ys)[0] == xs[0] && (xs + ys)[1..] == xs[1..] + ys;
      }
      assert KeepNonBlank(xs) == head + KeepNonBlank(xs[1..]);
      KeepNonBlankAppend(xs[1..], ys);
      AppendAssoc(head, KeepNonBlank(xs[1..]), KeepNonBlank(ys));
    }
  }

  lemma AppendAssoc<T>(a: seq<T>, b: seq<T>, c: seq<T>)
    ensures a + (b + c) == (a + b) + c
  {
  }

  /** Nothing is kept exactly when every piece is blank. */
  lemma {:induction false} KeepNonBlankEmpty(pieces: seq<string>)
    ensures KeepNonBlank(pieces) == [] <==> forall k :: 0 <= k < |pieces| ==> Trim(pieces[k]) == []
    decreases |pieces|
  {
    if pieces != [] {
      KeepNonBlankEmpty(pieces[1..]);
      assert forall k :: 1 <= k < |pieces| ==> pieces[k] == pieces[1..][k - 1];
    }
  }

  /** The default `["*"]` applies exactly when the variable is unset or
      consists of commas and whitespace only (the empty string included). */
  lemma WildcardDefault(value: Option<string>)
    ensures KeepNonBlank(Split(GetEnv(value, ""), ',')) == []
        <==> (value.None? || forall i :: 0 <= i < |value.value| ==> value.value[i] == ',' || value.value[i] in Whitespace)
    ensures (value.None? || forall i :: 0 <= i < |value.value| ==> value.value[i] == ',' || value.value[i] in Whitespace)
        ==> CorsOrigins(value) == ["*"]
  {
    var raw := GetEnv(value, "");
    var pieces := Split(raw, ',');
    KeepNonBlankEmpty(pieces);
    JoinSplit(raw, ',');
    if forall i :: 0 <= i < |raw| ==> raw[i] == ',' || raw[i] in Whitespace {
      forall k | 0 <= k < |pieces|
        ensures Trim(pieces[k]) == []
      {
        PieceOfSplit(raw, k);
        StripEmpty(pieces[k], Whitespace);
      }
    } else {
      var i :| 0 <= i < |raw| && raw[i] != ',' && raw[i] !in Whitespace;
      var k := PieceHolding(raw, i);
      StripEmpty(pieces[k], Whitespace);
    }
  }

  /** Every character of a piece of `raw.split(",")` is a character of
      `raw`. */
  lemma PieceOfSplit(raw: string, k: nat)
    requires k < |Split(raw, ',')|
    ensures forall j :: 0 <= j < |Split(raw, ',')[k]| ==> Split(raw, ',')[k][j] in raw
  {
    var pieces := Split(raw, ',');
    JoinSplit(raw, ',');
    JoinHasPart([','], pieces, k);
    var p := pieces[k];
    var at :| 0 <= at <= |raw| && p <= raw[at..];
    forall j | 0 <= j < |p| ensures p[j] in raw {
      assert p[j] == raw[at + j];
    }
  }

  /** A character of `raw` other than a comma lies in some piece of
      `raw.split(",")`: the index of that piece. */
  lemma {:induction false} PieceHolding(raw: string, i: nat) returns (k: nat)
    requires i < |raw| && raw[i] != ','
    ensures k < |Split(raw, ',')|
    ensures exists j :: 0 <= j < |Split(raw, ',')[k]| && Split(raw, ',')[k][j] == raw[i]
    decreases |raw|
  {
    var rest := Split(raw[1..], ',');
    if i == 0 {
      k := 0;
      assert Split(raw, ',')[0][0] == raw[0];
    } else {
      var k' := PieceHolding(raw[1..], i - 1);
      var j :| 0 <= j < |rest[k']| && rest[k'][j] == raw[1..][i - 1];
      if raw[0] == ',' {
        k := k' + 1;
        assert Split(raw, ',')[k] == rest[k'];
      } else if k' == 0 {
        k := 0;
        assert Split(raw, ',')[0][j + 1] == rest[0][j];
      } else {
        k := k';
        assert Split(raw, ',')[k] == rest[k'];
      }
    }
  }

  /** Trimmed, non-blank pieces pass the filter unchanged. */
  lemma {:induction false} KeepNonBlankClean(origins: seq<string>)
    requires forall k :: 0 <= k < |origins| ==>
               origins[k] != [] && origins[k][0] !in Whitespace && origins[k][|origins[k]| - 1] !in Whitespace
    ensures KeepNonBlank(origins) == origins
    decreases |origins|
  {
    if origins != [] {
      StripIdentity(origins[0], Whitespace);
      KeepNonBlankClean(origins[1..]);
      assert [origins[0]] + origins[1..] == origins;
    }
  }

  /** A list of non-empty, trimmed, comma-free origins written to the
      variable with commas between them is read back as the same list, in
      the same order. */
  lemma CorsRoundTrip(origins: seq<string>)
    requires origins != []
    requires forall k :: 0 <= k < |origins| ==>
               origins[k] != [] && origins[k][0] !in Whitespace && origins[k][|origins[k]| - 1] !in Whitespace
    requires forall k :: 0 <= k < |origins| ==> ',' !in origins[k]
    ensures CorsOrigins(Some(Join(",", origins))) == origins
  {
    SplitJoin(origins, ',');
    KeepNonBlankClean(origins);
  }
}
