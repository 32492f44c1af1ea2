/** Python's `str.format(**kwargs)` for templates whose replacement fields
    are plain keyword names: the template is first parsed into literal runs
    and named fields (`{{` and `}}` standing for literal braces), then each
    field is replaced by its keyword argument, verbatim. */
module Formatting {

  datatype Piece = Lit(text: string) | Field(name: string)

  /** The ways `str.format` fails on such templates: a lone `{` at the end,
      a lone `}`, a field with no closing `}`, a `{` inside a field name
      (each a `ValueError`), and a field naming an absent keyword (a
      `KeyError`). `Format` parses the whole template before it renders,
      so which of these it reports can differ from Python's on a template
      that has more than one fault. */
  datatype FormatError =
    | SingleOpen
    | SingleClose
    | UnterminatedField
    | OpenInFieldName
    | MissingKey(name: string)

  datatype Result<T> = Ok(value: T) | Err(error: FormatError)

  predicate NoBraces(s: string)
  {
    '{' !in s && '}' !in s
  }

  /** The position of the first brace in `u`, or `|u|` if there is none. */
  function BraceIndex(u: string): (k: nat)
    ensures k <= |u|
    ensures NoBraces(u[..k])
    ensures k < |u| ==> u[k] == '{' || u[k] == '}'
    decreases |u|
  {
    if u == [] || u[0] == '{' || u[0] == '}' then 0
    else
      var k := BraceIndex(u[1..]);
      assert u[..k + 1] == [u[0]] + u[1..][..k];
      k + 1
  }

  /** Puts literal text in front of a parse, merging it with a leading
      literal piece so that literal runs stay maximal. */
  function WithLiteral(text: string, r: Result<seq<Piece>>): Result<seq<Piece>>
  {
    if text == [] then r
    else match r
      case Err(e) => Err(e)
      case Ok(ps) =>
        if ps != [] && ps[0].Lit? then Ok([Lit(text + ps[0].text)] + ps[1..])
        else Ok([Lit(text)] + ps)
  }

  function WithField(name: string, r: Result<seq<Piece>>): Result<seq<Piece>>
  {
    match r
    case Err(e) => Err(e)
    case Ok(ps) => Ok([Field(name)] + ps)
  }

  /** The template parser behind `str.format`, restricted to fields that are
      bare names. */
  function Parse(t: string): Result<seq<Piece>>
    decreases |t|
  {
    if t == [] then Ok([])
    else if t[0] == '{' then
      if |t| == 1 then Err(SingleOpen)
      else if t[1] == '{' then WithLiteral("{", Parse(t[2..]))
      else
        var k := BraceIndex(t[1..]);
        if k == |t| - 1 then Err(UnterminatedField)
        else if t[k + 1] == '{' then Err(OpenInFieldName)
        else WithField(t[1..k + 1], Parse(t[k + 2..]))
    else if t[0] == '}' then
      if |t| >= 2 && t[1] == '}' then WithLiteral("}", Parse(t[2..]))
      else Err(SingleClose)
    else WithLiteral([t[0]], Parse(t[1..]))
  }

  /** Replaces every field by its keyword argument, inserted unchanged,
      from left to right. It fails, with a `KeyError`, exactly when some
      field names a keyword that is absent, and the error names the first
      such field, as `str.format` stops at the first field it cannot fill. */
  function Render(ps: seq<Piece>, args: map<string, string>): (r: Result<string>)
    ensures r.Ok? <==> forall k :: 0 <= k < |ps| && ps[k].Field? ==> ps[k].name in args
    ensures r.Err? ==>
              exists k :: 0 <= k < |ps| && ps[k].Field? && ps[k].name !in args && r.error == MissingKey(ps[k].name)
                          && forall j :: 0 <= j < k && ps[j].Field? ==> ps[j].name in args
    decreases |ps|
  {
    if ps == [] then Ok([])
    else if ps[0].Field? && ps[0].name !in args then Err(MissingKey(ps[0].name))
    else
      match Render(ps[1..], args)
      case Err(e) =>
        assert forall j :: 1 <= j < |ps| ==> ps[j] == ps[1..][j - 1];
        Err(e)
      case Ok(rest) =>
        match ps[0]
        case Lit(text) => Ok(text + rest)
        case Field(name) => Ok(args[name] + rest)
  }

  /** `template.format(**args)`: it succeeds exactly when the template
      parses and every field it holds names a given keyword. The template
      is parsed in full first, then rendered. */
  function Format(template: string, args: map<string, string>): (r: Result<string>)
    ensures r.Ok? <==>
              Parse(template).Ok?
              && forall k :: 0 <= k < |Parse(template).value| && Parse(template).value[k].Field? ==>
                   Parse(template).value[k].name in args
  {
    match Parse(template)
    case Err(e) => Err(e)
    case Ok(ps) => Render(ps, args)
  }

  // ---------------------------------------------------------------------------
  // How templates built from pieces parse

  lemma WithLiteralAssoc(a: string, b: string, r: Result<seq<Piece>>)
    ensures WithLiteral(a, WithLiteral(b, r)) == WithLiteral(a + b, r)
  {
    if a == [] {
      assert a + b == b;
    } else if b == [] {
      assert a + b == a;
    } else if r.Ok? {
      var ps := r.value;
      if ps != [] && ps[0].Lit? {
        assert a + (b + ps[0].text) == (a + b) + ps[0].text;
        assert ([Lit(b + ps[0].text)] + ps[1..])[1..] == ps[1..];
      } else {
        assert ([Lit(b)] + ps)[1..] == ps;
      }
    }
  }

  /** Text without braces parses as one literal run in front of whatever
      follows it. */
  lemma {:induction false} ParseLiteral(a: string, b: string)
    requires NoBraces(a)
    ensures Parse(a + b) == WithLiteral(a, Parse(b))
    decreases |a|
  {
    if a != [] {
      assert a[0] in a;
      assert (a + b)[1..] == a[1..] + b;
      assert NoBraces(a[1..]) by {
        assert forall c :: c in a[1..] ==> c in a;
      }
      ParseLiteral(a[1..], b);
      WithLiteralAssoc([a[0]], a[1..], Parse(b));
      assert [a[0]] + a[1..] == a;
    } else {
      assert a + b == b;
    }
  }

  /** `{name}` with a brace-free name parses as one field. */
  lemma ParseField(name: string, b: string)
    requires NoBraces(name)
    ensures Parse("{" + name + "}" + b) == WithField(name, Parse(b))
  {
    var t := "{" + name + "}" + b;
    assert t[1..] == name + "}" + b;
    if name != [] {
      assert name[0] in name;
    }
    var u := t[1..];
    var k := BraceIndex(u);
    assert u[|name|] == '}';
    assert k == |name|;
    assert t[1..k + 1] == name;
    assert t[k + 2..] == b;
  }

  /** Rendering distributes over a literal run and over a present field. */
  lemma RenderLiteral(text: string, ps: seq<Piece>, args: map<string, string>)
    requires Render(ps, args).Ok?
    ensures Render([Lit(text)] + ps, args) == Ok(text + Render(ps, args).value)
  {
    assert ([Lit(text)] + ps)[1..] == ps;
  }

  lemma RenderField(name: string, ps: seq<Piece>, args: map<string, string>)
    requires Render(ps, args).Ok? && name in args
    ensures Render([Field(name)] + ps, args) == Ok(args[name] + Render(ps, args).value)
  {
    assert ([Field(name)] + ps)[1..] == ps;
  }

  /** A template made of three brace-free, non-empty literal runs around two
      fields parses into exactly those five pieces. */
  lemma {:induction false} ParseTwoFields(p: string, f: string, m: string, g: string, x: string)
    requires p != [] && m != [] && x != []
    requires NoBraces(p) && NoBraces(f) && NoBraces(m) && NoBraces(g) && NoBraces(x)
    ensures Parse(p + ("{" + f + "}" + (m + ("{" + g + "}" + x))))
         == Ok([Lit(p), Field(f), Lit(m), Field(g), Lit(x)])
  {
    var none: seq<Piece> := [];
    ParseLiteral(x, []);
    assert x + [] == x;
    assert [Lit(x)] + none == [Lit(x)];
    ParseField(g, x);
    var ps3 := [Field(g), Lit(x)];
    assert [Field(g)] + [Lit(x)] == ps3;
    ParseLiteral(m, "{" + g + "}" + x);
    var ps2 := [Lit(m)] + ps3;
    ParseField(f, m + ("{" + g + "}" + x));
    var ps1 := [Field(f)] + ps2;
    ParseLiteral(p, "{" + f + "}" + (m + ("{" + g + "}" + x)));
    assert [Lit(p)] + ps1 == [Lit(p), Field(f), Lit(m), Field(g), Lit(x)];
  }

  /** Rendering those five pieces puts each argument verbatim between the
      literal runs. */
  lemma {:induction false} RenderTwoFields(p: string, f: string, m: string, g: string, x: string, args: map<string, string>)
    requires f in args && g in args
    ensures Render([Lit(p), Field(f), Lit(m), Field(g), Lit(x)], args)
         == Ok(p + (args[f] + (m + (args[g] + x))))
  {
    var ps := [Lit(p), Field(f), Lit(m), Field(g), Lit(x)];
    RenderLiteral(x, [], args);
    assert ps[4..] == [Lit(x)] + [];
    assert x + [] == x;
    RenderField(g, ps[4..], args);
    assert ps[3..] == [Field(g)] + ps[4..];
    RenderLiteral(m, ps[3..], args);
    assert ps[2..] == [Lit(m)] + ps[3..];
    RenderField(f, ps[2..], args);
    assert ps[1..] == [Field(f)] + ps[2..];
    RenderLiteral(p, ps[1..], args);
    assert ps == [Lit(p)] + ps[1..];
  }

  /** The first field that cannot be filled is the one reported: for
      `"{f}{g}".format(**args)` with `f` absent, the `KeyError` is for `f`,
      whether or not `g` is given (so `"{a}{b}".format()` raises
      `KeyError('a')`). */
  lemma FirstMissingKeyIsReported(f: string, g: string, args: map<string, string>)
    requires NoBraces(f) && NoBraces(g) && f !in args
    ensures Format("{" + f + "}" + ("{" + g + "}"), args) == Err(MissingKey(f))
  {
    var none: seq<Piece> := [];
    ParseField(g, []);
    assert "{" + g + "}" + [] == "{" + g + "}";
    assert Parse("{" + g + "}") == Ok([Field(g)] + none);
    ParseField(f, "{" + g + "}");
  }
}
