/** Output templates of interference_calculator/molecule.py and the part of Python's str.format
    they use: literal text, doubled braces, and a replacement field for the one positional
    argument. */
module Templates {
  import opened Wrappers
  import opened Text

  /** A template compiled once: literal characters and the places where the argument goes. */
  datatype Piece = Lit(c: char) | Arg

  /** Field numbering seen so far: none yet, automatic ("{}") or manual ("{0}"). */
  datatype Numbering = Unset | Auto | Manual

  datatype Field = Field(name: string, rest: string)

  /** The text of a replacement field after its '{', up to its '}'. Format specifications and
      conversions are reported as not modelled. */
  function FieldText(t: string): (r: Result<Field>)
    ensures r.Ok? ==> |r.value.rest| < |t|
    ensures r.Ok? ==> forall i :: 0 <= i < |r.value.name| ==> r.value.name[i] !in "{}:!"
    decreases |t|
  {
    if t == [] then Err(ValueError("expected '}' before end of string"))
    else if t[0] == '}' then Ok(Field([], t[1..]))
    else if t[0] == '{' then Err(ValueError("unexpected '{' in field name"))
    else if t[0] == ':' || t[0] == '!' then Err(NotImplemented("format specification or conversion"))
    else
      match FieldText(t[1..])
      case Err(e) => Err(e)
      case Ok(f) => Ok(Field([t[0]] + f.name, f.rest))
  }

  function Cons(p: Piece, r: Result<seq<Piece>>): (q: Result<seq<Piece>>)
    ensures q.Ok? <==> r.Ok?
    ensures q.Ok? ==> q.value == [p] + r.value
  {
    match r
    case Ok(ps) => Ok([p] + ps)
    case Err(e) => Err(e)
  }

  /** str.format's parse of a template, applied to a single positional argument. */
  function CompileFrom(t: string, mode: Numbering): Result<seq<Piece>>
    decreases |t|
  {
    if t == [] then Ok([])
    else if t[0] == '{' then
      if 1 < |t| && t[1] == '{' then Cons(Lit('{'), CompileFrom(t[2..], mode))
      else
        match FieldText(t[1..])
        case Err(e) => Err(e)
        case Ok(f) =>
          if f.name == [] then
            if mode == Manual then
              Err(ValueError("cannot switch from manual field specification to automatic field numbering"))
            else if mode == Auto then Err(LookupError("Replacement index 1 out of range"))
            else Cons(Arg, CompileFrom(f.rest, Auto))
          else if AllDigits(f.name) then
            if mode == Auto then
              Err(ValueError("cannot switch from automatic field numbering to manual field specification"))
            else if DigitsValue(f.name) != 0 then Err(LookupError("Replacement index out of range"))
            else Cons(Arg, CompileFrom(f.rest, Manual))
          else if '.' in f.name || '[' in f.name then
            Err(NotImplemented("attribute or element access in a field"))
          else Err(LookupError(f.name))
    else if t[0] == '}' then
      if 1 < |t| && t[1] == '}' then Cons(Lit('}'), CompileFrom(t[2..], mode))
      else Err(ValueError("Single '}' encountered in format string"))
    else Cons(Lit(t[0]), CompileFrom(t[1..], mode))
  }

  function Render(ps: seq<Piece>, x: string): string
    decreases |ps|
  {
    if ps == [] then []
    else (match ps[0] case Lit(c) => [c] case Arg => x) + Render(ps[1..], x)
  }

  /** template.format(x) */
  function Format(template: string, x: string): Result<string>
  {
    match CompileFrom(template, Unset)
    case Ok(ps) => Ok(Render(ps, x))
    case Err(e) => Err(e)
  }

  /** Text written so that str.format gives it back: braces doubled. */
  function Escape(s: string): string
    decreases |s|
  {
    if s == [] then []
    else (if s[0] == '{' then "{{" else if s[0] == '}' then "}}" else [s[0]]) + Escape(s[1..])
  }

  function Lits(s: string): (ps: seq<Piece>)
    ensures |ps| == |s|
    decreases |s|
  {
    if s == [] then [] else [Lit(s[0])] + Lits(s[1..])
  }

  lemma {:induction false} RenderLits(s: string, ps: seq<Piece>, x: string)
    ensures Render(Lits(s) + ps, x) == s + Render(ps, x)
    decreases |s|
  {
    if s != [] {
      assert (Lits(s) + ps)[1..] == Lits(s[1..]) + ps;
      RenderLits(s[1..], ps, x);
    } else {
      assert Lits(s) + ps == ps;
    }
  }

  lemma {:induction false} EscapeCons(s: string, rest: string)
    requires s != []
    ensures Escape(s) + rest
         == (if s[0] == '{' then "{{" else if s[0] == '}' then "}}" else [s[0]]) + (Escape(s[1..]) + rest)
  {
  }

  /** The literal pieces of s in front of a compiled rest, or the rest's error. */
  function PrependLits(s: string, r: Result<seq<Piece>>): Result<seq<Piece>> {
    match r
    case Ok(ps) => Ok(Lits(s) + ps)
    case Err(e) => Err(e)
  }

  lemma {:induction false} LitsCons(s: string, r: Result<seq<Piece>>)
    requires s != []
    ensures PrependLits(s, r) == Cons(Lit(s[0]), PrependLits(s[1..], r))
  {
    if r.Ok? {
      assert Lits(s) + r.value == [Lit(s[0])] + (Lits(s[1..]) + r.value);
    }
  }

  /** Escaped text compiles to its own characters, whatever follows it. */
  lemma {:induction false} CompileEscaped(s: string, rest: string, mode: Numbering)
    ensures CompileFrom(Escape(s) + rest, mode) == PrependLits(s, CompileFrom(rest, mode))
    decreases |s|
  {
    if s == [] {
      assert Escape(s) + rest == rest;
      if CompileFrom(rest, mode).Ok? {
        assert Lits(s) + CompileFrom(rest, mode).value == CompileFrom(rest, mode).value;
      }
    } else {
      EscapeCons(s, rest);
      var t := Escape(s) + rest;
      CompileEscaped(s[1..], rest, mode);
      LitsCons(s, CompileFrom(rest, mode));
      if s[0] == '{' {
        assert t[2..] == Escape(s[1..]) + rest;
      } else if s[0] == '}' {
        assert t[2..] == Escape(s[1..]) + rest;
      } else {
        assert t[1..] == Escape(s[1..]) + rest;
      }
    }
  }

  lemma {:induction false} CompileField(post: string)
    ensures CompileFrom("{}" + Escape(post), Unset) == Ok([Arg] + Lits(post))
  {
    var t := "{}" + Escape(post);
    assert t[1..] == "}" + Escape(post);
    assert FieldText("}" + Escape(post)) == Ok(Field([], Escape(post)));
    CompileEscaped(post, [], Auto);
    assert Escape(post) + [] == Escape(post);
    assert Lits(post) + [] == Lits(post);
  }

  lemma {:induction false} RenderField(pre: string, post: string, x: string)
    ensures Render(Lits(pre) + ([Arg] + Lits(post)), x) == pre + x + post
  {
    RenderLits(pre, [Arg] + Lits(post), x);
    RenderLits(post, [], x);
    assert Lits(post) + [] == Lits(post);
    assert ([Arg] + Lits(post))[1..] == Lits(post);
    assert pre + (x + (post + [])) == pre + x + post;
  }

  /** A template with one automatic field and escaped text around it puts the argument
      between that text. */
  lemma {:induction false} FormatOneField(pre: string, post: string, x: string)
    ensures Format(Escape(pre) + "{}" + Escape(post), x) == Ok(pre + x + post)
  {
    assert Escape(pre) + "{}" + Escape(post) == Escape(pre) + ("{}" + Escape(post));
    CompileEscaped(pre, "{}" + Escape(post), Unset);
    CompileField(post);
    RenderField(pre, post, x);
  }

  /** Text without braces formats to itself. */
  lemma {:induction false} FormatPlain(s: string, x: string)
    requires BraceFree(s)
    ensures Format(s, x) == Ok(s)
  {
    EscapeNoBraces(s);
    CompileEscaped(s, [], Unset);
    assert s + [] == s;
    RenderLits(s, [], x);
    assert Lits(s) + [] == Lits(s);
  }

  /** No brace anywhere in s. */
  predicate BraceFree(s: string)
    decreases |s|
  {
    s == [] || (s[0] != '{' && s[0] != '}' && BraceFree(s[1..]))
  }

  lemma {:induction false} EscapeNoBraces(s: string)
    requires BraceFree(s)
    ensures Escape(s) == s
    decreases |s|
  {
    if s != [] {
      EscapeNoBraces(s[1..]);
    }
  }

  /** Two automatic fields need two arguments; there is only one. */
  lemma {:induction false} TwoAutoFields(x: string)
    ensures Format("{}{}", x) == Err(LookupError("Replacement index 1 out of range"))
  {
    assert FieldText("}{}") == Ok(Field([], "{}"));
    assert FieldText("}") == Ok(Field([], []));
  }

  // ---------------------------------------------------------------------------------------
  // Templates

  /** The nine template entries: begin, atomic_mass, element, count, charge, minorjoin,
      majorjoin, minus, end. */
  datatype Template = Template(
    begin: string,
    atomicMass: string,
    element: string,
    count: string,
    charge: string,
    minorJoin: string,
    majorJoin: string,
    minus: string,
    end: string)

  const HtmlTemplate: Template :=
    Template("", "<sup>{}</sup>", "{}", "<sub>{}</sub>", "<sup>{}</sup>", "", "", "&ndash;", "")

  const LatexTemplate: Template :=
    Template("$\\mathrm{", "{{}}^{{{}}}", "{{{}}}", "_{{{}}}", "{{}}^{{{}}}", "", "", "-", "}$")

  const MhchemTemplate: Template :=
    Template("\\ce{", "^{{{}}}", "{}", "{}", "^{}", "", "", "", "}")

  const IsotopeTemplate: Template :=
    Template("", "{}", "{}", "{}", "{}", "", " ", "", "")

  const MolecularTemplate: Template :=
    Template("", "[{}]", "{}", "{}", "[{}]", "", "", "", "")

  predicate KnownStyle(style: string) {
    style == "html" || style == "latex" || style == "mhchem" || style == "molecular"
    || style == "plain" || style == "isotope" || style == "custom"
  }

  /** The template a style selects; a custom style needs a template. An absent custom template
      stands for the empty dict the code rejects. */
  function StyleTemplate(style: string, custom: Option<Template>): (r: Result<Template>)
    ensures r.Err? <==> !KnownStyle(style) || (style == "custom" && custom.None?)
    ensures r.Err? ==> r.error.ValueError?
    ensures style == "custom" && custom.Some? ==> r == Ok(custom.value)
  {
    if style == "html" then Ok(HtmlTemplate)
    else if style == "latex" then Ok(LatexTemplate)
    else if style == "mhchem" then Ok(MhchemTemplate)
    else if style == "molecular" then Ok(MolecularTemplate)
    else if style == "plain" || style == "isotope" then Ok(IsotopeTemplate)
    else if style == "custom" then
      match custom
      case None => Err(ValueError("If you select style=\"custom\", you must supply a custom template."))
      case Some(t) => Ok(t)
    else Err(ValueError("style must be one of \"html\", \"latex\", \"mhchem\", \"plain\", \"isotope\", \"molecular\", or \"custom\"."))
  }

  /** Every formatted entry of a template, given as the text around its one field. */
  predicate Wraps(entry: string, pre: string, post: string) {
    entry == Escape(pre) + "{}" + Escape(post)
  }

  lemma {:induction false} EscapeConcat(a: string, b: string)
    ensures Escape(a + b) == Escape(a) + Escape(b)
    decreases |a|
  {
    if a == [] {
      assert a + b == b;
    } else {
      assert (a + b)[1..] == a[1..] + b;
      EscapeConcat(a[1..], b);
    }
  }

  lemma {:induction false} WrapsBare()
    ensures Wraps("{}", "", "")
  {
  }

  lemma {:induction false} WrapsPlain(pre: string, post: string)
    requires BraceFree(pre) && BraceFree(post)
    ensures Wraps(pre + "{}" + post, pre, post)
  {
    EscapeNoBraces(pre);
    EscapeNoBraces(post);
  }

  lemma {:induction false} WrapsSup()
    ensures Wraps("<sup>{}</sup>", "<sup>", "</sup>")
  {
    WrapsPlain("<sup>", "</sup>");
    assert "<sup>" + "{}" + "</sup>" == "<sup>{}</sup>";
  }

  lemma {:induction false} WrapsSub()
    ensures Wraps("<sub>{}</sub>", "<sub>", "</sub>")
  {
    WrapsPlain("<sub>", "</sub>");
    assert "<sub>" + "{}" + "</sub>" == "<sub>{}</sub>";
  }

  lemma {:induction false} WrapsLatexSuper()
    ensures Wraps("{{}}^{{{}}}", "{}^{", "}")
  {
    assert Escape("{}^{") == "{{}}^{{";
    assert Escape("}") == "}}";
  }

  lemma {:induction false} WrapsLatexGroup()
    ensures Wraps("{{{}}}", "{", "}")
  {
    assert Escape("{") == "{{";
    assert Escape("}") == "}}";
  }

  lemma {:induction false} WrapsLatexSub()
    ensures Wraps("_{{{}}}", "_{", "}")
  {
    assert Escape("_{") == "_{{";
    assert Escape("}") == "}}";
  }

  lemma {:induction false} WrapsCaretGroup()
    ensures Wraps("^{{{}}}", "^{", "}")
  {
    assert Escape("^{") == "^{{";
    assert Escape("}") == "}}";
  }

  lemma {:induction false} WrapsCaret()
    ensures Wraps("^{}", "^", "")
  {
    assert Escape("^") == "^";
  }

  lemma {:induction false} WrapsBrackets()
    ensures Wraps("[{}]", "[", "]")
  {
    assert Escape("[") == "[";
    assert Escape("]") == "]";
  }

  /** Each formatted entry of the built-in templates holds one automatic field, with the text
      shown around it. */
  predicate BuiltinWraps(t: Template, am: (string, string), el: (string, string),
                         ct: (string, string), ch: (string, string)) {
    Wraps(t.atomicMass, am.0, am.1) && Wraps(t.element, el.0, el.1)
    && Wraps(t.count, ct.0, ct.1) && Wraps(t.charge, ch.0, ch.1)
  }

  lemma {:induction false} BuiltinEntries()
    ensures BuiltinWraps(HtmlTemplate, ("<sup>", "</sup>"), ("", ""), ("<sub>", "</sub>"), ("<sup>", "</sup>"))
    ensures BuiltinWraps(LatexTemplate, ("{}^{", "}"), ("{", "}"), ("_{", "}"), ("{}^{", "}"))
    ensures BuiltinWraps(MhchemTemplate, ("^{", "}"), ("", ""), ("", ""), ("^", ""))
    ensures BuiltinWraps(IsotopeTemplate, ("", ""), ("", ""), ("", ""), ("", ""))
    ensures BuiltinWraps(MolecularTemplate, ("[", "]"), ("", ""), ("", ""), ("[", "]"))
  {
    WrapsBare();
    WrapsSup();
    WrapsSub();
    WrapsLatexSuper();
    WrapsLatexGroup();
    WrapsLatexSub();
    WrapsCaretGroup();
    WrapsCaret();
    WrapsBrackets();
  }
}
