/** Reading a written parameter back: the inverse of the leaf templates.
    Names are taken to be identifiers made of ASCII word characters, a
    simplification of Ruby's local identifiers; the default of an optional
    parameter is whatever text its own emitter wrote. */
module ParamReader {
  import opened Tokens
  import opened ArgumentAst
  import opened ArgumentRender

  /** What a written parameter says: its kind, its name ("" when
      anonymous) and, for the optional kinds, the text of the default. */
  datatype Param =
    | Positional(name: string)
    | Optional(name: string, default: string)
    | Keyword(name: string)
    | KeywordOptional(name: string, default: string)
    | Rest(name: string)
    | KeywordRest(name: string)
    | BlockParam(name: string)

  predicate IsWordChar(c: char) {
    ('a' <= c <= 'z') || ('A' <= c <= 'Z') || ('0' <= c <= '9') || c == '_'
  }

  predicate IsIdentifier(s: string) {
    |s| > 0 && forall i :: 0 <= i < |s| ==> IsWordChar(s[i])
  }

  /** A name child that is either nil or an identifier. */
  predicate IsOptionalName(name: Option<string>) {
    name.None? || IsIdentifier(name.value)
  }

  /** The parameter nodes whose names are identifiers. */
  predicate WellNamed<E>(n: Node<E>) {
    match n
    case Arg(name) => IsIdentifier(name)
    case Shadowarg(name) => IsIdentifier(name)
    case Optarg(name, _) => IsIdentifier(name)
    case Kwoptarg(name, _) => IsIdentifier(name)
    case Kwarg(name) => IsIdentifier(name)
    case Restarg(name) => IsOptionalName(name)
    case Kwrestarg(name) => IsOptionalName(name)
    case Blockarg(name) => IsOptionalName(name)
    case _ => false
  }

  /** The parameter a node declares, with defaults as `visit` writes them. */
  function Describe<E>(n: Node<E>, visit: E -> string): Param
    requires WellNamed(n)
  {
    match n
    case Arg(name) => Positional(name)
    case Shadowarg(name) => Positional(name)
    case Optarg(name, value) => Optional(name, visit(value))
    case Kwoptarg(name, value) => KeywordOptional(name, visit(value))
    case Kwarg(name) => Keyword(name)
    case Restarg(name) => Rest(ToS(name))
    case Kwrestarg(name) => KeywordRest(ToS(name))
    case Blockarg(name) => BlockParam(ToS(name))
  }

  /** The length of the longest prefix of `s` made of word characters. */
  function NameEnd(s: string): (k: nat)
    ensures k <= |s|
    ensures forall i :: 0 <= i < k ==> IsWordChar(s[i])
    ensures k < |s| ==> !IsWordChar(s[k])
    decreases s
  {
    if s == [] || !IsWordChar(s[0]) then 0 else 1 + NameEnd(s[1..])
  }

  /** The name after a sigil: empty (anonymous) or an identifier. */
  function ReadSigilName(s: string): Option<string> {
    if s == "" || IsIdentifier(s) then Some(s) else None
  }

  /** Reads one written parameter; None when the text is not one. */
  function ReadParam(s: string): Option<Param> {
    if |s| >= 2 && s[..2] == DSplat then
      match ReadSigilName(s[2..])
      case None => None
      case Some(name) => Some(KeywordRest(name))
    else if |s| >= 1 && s[..1] == Splat then
      match ReadSigilName(s[1..])
      case None => None
      case Some(name) => Some(Rest(name))
    else if |s| >= 1 && s[..1] == Amp then
      match ReadSigilName(s[1..])
      case None => None
      case Some(name) => Some(BlockParam(name))
    else
      var k := NameEnd(s);
      if k == 0 then None else ReadAfterName(s[..k], s[k..])
  }

  /** The parameter kinds that start with their name, told apart by what follows it. */
  function ReadAfterName(name: string, rest: string): Option<Param> {
    if rest == "" then Some(Positional(name))
    else if rest == Colon then Some(Keyword(name))
    else if |rest| >= 3 && rest[..3] == Ws + Asn + Ws then Some(Optional(name, rest[3..]))
    else if |rest| >= 2 && rest[..2] == Colon + Ws then Some(KeywordOptional(name, rest[2..]))
    else None
  }

  /** A text that starts with an identifier is read by what follows the identifier. */
  lemma ReadNamed(name: string, rest: string)
    requires IsIdentifier(name)
    requires rest == [] || !IsWordChar(rest[0])
    ensures ReadParam(name + rest) == ReadAfterName(name, rest)
  {
    var s := name + rest;
    assert NameEnd(s) == |name|;
    assert s[..|name|] == name && s[|name|..] == rest;
    assert IsWordChar(s[0]);
  }

  lemma ReadAfterOptional(name: string, default: string)
    ensures ReadAfterName(name, Ws + Asn + Ws + default) == Some(Optional(name, default))
  {
    var rest := Ws + Asn + Ws + default;
    assert rest[0] == ' ' && |rest| >= 3;
    assert rest != Colon;
    assert rest[..3] == Ws + Asn + Ws && rest[3..] == default;
  }

  lemma ReadAfterKeywordOptional(name: string, default: string)
    ensures ReadAfterName(name, Colon + Ws + default) == Some(KeywordOptional(name, default))
  {
    var rest := Colon + Ws + default;
    assert rest[0] == ':' && |rest| >= 2;
    assert rest != Colon;
    assert rest[..2] == Colon + Ws && rest[2..] == default;
  }

  /** A sigil followed by an anonymous or identifier name. */
  lemma ReadSigil(sigil: string, name: Option<string>)
    requires sigil == DSplat || sigil == Splat || sigil == Amp
    requires IsOptionalName(name)
    ensures var s := sigil + ToS(name);
            ReadParam(s) == Some(if sigil == DSplat then KeywordRest(ToS(name))
                                 else if sigil == Splat then Rest(ToS(name))
                                 else BlockParam(ToS(name)))
  {
    var s := sigil + ToS(name);
    assert s[|sigil|..] == ToS(name);
    if sigil != DSplat && name.Some? {
      assert s[1] == name.value[0];
      assert IsWordChar(s[1]);
    }
  }

  lemma ReadPositional(name: string)
    requires IsIdentifier(name)
    ensures ReadParam(name) == Some(Positional(name))
  {
    ReadNamed(name, "");
    assert name + "" == name;
  }

  lemma ReadKeyword(name: string)
    requires IsIdentifier(name)
    ensures ReadParam(name + Colon) == Some(Keyword(name))
  {
    ReadNamed(name, Colon);
  }

  lemma ReadOptional(name: string, default: string)
    requires IsIdentifier(name)
    ensures ReadParam(name + Ws + Asn + Ws + default) == Some(Optional(name, default))
  {
    var rest := Ws + Asn + Ws + default;
    assert rest[0] == ' ';
    ReadNamed(name, rest);
    assert name + Ws + Asn + Ws + default == name + rest;
    ReadAfterOptional(name, default);
  }

  lemma ReadKeywordOptional(name: string, default: string)
    requires IsIdentifier(name)
    ensures ReadParam(name + Colon + Ws + default) == Some(KeywordOptional(name, default))
  {
    var rest := Colon + Ws + default;
    ReadNamed(name, rest);
    assert name + Colon + Ws + default == name + rest;
    ReadAfterKeywordOptional(name, default);
  }

  /** Every parameter the leaf emitters write reads back as the parameter it
      declares: the templates of `arg`, `optarg`, `kwoptarg`, `kwarg`,
      `restarg`, `kwrestarg` and `blockarg` lose nothing. */
  lemma ReadRendered<E>(n: Node<E>, ctx: Context, visit: E -> string)
    requires WellNamed(n)
    ensures ReadParam(Render(n, ctx, visit)) == Some(Describe(n, visit))
  {
    match n
    case Arg(name) => ReadPositional(name);
    case Shadowarg(name) => ReadPositional(name);
    case Kwarg(name) => ReadKeyword(name);
    case Optarg(name, value) => ReadOptional(name, visit(value));
    case Kwoptarg(name, value) => ReadKeywordOptional(name, visit(value));
    case Restarg(name) => ReadSigil(Splat, name);
    case Kwrestarg(name) => ReadSigil(DSplat, name);
    case Blockarg(name) => ReadSigil(Amp, name);
  }

  /** So two distinct parameters (shadow variables aside, which are written
      as plain names) are never written the same way, provided distinct
      defaults are written differently. */
  lemma RenderingDistinguishesParams<E>(a: Node<E>, b: Node<E>, ctx: Context, visit: E -> string)
    requires WellNamed(a) && WellNamed(b) && !a.Shadowarg? && !b.Shadowarg?
    requires forall x, y :: visit(x) == visit(y) ==> x == y
    requires Render(a, ctx, visit) == Render(b, ctx, visit)
    ensures a == b
  {
    ReadRendered(a, ctx, visit);
    ReadRendered(b, ctx, visit);
    assert Describe(a, visit) == Describe(b, visit);
  }
}
