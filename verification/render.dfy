/** The argument emitters as pure functions from a node (and the context of
    its parent) to the text they write. Nodes rendered by other emitters go
    through `visit`, which stands for the host's dispatcher. */
module ArgumentRender {
  import opened Tokens
  import opened ArgumentAst

  /** What `Morearg#dispatch` does: look the node type up in MAP
      (`blockarg` to "&", `kwrestarg` to "**") and write it before the name.
      `MAP.fetch` raises for every other node type, before anything is written. */
  datatype Outcome = Wrote(text: string) | KeyError

  /** The number of characters in all of `parts` together. */
  function TotalLength(parts: seq<string>): nat
    decreases parts
  {
    if parts == [] then 0 else |parts[0]| + TotalLength(parts[1..])
  }

  /** `delimited`: the parts joined by ", ", with no trailing separator; the
      text is as long as the parts plus one separator per part after the first. */
  function Join(parts: seq<string>): (r: string)
    ensures parts == [] ==> r == ""
    ensures parts != [] ==> |r| == TotalLength(parts) + |Delimiter| * (|parts| - 1)
    decreases parts
  {
    if parts == [] then ""
    else if |parts| == 1 then parts[0]
    else parts[0] + Delimiter + Join(parts[1..])
  }

  /** SHADOWARGS */
  predicate IsShadow<E>(n: Node<E>) {
    n.Shadowarg?
  }

  /** The stable partition behind `normal_arguments` (shadow == false, the
      `reject`) and `shadowargs` (shadow == true, the `select`). */
  function Select<E>(cs: seq<Node<E>>, shadow: bool): (r: seq<Node<E>>)
    ensures |r| <= |cs|
    ensures forall i :: 0 <= i < |r| ==> IsShadow(r[i]) == shadow
    ensures MaxDepth(r) <= MaxDepth(cs)
    decreases cs
  {
    if cs == [] then []
    else if IsShadow(cs[0]) == shadow then
      var rest := Select(cs[1..], shadow);
      assert ([cs[0]] + rest)[1..] == rest;
      [cs[0]] + rest
    else Select(cs[1..], shadow)
  }

  /** `normal_arguments`: the children that are not shadow arguments. */
  function NormalArguments<E>(cs: seq<Node<E>>): (r: seq<Node<E>>)
    ensures |r| <= |cs|
    ensures forall i :: 0 <= i < |r| ==> !r[i].Shadowarg?
  {
    Select(cs, false)
  }

  /** `shadowargs`: the children that are shadow arguments. */
  function Shadowargs<E>(cs: seq<Node<E>>): (r: seq<Node<E>>)
    ensures |r| <= |cs|
    ensures forall i :: 0 <= i < |r| ==> r[i].Shadowarg?
  {
    Select(cs, true)
  }

  /** `regular_block?`: the parent is a block whose head is not a lambda. */
  predicate RegularBlock(ctx: Context)
    ensures RegularBlock(ctx) <==> ctx == BlockParent(false)
  {
    ctx.BlockParent? && !ctx.lambdaHead
  }

  /** `procarg_disambiguator?`: regular block, every normal argument is a
      plain `arg`, and there is exactly one of them. */
  predicate ProcargDisambiguator<E>(cs: seq<Node<E>>, ctx: Context)
    ensures ProcargDisambiguator(cs, ctx) ==> ctx == BlockParent(false) && cs != []
  {
    var normal := NormalArguments(cs);
    RegularBlock(ctx) && (forall i :: 0 <= i < |normal| ==> normal[i].Arg?) && |normal| == 1
  }

  /** PARENS: the node types that force parentheses around a procarg0. */
  predicate ForcesParens<E>(n: Node<E>) {
    n.Restarg? || n.Mlhs?
  }

  /** `needs_parens?`: never for no parts, always for several, and for one
      part exactly when that part forces them. */
  predicate NeedsParens<E>(parts: seq<Node<E>>)
    ensures parts == [] ==> !NeedsParens(parts)
    ensures |parts| == 1 ==> (NeedsParens(parts) <==> ForcesParens(parts[0]))
    ensures |parts| > 1 ==> NeedsParens(parts)
  {
    |parts| > 1 || exists i :: 0 <= i < |parts| && ForcesParens(parts[i])
  }

  /** `Morearg#dispatch` */
  function Morearg<E>(n: Node<E>): (r: Outcome)
    ensures r.Wrote? <==> n.Blockarg? || n.Kwrestarg?
  {
    match n
    case Blockarg(name) => Wrote(Amp + ToS(name))
    case Kwrestarg(name) => Wrote(DSplat + ToS(name))
    case _ => KeyError
  }

  /** The text the emitter registered for `n`'s type writes; `ctx` describes
      `n`'s parent and matters only for an `args` node. */
  function Render<E>(n: Node<E>, ctx: Context, visit: E -> string): (r: string)
    ensures n.Kwrestarg? || n.Blockarg? ==> Morearg(n) == Wrote(r)
    decreases Depth(n), 0, 0
  {
    match n
    case Arg(name) => name
    case Shadowarg(name) => name
    case Optarg(name, value) => name + Ws + Asn + Ws + visit(value)
    case Kwoptarg(name, value) => name + Colon + Ws + visit(value)
    case Kwarg(name) => name + Colon
    case Restarg(name) => Splat + ToS(name)
    case Kwrestarg(_) => Morearg(n).text
    case Blockarg(_) => Morearg(n).text
    case BlockPass(target) => Amp + visit(target)
    case ArgExpr(body) => LParen + visit(body) + RParen
    case Procarg0(parts) => RenderProcarg(parts, visit)
    case Args(children) => RenderArguments(children, ctx, visit)
    case Mlhs(pattern) => visit(pattern)
    case Foreign(other) => visit(other)
  }

  /** Each node of a list rendered on its own; the parent of every element
      is an `args` or `procarg0` node, never a block. */
  function RenderEach<E>(ns: seq<Node<E>>, visit: E -> string): (r: seq<string>)
    ensures |r| == |ns|
    decreases MaxDepth(ns), 1, |ns|
  {
    if ns == [] then []
    else [Render(ns[0], OtherParent, visit)] + RenderEach(ns[1..], visit)
  }

  /** `Arguments#dispatch` */
  function RenderArguments<E>(cs: seq<Node<E>>, ctx: Context, visit: E -> string): (r: string)
    ensures cs == [] ==> r == ""
    decreases MaxDepth(cs), 2, 0
  {
    var normal := NormalArguments(cs);
    var shadow := Shadowargs(cs);
    Join(RenderEach(normal, visit))
    + (if ProcargDisambiguator(cs, ctx) then Delimiter else "")
    + (if shadow == [] then "" else ShadowSeparator + Join(RenderEach(shadow, visit)))
  }

  /** `Procarg#dispatch`: no parts write nothing, and parentheses, when
      written, enclose the whole output. */
  function RenderProcarg<E>(parts: seq<Node<E>>, visit: E -> string): (r: string)
    ensures parts == [] ==> r == ""
    ensures NeedsParens(parts) ==> |r| >= 2 && r[0] == '(' && r[|r| - 1] == ')'
    decreases MaxDepth(parts), 2, 0
  {
    var inner := Join(RenderEach(parts, visit));
    if NeedsParens(parts) then LParen + inner + RParen else inner
  }
}
