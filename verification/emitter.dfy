/** The argument emitters as the source runs them: each `dispatch` appends
    tokens to the emitter's shared output buffer through `write` and `visit`.
    Every method is proved to append exactly the text the pure renderer
    gives for the same node and context. */
module ArgumentEmitter {
  import opened Tokens
  import opened ArgumentAst
  import opened ArgumentRender
  import opened ArgumentLaws

  class Emitter<E> {
    /** Everything written so far. */
    var output: string
    /** The host's dispatcher for nodes rendered by other emitters. */
    const visit: E -> string

    constructor (visit: E -> string)
      ensures output == "" && this.visit == visit
    {
      output := "";
      this.visit := visit;
    }

    /** `write`: append tokens. */
    method Write(tokens: string)
      modifies this
      ensures output == old(output) + tokens
    {
      output := output + tokens;
    }

    /** `visit` on a node another emitter renders. */
    method VisitForeign(e: E)
      modifies this
      ensures output == old(output) + visit(e)
    {
      output := output + visit(e);
    }

    /** `visit`: run the emitter registered for the node's type; `ctx`
        describes the node's parent. */
    method Visit(n: Node<E>, ctx: Context)
      modifies this
      ensures output == old(output) + Render(n, ctx, visit)
      decreases Depth(n), 0, 0
    {
      match n
      case Arg(name) => EmitArgument(name);
      case Shadowarg(name) => EmitArgument(name);
      case Optarg(name, value) => EmitOptarg(name, value);
      case Kwoptarg(name, value) => EmitKeywordOptional(name, value);
      case Kwarg(name) => EmitKwarg(name);
      case Restarg(name) => EmitRestarg(name);
      case Kwrestarg(_) =>
        var ok := EmitMorearg(n);
        assert ok;
      case Blockarg(_) =>
        var ok := EmitMorearg(n);
        assert ok;
      case BlockPass(target) => EmitBlockPass(target);
      case ArgExpr(body) => EmitArgExpr(body);
      case Procarg0(parts) => EmitProcarg(parts);
      case Args(children) => EmitArguments(children, ctx);
      case Mlhs(pattern) => VisitForeign(pattern);
      case Foreign(other) => VisitForeign(other);
    }

    /** `delimited`: each node visited in order, ", " between them. */
    method EmitDelimited(ns: seq<Node<E>>)
      modifies this
      ensures output == old(output) + Join(RenderEach(ns, visit))
      decreases MaxDepth(ns), 1, 0
    {
      var i := 0;
      while i < |ns|
        invariant 0 <= i <= |ns|
        invariant output == old(output) + Join(RenderEach(ns[..i], visit))
      {
        DelimitedStep(ns, i, visit);
        if i > 0 {
          Write(Delimiter);
        }
        DepthWithin(ns, i);
        Visit(ns[i], OtherParent);
        i := i + 1;
      }
      assert ns[..|ns|] == ns;
    }

    /** `Arguments#dispatch`: the normal arguments, the disambiguating
        comma when it applies, then (only if there are any) "; " and the
        shadow arguments. */
    method EmitArguments(children: seq<Node<E>>, ctx: Context)
      modifies this
      ensures output == old(output) + RenderArguments(children, ctx, visit)
      decreases MaxDepth(children), 2, 0
    {
      var normal := NormalArguments(children);
      var shadow := Shadowargs(children);
      ghost var comma := if ProcargDisambiguator(children, ctx) then Delimiter else "";
      EmitDelimited(normal);
      if ProcargDisambiguator(children, ctx) {
        Write(Delimiter);
      }
      assert output == old(output) + Join(RenderEach(normal, visit)) + comma;
      if shadow == [] {
        return;
      }
      Write(ShadowSeparator);
      EmitDelimited(shadow);
    }

    /** `Procarg#dispatch`: the parts, delimited, inside `parentheses` when
        `needs_parens?` holds. */
    method EmitProcarg(parts: seq<Node<E>>)
      modifies this
      ensures output == old(output) + RenderProcarg(parts, visit)
      decreases MaxDepth(parts), 2, 0
    {
      ghost var inner := Join(RenderEach(parts, visit));
      if NeedsParens(parts) {
        Write(LParen);
        EmitDelimited(parts);
        Write(RParen);
        assert output == old(output) + (LParen + inner + RParen);
      } else {
        EmitDelimited(parts);
        assert output == old(output) + inner;
      }
    }

    /** `Morearg#dispatch`: the MAP lookup happens before anything is
        written, so a node type outside MAP leaves the buffer untouched. */
    method EmitMorearg(n: Node<E>) returns (ok: bool)
      modifies this
      ensures ok <==> n.Blockarg? || n.Kwrestarg?
      ensures ok ==> output == old(output) + Morearg(n).text
      ensures !ok ==> output == old(output)
    {
      match Morearg(n)
      case KeyError =>
        ok := false;
      case Wrote(text) =>
        Write(text);
        ok := true;
    }

    /** `Optarg#dispatch` */
    method EmitOptarg(name: string, value: E)
      modifies this
      ensures output == old(output) + Render(Optarg(name, value), OtherParent, visit)
    {
      Write(name + Ws + Asn + Ws);
      VisitForeign(value);
    }

    /** `KeywordOptional#dispatch` */
    method EmitKeywordOptional(name: string, value: E)
      modifies this
      ensures output == old(output) + Render(Kwoptarg(name, value), OtherParent, visit)
    {
      Write(name + Colon + Ws);
      VisitForeign(value);
    }

    /** `Kwarg#dispatch` */
    method EmitKwarg(name: string)
      modifies this
      ensures output == old(output) + Render(Kwarg(name), OtherParent, visit)
    {
      Write(name + Colon);
    }

    /** `Restarg#dispatch` */
    method EmitRestarg(name: Option<string>)
      modifies this
      ensures output == old(output) + Render(Restarg(name), OtherParent, visit)
    {
      Write(Splat + ToS(name));
    }

    /** `Argument#dispatch`, for both `arg` and `shadowarg`. */
    method EmitArgument(name: string)
      modifies this
      ensures output == old(output) + Render(Arg(name), OtherParent, visit)
      ensures output == old(output) + Render(Shadowarg(name), OtherParent, visit)
    {
      Write(name);
    }

    /** `BlockPass#dispatch` */
    method EmitBlockPass(target: E)
      modifies this
      ensures output == old(output) + Render(BlockPass(target), OtherParent, visit)
    {
      Write(Amp);
      VisitForeign(target);
    }

    /** `ArgExpr#dispatch`: `visit_parentheses` on the body. */
    method EmitArgExpr(body: E)
      modifies this
      ensures output == old(output) + Render(ArgExpr(body), OtherParent, visit)
    {
      Write(LParen);
      VisitForeign(body);
      Write(RParen);
    }
  }
}
