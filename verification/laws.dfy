/** Properties of the argument emitters: the stable partition, the layout of
    an argument list, the disambiguating comma and procarg parenthesisation. */
module ArgumentLaws {
  import opened Tokens
  import opened ArgumentAst
  import opened ArgumentRender

  // ----- delimited -----

  /** Appending one more part to a delimited list writes one separator and the part. */
  lemma {:induction false} JoinSnoc(parts: seq<string>, p: string)
    ensures Join(parts + [p]) == if parts == [] then p else Join(parts) + Delimiter + p
    decreases parts
  {
    if |parts| > 1 {
      assert (parts + [p])[1..] == parts[1..] + [p];
      JoinSnoc(parts[1..], p);
    } else if |parts| == 1 {
      assert (parts + [p])[1..] == [p];
    }
  }

  /** Rendering a list element by element commutes with appending. */
  lemma {:induction false} RenderEachSnoc<E>(ns: seq<Node<E>>, x: Node<E>, visit: E -> string)
    ensures RenderEach(ns + [x], visit) == RenderEach(ns, visit) + [Render(x, OtherParent, visit)]
    decreases ns
  {
    if ns != [] {
      assert (ns + [x])[0] == ns[0];
      assert (ns + [x])[1..] == ns[1..] + [x];
      RenderEachSnoc(ns[1..], x, visit);
    }
  }

  /** One turn of the `delimited` loop: the separator (except before the
      first element), then the element. */
  lemma DelimitedStep<E>(ns: seq<Node<E>>, i: nat, visit: E -> string)
    requires i < |ns|
    ensures Join(RenderEach(ns[..i + 1], visit))
         == Join(RenderEach(ns[..i], visit)) + (if i > 0 then Delimiter else "") + Render(ns[i], OtherParent, visit)
  {
    assert ns[..i + 1] == ns[..i] + [ns[i]];
    RenderEachSnoc(ns[..i], ns[i], visit);
    JoinSnoc(RenderEach(ns[..i], visit), Render(ns[i], OtherParent, visit));
  }

  // ----- normal_arguments / shadowargs -----

  /** The partition is a homomorphism over concatenation: relative order is kept. */
  lemma {:induction false} SelectAppend<E>(a: seq<Node<E>>, b: seq<Node<E>>, shadow: bool)
    ensures Select(a + b, shadow) == Select(a, shadow) + Select(b, shadow)
    decreases a
  {
    if a == [] {
      assert a + b == b;
    } else {
      assert (a + b)[0] == a[0];
      assert (a + b)[1..] == a[1..] + b;
      SelectAppend(a[1..], b, shadow);
      var st, sb := Select(a[1..], shadow), Select(b, shadow);
      assert [a[0]] + (st + sb) == ([a[0]] + st) + sb;
    }
  }

  /** `normal_arguments` holds exactly the children that are not `shadowarg`,
      `shadowargs` exactly those that are. */
  lemma {:induction false} SelectExactly<E>(cs: seq<Node<E>>, shadow: bool)
    ensures forall x :: x in Select(cs, shadow) <==> x in cs && IsShadow(x) == shadow
    decreases cs
  {
    if cs != [] {
      assert cs == [cs[0]] + cs[1..];
      SelectCons(cs[0], cs[1..], shadow);
      SelectExactly(cs[1..], shadow);
    }
  }

  /** A list whose elements all fall on one side is kept whole on that side
      and contributes nothing to the other. */
  lemma {:induction false} SelectUniform<E>(xs: seq<Node<E>>, shadow: bool)
    requires forall i :: 0 <= i < |xs| ==> IsShadow(xs[i]) == shadow
    ensures Select(xs, shadow) == xs
    ensures Select(xs, !shadow) == []
    decreases xs
  {
    if xs != [] {
      SelectUniform(xs[1..], shadow);
    }
  }

  /** The two sides together hold exactly the children, each as often as before. */
  lemma {:induction false} PartitionSizes<E>(cs: seq<Node<E>>)
    ensures |NormalArguments(cs)| + |Shadowargs(cs)| == |cs|
    ensures multiset(NormalArguments(cs)) + multiset(Shadowargs(cs)) == multiset(cs)
    decreases cs
  {
    if cs != [] {
      PartitionSizes(cs[1..]);
      assert cs == [cs[0]] + cs[1..];
    }
  }

  /** Reordering the children so that every shadow argument comes last, each
      side in its original order, does not change what `args` writes; and
      when there are shadow arguments, the text is that of the normal
      arguments alone, then "; " and the shadow arguments. */
  lemma ShadowsMoveToEnd<E>(cs: seq<Node<E>>, ctx: Context, visit: E -> string)
    ensures Render(Args(cs), ctx, visit)
         == Render(Args(NormalArguments(cs) + Shadowargs(cs)), ctx, visit)
    ensures Shadowargs(cs) != [] ==>
      Render(Args(cs), ctx, visit)
      == Render(Args(NormalArguments(cs)), ctx, visit) + ShadowSeparator + Join(RenderEach(Shadowargs(cs), visit))
  {
    var normal, shadow := NormalArguments(cs), Shadowargs(cs);
    SplitPartition(normal, shadow);
    SamePartitionSameText(cs, normal + shadow, ctx, visit);
    if shadow != [] {
      MixedLayout(normal, shadow, ctx, visit);
    }
  }

  /** Normal arguments followed by shadow arguments partition back into the two lists. */
  lemma SplitPartition<E>(ns: seq<Node<E>>, ss: seq<Node<E>>)
    requires forall i :: 0 <= i < |ns| ==> !IsShadow(ns[i])
    requires forall i :: 0 <= i < |ss| ==> IsShadow(ss[i])
    ensures NormalArguments(ns + ss) == ns && NormalArguments(ns) == ns
    ensures Shadowargs(ns + ss) == ss && Shadowargs(ns) == []
  {
    SelectAppend(ns, ss, false);
    SelectAppend(ns, ss, true);
    SelectUniform(ns, false);
    SelectUniform(ss, true);
  }

  /** The layout of `args` over normal arguments followed by shadow
      arguments: what the normal arguments alone write (with the
      disambiguating comma when it fires), then "; " and the shadows. */
  lemma MixedLayout<E>(ns: seq<Node<E>>, ss: seq<Node<E>>, ctx: Context, visit: E -> string)
    requires forall i :: 0 <= i < |ns| ==> !IsShadow(ns[i])
    requires ss != [] && forall i :: 0 <= i < |ss| ==> IsShadow(ss[i])
    ensures Render(Args(ns + ss), ctx, visit)
         == Render(Args(ns), ctx, visit) + ShadowSeparator + Join(RenderEach(ss, visit))
  {
    SplitPartition(ns, ss);
    SameNormalSameComma(ns + ss, ns, ctx);
    var a := Join(RenderEach(ns, visit));
    var b := Join(RenderEach(ss, visit));
    var c := if ProcargDisambiguator(ns, ctx) then Delimiter else "";
    assert Render(Args(ns + ss), ctx, visit) == a + c + (ShadowSeparator + b);
    assert Render(Args(ns), ctx, visit) == a + c + "";
    assert a + c + (ShadowSeparator + b) == (a + c + "") + ShadowSeparator + b;
  }

  /** The disambiguating comma depends on the children only through the normal arguments. */
  lemma SameNormalSameComma<E>(cs: seq<Node<E>>, ds: seq<Node<E>>, ctx: Context)
    requires NormalArguments(cs) == NormalArguments(ds)
    ensures ProcargDisambiguator(cs, ctx) == ProcargDisambiguator(ds, ctx)
  {
  }

  /** `args` output depends on the children only through the two sides of the partition. */
  lemma SamePartitionSameText<E>(cs: seq<Node<E>>, ds: seq<Node<E>>, ctx: Context, visit: E -> string)
    requires NormalArguments(cs) == NormalArguments(ds)
    requires Shadowargs(cs) == Shadowargs(ds)
    ensures RenderArguments(cs, ctx, visit) == RenderArguments(ds, ctx, visit)
  {
    assert ProcargDisambiguator(cs, ctx) == ProcargDisambiguator(ds, ctx);
  }

  /** The layout of `args` when there are no shadow arguments: the children
      in order, comma-delimited, plus the disambiguating ", " when it fires. */
  lemma NoShadowLayout<E>(cs: seq<Node<E>>, ctx: Context, visit: E -> string)
    requires forall i :: 0 <= i < |cs| ==> !IsShadow(cs[i])
    ensures Render(Args(cs), ctx, visit)
         == Join(RenderEach(cs, visit)) + (if ProcargDisambiguator(cs, ctx) then Delimiter else "")
  {
    SelectUniform(cs, false);
  }

  /** The layout of `args` when it holds only shadow arguments, `|; a, b|`. */
  lemma ShadowOnlyLayout<E>(cs: seq<Node<E>>, ctx: Context, visit: E -> string)
    requires cs != []
    requires forall i :: 0 <= i < |cs| ==> IsShadow(cs[i])
    ensures Render(Args(cs), ctx, visit) == ShadowSeparator + Join(RenderEach(cs, visit))
  {
    SelectUniform(cs, true);
  }

  /** `[arg a, shadowarg s, arg b]` is written `a, b; s` under every parent. */
  lemma ShadowOrderingExample<E>(a: string, s: string, b: string, ctx: Context, visit: E -> string)
    ensures Render(Args([Arg(a), Shadowarg(s), Arg(b)]), ctx, visit) == a + ", " + b + "; " + s
  {
    var cs: seq<Node<E>> := [Arg(a), Shadowarg(s), Arg(b)];
    var normal: seq<Node<E>> := [Arg(a), Arg(b)];
    var shadow: seq<Node<E>> := [Shadowarg(s)];
    ExamplePartition<E>(a, s, b);
    ExampleParts(a, b, visit);
    assert RenderEach(shadow, visit) == [s];
    assert !ProcargDisambiguator(cs, ctx);
    assert RenderArguments(cs, ctx, visit)
        == Join(RenderEach(normal, visit)) + "" + (ShadowSeparator + Join(RenderEach(shadow, visit)));
  }

  lemma ExamplePartition<E>(a: string, s: string, b: string)
    ensures NormalArguments<E>([Arg(a), Shadowarg(s), Arg(b)]) == [Arg(a), Arg(b)]
    ensures Shadowargs<E>([Arg(a), Shadowarg(s), Arg(b)]) == [Shadowarg(s)]
  {
    var none: seq<Node<E>> := [];
    var tail: seq<Node<E>> := [Arg(b)] + none;
    var mid: seq<Node<E>> := [Shadowarg(s)] + tail;
    SelectCons(Arg(b), none, false);
    SelectCons(Arg(b), none, true);
    SelectCons(Shadowarg(s), tail, false);
    SelectCons(Shadowarg(s), tail, true);
    SelectCons(Arg(a), mid, false);
    SelectCons(Arg(a), mid, true);
    assert [Arg(a)] + mid == [Arg(a), Shadowarg(s), Arg(b)];
  }

  lemma ExampleParts<E>(a: string, b: string, visit: E -> string)
    ensures Join(RenderEach<E>([Arg(a), Arg(b)], visit)) == a + ", " + b
  {
    var none: seq<Node<E>> := [];
    var tail: seq<Node<E>> := [Arg(b)] + none;
    RenderEachCons(Arg(b), none, visit);
    RenderEachCons(Arg(a), tail, visit);
    assert [Arg(a)] + tail == [Arg(a), Arg(b)];
    assert Join([a, b]) == a + Delimiter + b by {
      assert [a, b][1..] == [b];
    }
  }

  /** One step of the partition. */
  lemma SelectCons<E>(x: Node<E>, rest: seq<Node<E>>, shadow: bool)
    ensures Select([x] + rest, shadow)
         == if IsShadow(x) == shadow then [x] + Select(rest, shadow) else Select(rest, shadow)
  {
    assert ([x] + rest)[1..] == rest;
  }

  /** One step of rendering a list. */
  lemma RenderEachCons<E>(x: Node<E>, rest: seq<Node<E>>, visit: E -> string)
    ensures RenderEach([x] + rest, visit) == [Render(x, OtherParent, visit)] + RenderEach(rest, visit)
  {
    assert ([x] + rest)[1..] == rest;
  }

  // ----- procarg_disambiguator? -----

  /** The trailing ", " fires exactly for a regular (non-lambda) block whose
      only normal argument is a plain `arg`: never under a lambda or any
      other parent, and never with zero or several normal arguments. */
  lemma DisambiguatorExactly<E>(cs: seq<Node<E>>, ctx: Context)
    ensures ProcargDisambiguator(cs, ctx)
        <==> ctx == BlockParent(false)
             && |NormalArguments(cs)| == 1 && NormalArguments(cs)[0].Arg?
  {
  }

  /** Why the comma is needed: in a regular block, `|x|` (a procarg0 around
      the arg) and `|x,|` (the bare arg) are different trees, and they are
      written differently only because of the disambiguator. Under a lambda
      head, or any other parent, the bare arg is written without it. */
  lemma LoneArgumentComma<E>(x: string, visit: E -> string)
    ensures Render(Args([Arg(x)]), BlockParent(false), visit) == x + Delimiter
    ensures Render(Args([Procarg0([Arg(x)])]), BlockParent(false), visit) == x
    ensures Render(Args([Arg(x)]), BlockParent(true), visit) == x
    ensures Render(Args([Arg(x)]), OtherParent, visit) == x
  {
    var none: seq<Node<E>> := [];
    var bare: seq<Node<E>> := [Arg(x)] + none;
    var wrapped: seq<Node<E>> := [Procarg0(bare)] + none;
    SelectCons(Arg(x), none, false);
    SelectCons(Arg(x), none, true);
    SelectCons(Procarg0(bare), none, false);
    SelectCons(Procarg0(bare), none, true);
    RenderEachCons(Arg(x), none, visit);
    RenderEachCons(Procarg0(bare), none, visit);
    assert !NeedsParens(bare);
    assert Render(Procarg0(bare), OtherParent, visit) == x;
    assert bare == [Arg(x)] && wrapped == [Procarg0([Arg(x)])];
  }

  // ----- procarg0 -----

  /** A procarg0 is written in parentheses exactly when it has several parts
      or one of them is a `restarg` or an `mlhs`; otherwise it is its parts,
      delimited, with nothing around them. */
  lemma ProcargParenthesised<E>(parts: seq<Node<E>>, visit: E -> string)
    ensures var inner := Join(RenderEach(parts, visit));
            && (Render(Procarg0(parts), OtherParent, visit) == LParen + inner + RParen <==> NeedsParens(parts))
            && (Render(Procarg0(parts), OtherParent, visit) == inner <==> !NeedsParens(parts))
  {
    var inner := Join(RenderEach(parts, visit));
    assert |LParen + inner + RParen| == |inner| + 2;
  }

  /** A single part that forces nothing is written exactly as it would be alone. */
  lemma ProcargSinglePart<E>(p: Node<E>, visit: E -> string)
    requires !ForcesParens(p)
    ensures Render(Procarg0([p]), OtherParent, visit) == Render(p, OtherParent, visit)
  {
    var none: seq<Node<E>> := [];
    RenderEachCons(p, none, visit);
    assert [p] + none == [p];
    assert !NeedsParens([p]);
  }

  /** `[arg a, arg b]` gives `(a, b)`, `[arg a]` gives `a`, `[restarg a]` gives `(*a)`. */
  lemma ProcargExamples<E>(a: string, b: string, visit: E -> string)
    ensures Render(Procarg0([Arg(a), Arg(b)]), OtherParent, visit) == "(" + a + ", " + b + ")"
    ensures Render(Procarg0([Arg(a)]), OtherParent, visit) == a
    ensures Render(Procarg0([Restarg(Some(a))]), OtherParent, visit) == "(*" + a + ")"
  {
    var none: seq<Node<E>> := [];
    var tail: seq<Node<E>> := [Arg(b)] + none;
    var two: seq<Node<E>> := [Arg(a)] + tail;
    RenderEachCons(Arg(b), none, visit);
    RenderEachCons(Arg(a), tail, visit);
    assert Join([a, b]) == a + Delimiter + b by {
      assert [a, b][1..] == [b];
    }
    assert RenderEach(two, visit) == [a, b];
    assert two == [Arg(a), Arg(b)];
    ProcargSinglePart(Arg(a), visit);
    var rest: seq<Node<E>> := [Restarg(Some(a))] + none;
    RenderEachCons(Restarg(Some(a)), none, visit);
    assert ForcesParens(rest[0]);
    assert rest == [Restarg(Some(a))];
  }

  // ----- leaf emitters -----

  /** `Morearg` writes its sigil and the name for the two types in MAP and
      fails, writing nothing, for every other node type. */
  lemma MoreargTable<E>(n: Node<E>)
    ensures n.Blockarg? ==> Morearg(n) == Wrote("&" + ToS(n.restName))
    ensures n.Kwrestarg? ==> Morearg(n) == Wrote("**" + ToS(n.restName))
    ensures !n.Blockarg? && !n.Kwrestarg? ==> Morearg(n) == KeyError
  {
  }

  /** The sigil templates of `restarg`, `kwrestarg` and `blockarg`, on
      named and anonymous parameters. */
  lemma SigilTemplates<E>(x: string, visit: E -> string, ctx: Context)
    ensures Render(Restarg(Some(x)), ctx, visit) == "*" + x
    ensures Render(Restarg(None), ctx, visit) == "*"
    ensures Render(Kwrestarg(Some(x)), ctx, visit) == "**" + x
    ensures Render(Kwrestarg(None), ctx, visit) == "**"
    ensures Render(Blockarg(Some(x)), ctx, visit) == "&" + x
    ensures Render(Blockarg(None), ctx, visit) == "&"
  {
  }

  /** The templates of `arg`, `shadowarg`, `kwarg`, `optarg` and `kwoptarg`. */
  lemma NamedTemplates<E>(x: string, e: E, visit: E -> string, ctx: Context)
    ensures Render(Arg(x), ctx, visit) == x && Render(Shadowarg(x), ctx, visit) == x
    ensures Render(Kwarg(x), ctx, visit) == x + ":"
    ensures Render(Optarg(x, e), ctx, visit) == x + " = " + visit(e)
    ensures Render(Kwoptarg(x, e), ctx, visit) == x + ": " + visit(e)
  {
  }

  /** The templates of `block_pass` and `arg_expr` around a nested node. */
  lemma WrapperTemplates<E>(e: E, visit: E -> string, ctx: Context)
    ensures Render(BlockPass(e), ctx, visit) == "&" + visit(e)
    ensures Render(ArgExpr(e), ctx, visit) == "(" + visit(e) + ")"
  {
  }
}
