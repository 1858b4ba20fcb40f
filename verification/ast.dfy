/** The argument-node tree the emitters consume, and the context that
    replaces the upward lookup to the enclosing node. */
module ArgumentAst {

  datatype Option<+T> = None | Some(value: T)

  /** One constructor per node type handled in argument.rb, plus the node
      types this file dispatches on without rendering them itself.
      `E` stands for any node rendered by another emitter (default values,
      block-pass targets, pattern bodies, `mlhs` patterns and so on). */
  datatype Node<E> =
    | Arg(name: string)                        // :arg
    | Shadowarg(name: string)                  // :shadowarg, a block-local variable
    | Optarg(name: string, value: E)           // :optarg, `name = value`
    | Kwarg(name: string)                      // :kwarg, required keyword
    | Kwoptarg(name: string, value: E)         // :kwoptarg, `name: value`
    | Restarg(restName: Option<string>)        // :restarg, None when anonymous
    | Kwrestarg(restName: Option<string>)      // :kwrestarg, None when anonymous
    | Blockarg(restName: Option<string>)       // :blockarg, None when anonymous
    | BlockPass(target: E)                     // :block_pass
    | ArgExpr(body: E)                         // :arg_expr
    | Procarg0(parts: seq<Node<E>>)            // :procarg0, a block's single destructured parameter
    | Args(children: seq<Node<E>>)             // :args, a whole parameter list
    | Mlhs(pattern: E)                         // :mlhs, rendered by its own emitter
    | Foreign(node: E)                         // any other node type

  /** What `regular_block?` reads from the parent of an `args` node: whether
      the parent is a `block`, and if so whether the block's first child is a
      `lambda`. */
  datatype Context =
    | BlockParent(lambdaHead: bool)
    | OtherParent

  /** Ruby's `to_s` on a name child: a missing (nil) name prints as "". */
  function ToS(name: Option<string>): string {
    match name
    case None => ""
    case Some(s) => s
  }

  /** Nesting depth: the termination measure of the renderers. */
  function Depth<E>(n: Node<E>): nat
    decreases n
  {
    match n
    case Procarg0(parts) => 1 + MaxDepth(parts)
    case Args(children) => 1 + MaxDepth(children)
    case _ => 0
  }

  function MaxDepth<E>(ns: seq<Node<E>>): nat
    decreases ns
  {
    if ns == [] then 0
    else if Depth(ns[0]) < MaxDepth(ns[1..]) then MaxDepth(ns[1..])
    else Depth(ns[0])
  }

  lemma {:induction false} DepthWithin<E>(ns: seq<Node<E>>, i: nat)
    requires i < |ns|
    ensures Depth(ns[i]) <= MaxDepth(ns)
    decreases i
  {
    if i > 0 {
      DepthWithin(ns[1..], i - 1);
    }
  }
}
