# Argument-list emitters of unparser, in Dafny

This project models the part of `unparser` (a Ruby source generator) that
writes method and block parameter lists back out as Ruby text:
`lib/unparser/emitter/argument.rb`. It covers the `args` emitter with its
normal/shadow partition and its disambiguating trailing comma, the
`procarg0` emitter with its parenthesisation rule, and the leaf emitters for
`arg`, `shadowarg`, `optarg`, `kwoptarg`, `kwarg`, `restarg`, `kwrestarg`,
`blockarg`, `block_pass` and `arg_expr`.

Layout:

- `tokens.dfy` (`Tokens`): the token constants. Their values are defined
  outside the modelled file; the model takes `T_AMP = "&"`,
  `T_DSPLAT = "**"`, `T_SPLAT = "*"`, `T_ASN = "="`, `T_COLON = ":"`,
  `WS = " "`, and `", "` as the separator the host's `delimited` writes.
- `ast.dfy` (`ArgumentAst`): the node tree as a datatype `Node<E>` with one
  constructor per node type. `E` stands for every node rendered by another
  emitter, such as default values, block-pass targets, `mlhs` patterns and
  other node types. `Context` replaces the emitter's look at its parent
  (`parent_type`, and the first child of a `block` parent).
- `render.dfy` (`ArgumentRender`): each emitter as a pure function from a
  node and its parent's context to the text it writes. Nested nodes go
  through a `visit: E -> string` parameter, which stands for the host's
  dispatcher.
- `laws.dfy` (`ArgumentLaws`): the properties. These cover the stable
  partition, the layout of `args`, the exact condition for the trailing
  comma, the `procarg0` parentheses and the leaf templates.
- `reader.dfy` (`ParamReader`): a reader for one written parameter. It is the
  inverse of the leaf templates. It is proved to recover every parameter
  they write whose names are identifiers; a `shadowarg` is written like an
  `arg` and so reads back as a plain positional parameter.
- `emitter.dfy` (`ArgumentEmitter`): the emitters as the source runs them.
  An `Emitter` object has an output buffer, and each `dispatch` is a method
  that appends to it through `Write`, `Visit` and a `delimited` loop. Each
  method is proved to append exactly what the pure renderer gives.

Rendering is a function of the node and its context. So the same input
always gives the same text by construction; no lemma is needed for it.

## Model

| member | source | states |
|---|---|---|
| `ArgumentRender.Render` | lib/unparser/emitter/argument.rb:21-289 | the per-type dispatch to each emitter's body; `kwrestarg` and `blockarg` always pass the MAP lookup (the full templates are the `...Templates` lemmas below) |
| `ArgumentRender.IsShadow` | lib/unparser/emitter/argument.rb:32 | `SHADOWARGS`: a node is a shadow argument iff its type is `shadowarg` (a predicate, no contract of its own) |
| `ArgumentRender.NormalArguments` | lib/unparser/emitter/argument.rb:80-83 | `normal_arguments`: no kept child is a `shadowarg`, and there are at most as many as children |
| `ArgumentRender.Shadowargs` | lib/unparser/emitter/argument.rb:91-94 | `shadowargs`: every kept child is a `shadowarg`, and there are at most as many as children |
| `ArgumentRender.Select` | lib/unparser/emitter/argument.rb:80-94 | the `reject`/`select` behind `normal_arguments` and `shadowargs`: every kept node is on the requested side (not `shadowarg` / `shadowarg`) and the result is never longer than the children |
| `ArgumentLaws.SelectExactly` | lib/unparser/emitter/argument.rb:80-94 | a node is in `normal_arguments` iff it is a child that is not a `shadowarg`, and in `shadowargs` iff it is a `shadowarg` child |
| `ArgumentLaws.SelectAppend` | lib/unparser/emitter/argument.rb:80-94 | the partition distributes over concatenation, so each side keeps the children's original relative order |
| `ArgumentLaws.SelectUniform` | lib/unparser/emitter/argument.rb:80-94 | children that all lie on one side are kept whole on that side and leave the other side empty |
| `ArgumentLaws.PartitionSizes` | lib/unparser/emitter/argument.rb:80-94 | the two sides' lengths add up to the number of children, and together they hold every child exactly as often as the list does |
| `ArgumentRender.RenderArguments` | lib/unparser/emitter/argument.rb:43-52 | an `args` node without children writes nothing |
| `ArgumentLaws.ShadowsMoveToEnd` | lib/unparser/emitter/argument.rb:43-52 | `args` writes the same text as for its children reordered with all shadow arguments last; and when there are shadow arguments, the text is what the normal arguments alone write, then `"; "` and the shadow arguments comma-delimited, so shadow arguments always follow every normal argument |
| `ArgumentLaws.MixedLayout` | lib/unparser/emitter/argument.rb:43-52 | normal arguments followed by a non-empty run of shadow arguments are written as the normal arguments alone (with the disambiguating comma when it fires), then `"; "` and the shadow arguments |
| `ArgumentLaws.NoShadowLayout` | lib/unparser/emitter/argument.rb:43-52 | without shadow arguments, the output is the children in order, comma-delimited, followed by `", "` exactly when the disambiguator fires, and there is no `"; "` |
| `ArgumentLaws.ShadowOnlyLayout` | lib/unparser/emitter/argument.rb:43-52 | a list of only shadow arguments is written `"; "` followed by them, comma-delimited |
| `ArgumentLaws.ShadowOrderingExample` | lib/unparser/emitter/argument.rb:43-52 | `[arg a, shadowarg s, arg b]` is written `a, b; s` under every parent |
| `ArgumentRender.RegularBlock` | lib/unparser/emitter/argument.rb:70-72 | `regular_block?` holds exactly for a `block` parent whose first child is not a `lambda` |
| `ArgumentRender.ProcargDisambiguator` | lib/unparser/emitter/argument.rb:60-62 | `procarg_disambiguator?` holds only in a regular block and never for an `args` node without children |
| `ArgumentLaws.DisambiguatorExactly` | lib/unparser/emitter/argument.rb:60-72 | the trailing comma fires iff the parent is a block whose head is not a lambda and the only normal argument is a plain `arg`; so it never fires under a lambda or another parent, or with zero or several normal arguments |
| `ArgumentLaws.LoneArgumentComma` | lib/unparser/emitter/argument.rb:43-72 | in a regular block, `[arg x]` is written `x, ` while `[procarg0(arg x)]` is written `x`, so the two trees stay distinct; under a lambda head or another parent `[arg x]` is written `x` |
| `ArgumentRender.ForcesParens` | lib/unparser/emitter/argument.rb:243 | `PARENS`: a part forces parentheses iff it is a `restarg` or an `mlhs` (a predicate, no contract of its own) |
| `ArgumentRender.NeedsParens` | lib/unparser/emitter/argument.rb:263-267 | `needs_parens?` is false for no parts, true for several parts, and for one part true exactly when that part forces parentheses |
| `ArgumentRender.RenderProcarg` | lib/unparser/emitter/argument.rb:253-261 | `Procarg#dispatch`: an empty `procarg0` writes nothing, and when parentheses are needed the output starts with `(` and ends with `)` |
| `ArgumentLaws.ProcargParenthesised` | lib/unparser/emitter/argument.rb:253-267 | `procarg0` output is its delimited parts inside parentheses iff there are several parts or some part is a `restarg` or `mlhs`, and is the bare delimited parts iff not |
| `ArgumentLaws.ProcargSinglePart` | lib/unparser/emitter/argument.rb:253-267 | a single part that is neither `restarg` nor `mlhs` is written exactly as that part alone |
| `ArgumentLaws.ProcargExamples` | lib/unparser/emitter/argument.rb:253-267 | `[arg a, arg b]` gives `(a, b)`, `[arg a]` gives `a`, `[restarg a]` gives `(*a)` |
| `ArgumentRender.Morearg` | lib/unparser/emitter/argument.rb:102-122 | the MAP lookup succeeds iff the node is a `blockarg` or a `kwrestarg`; every other node type ends in a key error |
| `ArgumentLaws.MoreargTable` | lib/unparser/emitter/argument.rb:102-122 | `blockarg` writes `"&"` and the name, `kwrestarg` writes `"**"` and the name (just the sigil when the name is nil), and every other type raises |
| `ArgumentLaws.SigilTemplates` | lib/unparser/emitter/argument.rb:120-211 | `restarg`, `kwrestarg` and `blockarg` write their sigil and the name, or the sigil alone when anonymous: `*x`/`*`, `**x`/`**`, `&x`/`&` |
| `ArgumentLaws.NamedTemplates` | lib/unparser/emitter/argument.rb:142-233 | `arg` and `shadowarg` write `x`, `kwarg` writes `x:`, `optarg` writes `x = ` and its default, `kwoptarg` writes `x: ` and its default |
| `ArgumentLaws.WrapperTemplates` | lib/unparser/emitter/argument.rb:21-289 | `block_pass` writes `&` before its target, `arg_expr` writes its body in parentheses |
| `ArgumentRender.Join` | lib/unparser/emitter/argument.rb:44 | the host's `delimited`: no parts write nothing, and otherwise the text is as long as the parts together plus one `", "` for each part after the first |
| `ArgumentLaws.JoinSnoc` | lib/unparser/emitter/argument.rb:44 | `delimited` puts exactly one separator before each element after the first and none after the last |
| `ParamReader.ReadRendered` | lib/unparser/emitter/argument.rb:98-235 | with identifier names, the text written for `arg`, `optarg`, `kwoptarg`, `kwarg`, `restarg`, `kwrestarg` or `blockarg` reads back as the same kind of parameter with the same name and default text |
| `ParamReader.RenderingDistinguishesParams` | lib/unparser/emitter/argument.rb:98-235 | with identifier names, two parameter nodes (shadow variables aside) that are written the same way are equal, provided their defaults are written differently when they differ; without identifier names this fails (`arg "a:"` and `kwarg "a"` both write `a:`) |
| `ArgumentEmitter.Emitter.Visit` | lib/unparser/emitter/argument.rb:1-294 | dispatching a node by its type appends exactly the renderer's text for that node and parent context |
| `ArgumentEmitter.Emitter.EmitDelimited` | lib/unparser/emitter/argument.rb:44 | visiting each node in turn, with `", "` written between them, appends the delimited rendering of the list |
| `ArgumentEmitter.Emitter.EmitArguments` | lib/unparser/emitter/argument.rb:43-52 | the sequence of writes in `Arguments#dispatch`, including its early return, appends exactly the `args` rendering |
| `ArgumentEmitter.Emitter.EmitProcarg` | lib/unparser/emitter/argument.rb:253-261 | writing inside `parentheses` when `needs_parens?` holds, and bare otherwise, appends exactly the `procarg0` rendering |
| `ArgumentEmitter.Emitter.EmitMorearg` | lib/unparser/emitter/argument.rb:120-122 | succeeds iff the node is `blockarg` or `kwrestarg`; on success it appends sigil and name, on failure the buffer is unchanged |
| `ArgumentEmitter.Emitter.EmitOptarg` | lib/unparser/emitter/argument.rb:142-145 | appends the `optarg` rendering |
| `ArgumentEmitter.Emitter.EmitKeywordOptional` | lib/unparser/emitter/argument.rb:164-167 | appends the `kwoptarg` rendering |
| `ArgumentEmitter.Emitter.EmitKwarg` | lib/unparser/emitter/argument.rb:187-189 | appends the `kwarg` rendering |
| `ArgumentEmitter.Emitter.EmitRestarg` | lib/unparser/emitter/argument.rb:209-211 | appends the `restarg` rendering |
| `ArgumentEmitter.Emitter.EmitArgument` | lib/unparser/emitter/argument.rb:231-233 | appends the rendering shared by `arg` and `shadowarg` |
| `ArgumentEmitter.Emitter.EmitBlockPass` | lib/unparser/emitter/argument.rb:286-289 | appends the `block_pass` rendering |
| `ArgumentEmitter.Emitter.EmitArgExpr` | lib/unparser/emitter/argument.rb:21-23 | appends the body's rendering inside parentheses |

## Left out

- The host's registration and dispatch machinery is defined outside
  argument.rb. This covers `handle`, the `children` accessors, `visit`,
  `delimited`, `parentheses` and `visit_parentheses`. They are modelled by
  what they do: dispatch by constructor, join with `", "`, and wrap in
  `(`/`)`.
- The `Terminated` mixin and the whitespace, indentation and comment engine
  of the output buffer are host concerns; the buffer is a plain string.
- The `memoize` cache of the partition is not modelled. The partition is a
  pure function recomputed where it is used, so the cache changes nothing
  observable in a sequential model, and thread safety does not arise.
- The upward look at the parent (`parent_type`,
  `parent.node.children.first`) becomes the `Context` value handed down.
  The children of an `args` or `procarg0` node get the "other parent"
  context, because their parent is not a block.
- Nested nodes rendered by other emitters are opaque (`E`) and are written
  by the `visit` parameter. These are default values, block-pass targets,
  `arg_expr` bodies, `mlhs` patterns and other node types such as
  `forward_arg` or `kwnilarg`.
- The round-trip law says that re-parsing the output gives an equal tree. It
  needs a Ruby parser, which is not part of this model. Only its local
  form is proved: the `ParamReader` round-trip for single parameters, and
  `LoneArgumentComma` for the one ambiguity the comma resolves. For reading
  back, identifiers are ASCII word characters.
- Arity and shape violations of a node (for example an `optarg` without its
  default) cannot be expressed, because each constructor carries exactly its
  fields. A name that may be nil in Ruby (`restarg`, `kwrestarg`,
  `blockarg`) is an `Option`, and nil prints as `""` as Ruby's `to_s` does.
- A mismatched dispatch cannot be reached through `Visit`, because `Visit`
  always picks the emitter by the node's own type. The `Morearg` key error
  is therefore modelled on `Morearg` and `EmitMorearg` themselves.

## Where the code decides

- An anonymous block parameter (a nil name) is written as `&` alone,
  because `Morearg#dispatch` writes `name.to_s` after the sigil
  (lib/unparser/emitter/argument.rb:120-122). `SigilTemplates` states both
  the named and the anonymous form.
- Only `Morearg` depends on the node type, through `MAP.fetch`, which raises
  for any type other than `blockarg` and `kwrestarg`. The other emitters
  read their children without checking the type.
