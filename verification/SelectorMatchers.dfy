/**
 `matcherFromTokens` and `addCombinator`: a token list is compiled into nested closures that match an element
 from right to left. Closures become values of `Matcher`; `Eval` is what a closure answers when every walk is
 made afresh, and `Matches` is what the selector means.
 */
module SelectorMatchers {
  import opened Wrappers
  import opened DomTree

  datatype Combinator = Child | Descendant | Adjacent | Sibling
  {
    /** `Expr.relative[type].dir` */
    function Dir(): Dir {
      if Child? || Descendant? then ParentNode else PreviousSibling
    }

    /** `Expr.relative[type].first` */
    predicate First() { Child? || Adjacent? }
  }

  /** A token is a combinator, or a simple selector whose filter is not positional. */
  datatype Token = Relation(c: Combinator) | Simple(filter: nat)

  datatype Context = One(node: Node) | Many(nodes: seq<Node>)

  /** What a closure's answer depends on during one run of `superMatcher`. */
  datatype Env = Env(
    tree: Tree,
    holds: (nat, Node) -> bool,   // the answers of the simple filters
    context: Context,
    outermost: bool,              // context === outermostContext, which is false for the document
    xml: bool)
  {
    ghost predicate Valid() { tree.Valid() }

    predicate InContext(n: Node) {
      match context
      case One(c) => n == c
      case Many(cs) => n in cs
    }
  }

  datatype Matcher =
    | IsContext                                                        // elem === checkContext
    | InContexts                                                       // indexOf.call( checkContext, elem ) > -1
    | Foundation(leading: bool, one: Matcher, any: Matcher)            // the first entry of `matchers`
    | Filter(filter: nat)
    | Walk(inner: Matcher, c: Combinator, base: bool, doneName: nat)   // addCombinator
    | All(ms: seq<Matcher>)                                            // elementMatcher of several
  {
    predicate NonElements() requires Walk? { base && c.Dir() == ParentNode }

    /** The nodes a walk stops at: `elem.nodeType === 1 || checkNonElements`. */
    predicate Visits(t: Tree, n: Node)
      requires Walk? && n in t.kind
    {
      t.IsElement(n) || NonElements()
    }
  }

  // ---------------------------------------------------------------- closures, without caches

  predicate Eval(m: Matcher, env: Env, n: Node)
    requires env.Valid() && env.tree.Has(n)
    decreases m, 1, 0
  {
    match m
    case IsContext => env.context.One? && n == env.context.node
    case InContexts => env.context.Many? && n in env.context.nodes
    case Foundation(leading, one, any) =>
      (!leading && (env.xml || !env.outermost)) ||
      (if env.context.One? then Eval(one, env, n) else Eval(any, env, n))
    case Filter(f) => env.holds(f, n)
    case Walk(_, _, _, _) => EvalWalk(m, env, n)
    case All(ms) => forall i :: 0 <= i < |ms| ==> Eval(ms[i], env, n)
  }

  /** Some node further along the axis makes the walk succeed. */
  predicate EvalWalk(w: Matcher, env: Env, n: Node)
    requires env.Valid() && env.tree.Has(n) && w.Walk?
    decreases w, 0, env.tree.Left(w.c.Dir(), n)
  {
    match env.tree.Step(w.c.Dir(), n)
    case None => false
    case Some(p) =>
      if !w.Visits(env.tree, p) then EvalWalk(w, env, p)
      else if w.c.First() then Eval(w.inner, env, p)
      else Eval(w.inner, env, p) || EvalWalk(w, env, p)
  }

  // ---------------------------------------------------------------- what a selector means

  /**
   `m` and `n` are joined by the combinator: section 8 of Selectors Level 3, said of the tree. `any` lets non-elements
   stand on the left. A child's parent and an adjacent sibling are the closest node that qualifies.
   */
  ghost predicate Joined(t: Tree, c: Combinator, any: bool, m: Node, n: Node)
    requires t.Valid() && t.Has(n)
  {
    && t.Has(m) && Qualifies(t, any, m)
    && match c
       case Descendant => t.IsAncestor(m, n)
       case Child => t.IsAncestor(m, n) && forall z :: t.Has(z) && t.IsAncestor(z, n) && t.IsAncestor(m, z) ==>
                                                       !Qualifies(t, any, z)
       case Sibling => t.PrecedesSibling(m, n)
       case Adjacent => t.PrecedesSibling(m, n) && forall z :: t.PrecedesSibling(m, z) && t.PrecedesSibling(z, n) ==>
                                                               !Qualifies(t, any, z)
  }

  predicate Qualifies(t: Tree, any: bool, m: Node) {
    any || (m in t.kind && t.IsElement(m))
  }

  /** The element under the leftmost compound is reachable from a context, by the leading combinator if there is one. */
  ghost predicate Reachable(env: Env, lead: Option<Combinator>, n: Node)
    requires env.Valid() && env.tree.Has(n)
  {
    var c := if lead.Some? then lead.value else Descendant;
    exists m :: Joined(env.tree, c, c.Descendant? || c.Child?, m, n) && env.InContext(m)
  }

  /** Without leading combinator the code takes elements in XML, and those of nested runs, to be in the context. */
  predicate Shortcut(env: Env, lead: Option<Combinator>) { lead.None? && (env.xml || !env.outermost) }

  ghost predicate Follows(env: Env, t: Token, m: Node, n: Node)
    requires env.Valid() && env.tree.Has(n)
  {
    match t
    case Simple(f) => m == n && env.holds(f, n)
    case Relation(c) => Joined(env.tree, c, false, m, n)
  }

  /** `xs` assigns a node to every gap of the token list, from the leftmost compound to the matched element. */
  ghost predicate Chain(env: Env, lead: Option<Combinator>, ts: seq<Token>, xs: seq<Node>)
    requires env.Valid()
  {
    && |xs| == |ts| + 1
    && (forall i :: 0 <= i < |xs| ==> env.tree.Has(xs[i]))
    && (Shortcut(env, lead) || Reachable(env, lead, xs[0]))
    && forall i :: 0 <= i < |ts| ==> Follows(env, ts[i], xs[i], xs[i + 1])
  }

  ghost predicate MatchesFrom(env: Env, lead: Option<Combinator>, ts: seq<Token>, n: Node)
    requires env.Valid() && env.tree.Has(n)
  {
    exists xs :: Chain(env, lead, ts, xs) && xs[|ts|] == n
  }

  /** A leading combinator relates the first compound to the context. */
  function Lead(tokens: seq<Token>): Option<Combinator>
    requires |tokens| > 0
  {
    if tokens[0].Relation? then Some(tokens[0].c) else None
  }

  function Body(tokens: seq<Token>): seq<Token>
    requires |tokens| > 0
  {
    if tokens[0].Relation? then tokens[1..] else tokens
  }

  /** The selector `tokens` selects `n`: the leftmost compound is reachable from a context. */
  ghost predicate Matches(env: Env, tokens: seq<Token>, n: Node)
    requires env.Valid() && env.tree.Has(n) && |tokens| > 0
  {
    exists xs ::
      Chain(env, Lead(tokens), Body(tokens), xs) && Reachable(env, Lead(tokens), xs[0]) && xs[|Body(tokens)|] == n
  }

  /** What the code answers; the leftmost compound may be taken to be in the context unseen. */
  ghost predicate Answers(env: Env, tokens: seq<Token>, n: Node)
    requires env.Valid() && env.tree.Has(n) && |tokens| > 0
  {
    MatchesFrom(env, Lead(tokens), Body(tokens), n)
  }

  // ---------------------------------------------------------------- the compiler

  function FoundationOf(lead: Option<Combinator>, done: nat): Matcher {
    var implicit := if lead.Some? then lead.value else Descendant;
    Foundation(lead.Some?, Walk(IsContext, implicit, true, done), Walk(InContexts, implicit, true, done + 1))
  }

  function ElementMatcher(ms: seq<Matcher>): Matcher
    requires |ms| > 0
  {
    if |ms| > 1 then All(ms) else ms[0]
  }

  /** The list `matchers` after the tokens `ts`. */
  function Compiled(lead: Option<Combinator>, ts: seq<Token>, done: nat): (ms: seq<Matcher>)
    ensures |ms| > 0
  {
    if |ts| == 0 then [FoundationOf(lead, done)]
    else
      WithToken(Compiled(lead, ts[..|ts| - 1], done), ts[|ts| - 1], done + 2 + Relations(ts[..|ts| - 1]))
  }

  /** A filter joins the list; a combinator makes one walk of everything to its left. */
  function WithToken(ms: seq<Matcher>, t: Token, name: nat): (r: seq<Matcher>)
    requires |ms| > 0
    ensures |r| > 0
  {
    match t
    case Simple(f) => ms + [Filter(f)]
    case Relation(c) => [Walk(ElementMatcher(ms), c, false, name)]
  }

  function Relations(ts: seq<Token>): nat {
    if |ts| == 0 then 0
    else Relations(ts[..|ts| - 1]) + if ts[|ts| - 1].Relation? then 1 else 0
  }

  // ---------------------------------------------------------------- proofs

  lemma CompiledStep(lead: Option<Combinator>, ts: seq<Token>, t: Token, done: nat)
    ensures Compiled(lead, ts + [t], done) == WithToken(Compiled(lead, ts, done), t, done + 2 + Relations(ts))
    ensures Relations(ts + [t]) == Relations(ts) + if t.Relation? then 1 else 0
  {
    assert (ts + [t])[..|ts|] == ts;
  }

  lemma ElementMatcherEval(ms: seq<Matcher>, env: Env, n: Node)
    requires |ms| > 0 && env.Valid() && env.tree.Has(n)
    ensures Eval(ElementMatcher(ms), env, n) <==> forall i :: 0 <= i < |ms| ==> Eval(ms[i], env, n)
  {
    if |ms| == 1 { assert ElementMatcher(ms) == ms[0]; }
  }

  /** On the axis that `Expr.relative` names the combinator takes any node that qualifies, or only the closest. */
  ghost predicate Reaches(t: Tree, c: Combinator, any: bool, m: Node, n: Node)
    requires t.Valid() && t.Has(n)
  {
    && t.Has(m)
    && t.OnAxis(c.Dir(), m, n)
    && Qualifies(t, any, m)
    && (c.First() ==>
          forall z :: t.Has(z) && t.OnAxis(c.Dir(), z, n) && t.OnAxis(c.Dir(), m, z) ==> !Qualifies(t, any, z))
  }

  /** The table `Expr.relative` is right about every combinator. */
  lemma RelativeTable(t: Tree, c: Combinator, any: bool, m: Node, n: Node)
    requires t.Valid() && t.Has(n)
    ensures Joined(t, c, any, m, n) <==> Reaches(t, c, any, m, n)
  {
    assert forall z :: z in t.parent ==> t.Has(z);
    match c
    case Descendant => assert Joined(t, c, any, m, n) <==> t.Has(m) && Qualifies(t, any, m) && t.IsAncestor(m, n);
    case Child =>
      assert forall z :: t.OnAxis(ParentNode, z, n) <==> t.IsAncestor(z, n);
      assert forall z :: t.Has(z) ==> (t.OnAxis(ParentNode, m, z) <==> t.IsAncestor(m, z));
    case Sibling =>
    case Adjacent =>
      assert forall z :: t.OnAxis(PreviousSibling, z, n) <==> t.PrecedesSibling(z, n);
      assert forall z :: t.Has(z) ==> (t.OnAxis(PreviousSibling, m, z) <==> t.PrecedesSibling(m, z));
  }

  /** `+` joins an element to the element before it: nothing but text and comments stands between them. */
  lemma AdjacentIsNext(t: Tree, m: Node, n: Node)
    requires t.Valid() && t.Has(n)
    ensures Joined(t, Adjacent, false, m, n) <==>
              && m in t.parent && n in t.parent && t.parent[m] == t.parent[n] && t.IsElement(m)
              && t.index[m] < t.index[n]
              && forall i :: t.index[m] < i < t.index[n] ==> !t.IsElement(Kid(t, n, i))
  {
    if m in t.parent && n in t.parent && t.parent[m] == t.parent[n] && t.index[m] < t.index[n] {
      assert t.HangsRight(n);
      forall i | t.index[m] < i < t.index[n]
        ensures t.PrecedesSibling(m, Kid(t, n, i)) && t.PrecedesSibling(Kid(t, n, i), n) && t.Has(Kid(t, n, i))
      {
        assert t.IsKid(Kid(t, n, i), t.parent[n], i);
      }
      forall z | t.PrecedesSibling(m, z) && t.PrecedesSibling(z, n) ensures z == Kid(t, n, t.index[z]) {
        assert t.HangsRight(z);
      }
    }
  }

  /** The `i`-th child of the parent of `n`. */
  function Kid(t: Tree, n: Node, i: nat): (r: Node)
    requires t.Valid() && n in t.parent && i <= t.index[n]
    ensures r in t.kind
  {
    assert t.HangsRight(n) && t.IsKid(t.kids[t.parent[n]][i], t.parent[n], i);
    t.kids[t.parent[n]][i]
  }

  /** The walk succeeds exactly when some node joined by the combinator satisfies the inner closure. */
  lemma WalkMeaning(w: Matcher, env: Env, n: Node)
    requires w.Walk? && env.Valid() && env.tree.Has(n)
    ensures EvalWalk(w, env, n) <==>
            exists m :: Joined(env.tree, w.c, w.NonElements(), m, n) && Eval(w.inner, env, m)
  {
    forall m ensures Joined(env.tree, w.c, w.NonElements(), m, n) <==>
                     Reaches(env.tree, w.c, w.NonElements(), m, n) {
      RelativeTable(env.tree, w.c, w.NonElements(), m, n);
    }
    hide Joined, Reaches;
    WalkFinds(w, env, n);
  }

  lemma {:induction false} WalkFinds(w: Matcher, env: Env, n: Node)
    requires w.Walk? && env.Valid() && env.tree.Has(n)
    ensures EvalWalk(w, env, n) <==>
            exists m :: Reaches(env.tree, w.c, w.NonElements(), m, n) && Eval(w.inner, env, m)
    decreases env.tree.Left(w.c.Dir(), n)
  {
    var t, dir, any := env.tree, w.c.Dir(), w.NonElements();
    forall m ensures t.OnAxis(dir, m, n) <==>
                     t.Step(dir, n).Some? && (m == t.Step(dir, n).value || t.OnAxis(dir, m, t.Step(dir, n).value)) {
      t.AxisStep(dir, m, n);
    }
    if t.Step(dir, n).Some? {
      var p := t.Step(dir, n).value;
      WalkFinds(w, env, p);
      forall m | t.Has(m) && m != p && (w.c.First() ==> !w.Visits(t, p))
        ensures Reaches(t, w.c, any, m, n) <==> Reaches(t, w.c, any, m, p)
      {
        ReachesPast(t, w.c, any, m, p, n);
      }
      t.AxisStep(dir, p, p);
      if w.Visits(t, p) {
        forall z | t.Has(z) && t.OnAxis(dir, z, n) && t.OnAxis(dir, p, z) ensures false {
          t.AxisStep(dir, p, z);
          t.AxisStep(dir, z, p);
        }
        assert Reaches(t, w.c, any, p, n);
      }
    }
  }

  /** Passing a node that does not settle the walk leaves the rest of the axis as it was. */
  lemma ReachesPast(t: Tree, c: Combinator, any: bool, m: Node, p: Node, n: Node)
    requires t.Valid() && t.Has(n) && t.Has(m) && t.Step(c.Dir(), n) == Some(p)
    requires m != p && (c.First() ==> !Qualifies(t, any, p))
    ensures Reaches(t, c, any, m, n) <==> Reaches(t, c, any, m, p)
  {
    forall z ensures t.OnAxis(c.Dir(), z, n) <==> z == p || t.OnAxis(c.Dir(), z, p) { t.AxisStep(c.Dir(), z, n); }
  }

  lemma ChainInit(env: Env, lead: Option<Combinator>, ts: seq<Token>, xs: seq<Node>)
    requires env.Valid() && |ts| > 0 && Chain(env, lead, ts, xs)
    ensures Chain(env, lead, ts[..|ts| - 1], xs[..|ts|])
    ensures Follows(env, ts[|ts| - 1], xs[|ts| - 1], xs[|ts|])
  {
  }

  lemma ChainAppend(env: Env, lead: Option<Combinator>, front: seq<Token>, last: Token, ys: seq<Node>, n: Node)
    requires env.Valid() && env.tree.Has(n)
    requires Chain(env, lead, front, ys) && Follows(env, last, ys[|front|], n)
    ensures Chain(env, lead, front + [last], ys + [n])
  {
    var ts, xs := front + [last], ys + [n];
    forall i | 0 <= i < |ts| ensures Follows(env, ts[i], xs[i], xs[i + 1]) {
      if i < |front| { assert Follows(env, front[i], ys[i], ys[i + 1]); }
    }
  }

  lemma ChainSnoc(env: Env, lead: Option<Combinator>, ts: seq<Token>, n: Node)
    requires env.Valid() && env.tree.Has(n) && |ts| > 0
    ensures MatchesFrom(env, lead, ts, n) <==>
            exists m :: env.tree.Has(m) && Follows(env, ts[|ts| - 1], m, n) && MatchesFrom(env, lead, ts[..|ts| - 1], m)
  {
    var front, last := ts[..|ts| - 1], ts[|ts| - 1];
    if MatchesFrom(env, lead, ts, n) {
      var xs :| Chain(env, lead, ts, xs) && xs[|ts|] == n;
      ChainInit(env, lead, ts, xs);
      assert MatchesFrom(env, lead, front, xs[|front|]);
    }
    if m :| env.tree.Has(m) && Follows(env, last, m, n) && MatchesFrom(env, lead, front, m) {
      var ys :| Chain(env, lead, front, ys) && ys[|front|] == m;
      ChainAppend(env, lead, front, last, ys, n);
      assert front + [last] == ts;
    }
  }

  lemma FoundationMeaning(env: Env, lead: Option<Combinator>, done: nat, n: Node)
    requires env.Valid() && env.tree.Has(n)
    ensures Eval(FoundationOf(lead, done), env, n) <==> Shortcut(env, lead) || Reachable(env, lead, n)
  {
    hide Joined;
    var f := FoundationOf(lead, done);
    var w := if env.context.One? then f.one else f.any;
    WalkMeaning(w, env, n);
    forall m | env.tree.Has(m) ensures Eval(w.inner, env, m) <==> env.InContext(m) {}
    assert EvalWalk(w, env, n) <==> exists m :: Joined(env.tree, w.c, w.NonElements(), m, n) && env.InContext(m);
  }

  lemma {:induction false} CompiledMeaning(env: Env, lead: Option<Combinator>, ts: seq<Token>, done: nat, n: Node)
    requires env.Valid() && env.tree.Has(n)
    ensures Eval(ElementMatcher(Compiled(lead, ts, done)), env, n) <==> MatchesFrom(env, lead, ts, n)
    decreases |ts|
  {
    var ms := Compiled(lead, ts, done);
    ElementMatcherEval(ms, env, n);
    if |ts| == 0 {
      FoundationMeaning(env, lead, done, n);
      if Shortcut(env, lead) || Reachable(env, lead, n) { assert Chain(env, lead, ts, [n]); }
    } else {
      var front, last := ts[..|ts| - 1], ts[|ts| - 1];
      var before := Compiled(lead, front, done);
      ChainSnoc(env, lead, ts, n);
      match last
      case Simple(f) =>
        CompiledMeaning(env, lead, front, done, n);
        ElementMatcherEval(before, env, n);
        assert ms == before + [Filter(f)];
        if forall i :: 0 <= i < |ms| ==> Eval(ms[i], env, n) {
          assert forall i :: 0 <= i < |before| ==> before[i] == ms[i];
          assert Eval(ms[|before|], env, n);
        }
      case Relation(c) =>
        var w := ms[0];
        WalkMeaning(w, env, n);
        forall m | env.tree.Has(m) ensures Eval(w.inner, env, m) <==> MatchesFrom(env, lead, front, m) {
          CompiledMeaning(env, lead, front, done, m);
        }
    }
  }

  /** What the closure that `matcherFromTokens` builds answers. */
  lemma CompilerAnswers(env: Env, tokens: seq<Token>, done: nat, n: Node)
    requires env.Valid() && env.tree.Has(n) && |tokens| > 0
    ensures Eval(ElementMatcher(Compiled(Lead(tokens), Body(tokens), done)), env, n) <==> Answers(env, tokens, n)
  {
    CompiledMeaning(env, Lead(tokens), Body(tokens), done, n);
  }

  /**
   The closure that `matcherFromTokens` builds answers true exactly on the elements the selector selects, whenever the
   selector begins with a combinator or the run is an outermost one over HTML, in a context that is not the document.
   */
  lemma CompilerCorrect(env: Env, tokens: seq<Token>, done: nat, n: Node)
    requires env.Valid() && env.tree.Has(n) && |tokens| > 0
    ensures !Shortcut(env, Lead(tokens)) ==>
              (Eval(ElementMatcher(Compiled(Lead(tokens), Body(tokens), done)), env, n) <==> Matches(env, tokens, n))
  {
    CompilerAnswers(env, tokens, done, n);
  }

  /** `env` is as a selector engine needs it: simple filters hold of elements only, and `star` is the one for `*`. */
  ghost predicate Elemental(env: Env, star: nat)
    requires env.Valid()
  {
    && (forall f, n :: env.tree.Has(n) && env.holds(f, n) ==> env.tree.IsElement(n))
    && (forall n :: env.tree.Has(n) && env.tree.IsElement(n) ==> env.holds(star, n))
  }

  /** Every closure of a run answers as its selector says. */
  ghost predicate AllCorrect(env: Env, done: nat)
    requires env.Valid()
  {
    forall tokens: seq<Token>, n :: |tokens| > 0 && env.tree.Has(n) ==>
      (Eval(ElementMatcher(Compiled(Lead(tokens), Body(tokens), done)), env, n) <==> Matches(env, tokens, n))
  }

  /** The context test is made, or it would pass for every element. */
  ghost predicate ContextSafe(env: Env)
    requires env.Valid()
  {
    (env.outermost && !env.xml) || forall n :: env.tree.Has(n) && env.tree.IsElement(n) ==> Reachable(env, None, n)
  }

  /** All selectors are answered correctly exactly when the context test is made, or would pass for every element. */
  lemma CompilerExactly(env: Env, star: nat, done: nat)
    requires env.Valid() && Elemental(env, star)
    ensures AllCorrect(env, done) <==> ContextSafe(env)
  {
    if ContextSafe(env) {
      forall tokens: seq<Token>, n | |tokens| > 0 && env.tree.Has(n)
        ensures Eval(ElementMatcher(Compiled(Lead(tokens), Body(tokens), done)), env, n) <==> Matches(env, tokens, n)
      {
        CompilerAnswers(env, tokens, done, n);
        if Answers(env, tokens, n) { SafelyAnswered(env, star, tokens, n); }
      }
    } else {
      var n :| env.tree.Has(n) && env.tree.IsElement(n) && !Reachable(env, None, n);
      var tokens := [Simple(star)];
      CompilerAnswers(env, tokens, done, n);
      StarAnswered(env, star, tokens, n);
    }
  }

  lemma SafelyAnswered(env: Env, star: nat, tokens: seq<Token>, n: Node)
    requires env.Valid() && Elemental(env, star) && ContextSafe(env)
    requires |tokens| > 0 && env.tree.Has(n) && Answers(env, tokens, n)
    ensures Matches(env, tokens, n)
  {
    var xs :| Chain(env, Lead(tokens), Body(tokens), xs) && xs[|Body(tokens)|] == n;
    if Shortcut(env, Lead(tokens)) { assert Follows(env, tokens[0], xs[0], xs[1]); }
  }

  /** `*` is answered with an element that the context does not contain. */
  lemma StarAnswered(env: Env, star: nat, tokens: seq<Token>, n: Node)
    requires env.Valid() && Elemental(env, star) && env.tree.Has(n) && env.tree.IsElement(n)
    requires (env.xml || !env.outermost) && !Reachable(env, None, n) && tokens == [Simple(star)]
    ensures Answers(env, tokens, n) && !Matches(env, tokens, n)
  {
    assert Chain(env, None, tokens, [n, n]);
    forall xs | Chain(env, None, tokens, xs) && xs[1] == n ensures xs[0] == n {
      assert Follows(env, tokens[0], xs[0], xs[1]);
    }
  }

  /** In particular nothing goes wrong when the context is the root, as a document is, and not an element itself. */
  lemma RootContext(env: Env, star: nat, done: nat, root: Node)
    requires env.Valid() && Elemental(env, star) && env.context == One(root)
    requires env.tree.Has(root) && !env.tree.IsElement(root)
    requires forall n :: env.tree.Has(n) && n != root ==> env.tree.IsAncestor(root, n)
    ensures AllCorrect(env, done)
  {
    forall n | env.tree.Has(n) && env.tree.IsElement(n) ensures Reachable(env, None, n) {
      assert Joined(env.tree, Descendant, true, root, n) && env.InContext(root);
    }
    CompilerExactly(env, star, done);
  }

  /** Node 0 over node 1 over node 2, all of them elements. */
  function Line(): Tree {
    Tree(map[0 := [1], 1 := [2], 2 := []], map[1 := 0, 2 := 1], map[1 := 0, 2 := 0],
         map[0 := Element, 1 := Element, 2 := Element], map[0 := "a", 1 := "c", 2 := "b"],
         map[0 := 0, 1 := 1, 2 := 2], 2)
  }

  lemma LineKeys()
    ensures var t := Line(); t.kind.Keys == t.name.Keys == t.depth.Keys == t.kids.Keys == {0, 1, 2}
    ensures var t := Line(); t.parent.Keys == t.index.Keys == {1, 2}
  {
  }

  lemma LineValid()
    ensures Line().Valid() && (forall n: Node :: Line().Has(n) <==> n < 3)
    ensures forall n: Node :: n < 3 ==> Line().IsElement(n)
  {
    LineKeys();
    assert Line().HangsRight(1) && Line().HangsRight(2) && Line().IsKid(1, 0, 0) && Line().IsKid(2, 1, 0);
  }

  lemma LineAncestors()
    ensures Line().Valid() && Line().Has(0) && Line().Has(2)
    ensures Line().IsAncestor(0, 2) && forall m :: !Line().IsAncestor(m, 0)
  {
    LineValid();
    var t := Line();
    assert t.Step(ParentNode, 2) == Some(1) && t.Step(ParentNode, 1) == Some(0) && t.Step(ParentNode, 0) == None;
    t.AxisStep(ParentNode, 0, 1);
    t.AxisStep(ParentNode, 0, 2);
    forall m ensures !t.IsAncestor(m, 0) { t.AxisStep(ParentNode, m, 0); }
  }

  /** Filter 0 is `a`, filter 1 is `b`. */
  function XmlEnv(): Env { Env(Line(), (f, n) => n == if f == 0 then 0 else 2, One(1), true, true) }

  /** With XML, `a b` in the context of node 1 finds node 2 below it, although the only `a` lies above the context. */
  lemma XmlSkipsContext(done: nat, tokens: seq<Token>)
    requires tokens == [Simple(0), Relation(Descendant), Simple(1)]
    ensures XmlEnv().Valid() && XmlEnv().tree.Has(2)
    ensures Eval(ElementMatcher(Compiled(Lead(tokens), Body(tokens), done)), XmlEnv(), 2)
    ensures !Matches(XmlEnv(), tokens, 2)
  {
    LineValid();
    LineAncestors();
    var env := XmlEnv();
    CompilerAnswers(env, tokens, done, 2);
    DescendantAnswered(env, tokens, 0, 2);
    forall xs | Chain(env, None, tokens, xs) && xs[3] == 2 ensures !Reachable(env, None, xs[0]) {
      assert Follows(env, tokens[0], xs[0], xs[1]);
      assert forall m :: !env.tree.IsAncestor(m, xs[0]);
    }
  }

  lemma DescendantAnswered(env: Env, tokens: seq<Token>, a: Node, b: Node)
    requires env.Valid() && env.xml && tokens == [Simple(0), Relation(Descendant), Simple(1)]
    requires env.tree.Has(a) && env.tree.Has(b) && env.tree.IsElement(a) && env.tree.IsAncestor(a, b)
    requires env.holds(0, a) && env.holds(1, b)
    ensures Answers(env, tokens, b)
  {
    var xs := [a, a, b, b];
    assert Joined(env.tree, Descendant, false, a, b);
    assert Chain(env, None, tokens, xs);
  }

  /** Where only roots contain nodes without being elements, as in a document, `>` reaches the parent and no further. */
  lemma ChildIsParent(t: Tree, m: Node, n: Node)
    requires t.Valid() && t.Has(n)
    requires forall k :: k in t.parent && t.parent[k] in t.parent ==> t.kind[t.parent[k]] == Element
    ensures Joined(t, Child, false, m, n) <==> n in t.parent && m == t.parent[n] && t.IsElement(m)
  {
    forall z ensures t.OnAxis(ParentNode, z, n) <==>
                     n in t.parent && (z == t.parent[n] || t.OnAxis(ParentNode, z, t.parent[n])) {
      t.AxisStep(ParentNode, z, n);
    }
    if n in t.parent {
      var p := t.parent[n];
      forall z ensures t.OnAxis(ParentNode, z, p) ==>
                         p in t.parent && t.IsElement(p) && (t.Has(z) && t.depth[z] < t.depth[p]) {
        t.AxisStep(ParentNode, z, p);
      }
      if t.OnAxis(ParentNode, m, p) { assert Qualifies(t, false, p); }
      if t.IsElement(p) {
        forall z | t.Has(z) && t.OnAxis(ParentNode, z, n) && t.OnAxis(ParentNode, p, z) ensures false {
          t.AxisStep(ParentNode, p, z);
        }
      }
    }
  }
}
