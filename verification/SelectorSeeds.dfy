/**
 `select` does not change what a selector means: the search for a seed set, the ID shortcut and the context handed over
 for the elements to be looked at lose no element that the selector selects, and let no other one in.
 */
module SelectorSeeds {
  import opened Wrappers
  import opened DomTree
  import opened SelectorMatchers
  import T = Tokenizer
  import S = SelectorSource

  function Sign(c: Combinator): char {
    match c
    case Child => '>'
    case Descendant => ' '
    case Adjacent => '+'
    case Sibling => '~'
  }

  predicate IsSibling(lead: Option<Combinator>) { lead.Some? && (lead.value.Adjacent? || lead.value.Sibling?) }

  /** A token of the lexer and what it means. */
  predicate Reads(token: T.Token, t: Token) {
    && |token.value| > 0
    && match t
       case Relation(c) => token.typ == [Sign(c)] && (c.Adjacent? || c.Sibling? ==> Sign(c) in token.value)
       case Simple(_) => |token.typ| > 1 && '+' !in token.typ && '~' !in token.typ
  }

  predicate Reading(tokens: seq<T.Token>, ts: seq<Token>) {
    |tokens| == |ts| && forall i :: 0 <= i < |ts| ==> Reads(tokens[i], ts[i])
  }

  /** `rsibling`, `Expr.relative` and `parentNode`. */
  ghost predicate Browser(fd: S.Finder, t: Tree)
    requires t.Valid()
  {
    && (forall text :: fd.hasSibling(text) <==> '+' in text || '~' in text)
    && (forall typ :: fd.isRelative(typ) <==> exists c: Combinator :: typ == [Sign(c)])
    && (forall n :: t.Has(n) ==> fd.parentContext(n) == t.Parent(n))
  }

  /** A search finds what lies below a node and passes the filter. */
  ghost predicate Finds(fd: S.Finder, env: Env, token: T.Token, filter: nat)
    requires env.Valid()
  {
    forall top :: fd.find(token, top).Some? ==> Found(env, filter, top, fd.find(token, top).value)
  }

  ghost predicate Found(env: Env, filter: nat, top: Node, seed: seq<Node>)
    requires env.Valid()
  {
    forall n :: env.tree.Has(n) ==> (n in seed <==> env.tree.IsAncestor(top, n) && env.holds(filter, n))
  }

  // ---------------------------------------------------------------- where the selected elements are

  /** Below a node to the right of the combinator is what was below it to the left. */
  lemma StepDown(env: Env, t: Token, m: Node, n: Node, top: Node)
    requires env.Valid() && env.tree.Has(m) && env.tree.Has(n)
    requires Follows(env, t, m, n) && env.tree.IsAncestor(top, m)
    ensures env.tree.IsAncestor(top, n)
  {
    match t
    case Simple(_) =>
    case Relation(c) =>
      if c.Dir() == ParentNode {
        env.tree.AxisTransitive(ParentNode, top, m, n);
      } else {
        env.tree.AxisStep(ParentNode, top, m);
        env.tree.AxisStep(ParentNode, top, n);
      }
  }

  lemma {:induction false} ChainDown(env: Env, lead: Option<Combinator>, ts: seq<Token>, xs: seq<Node>, top: Node,
                                     i: nat)
    requires env.Valid() && Chain(env, lead, ts, xs) && i < |xs|
    requires env.tree.IsAncestor(top, xs[0])
    ensures env.tree.IsAncestor(top, xs[i])
    decreases i
  {
    if i > 0 {
      ChainDown(env, lead, ts, xs, top, i - 1);
      StepDown(env, ts[i - 1], xs[i - 1], xs[i], top);
    }
  }

  /** The node below which a selector that begins so can select. */
  function Top(t: Tree, lead: Option<Combinator>, context: Node): Node {
    if IsSibling(lead) && context in t.parent then t.parent[context] else context
  }

  lemma ReachedBelow(env: Env, lead: Option<Combinator>, context: Node, n: Node)
    requires env.Valid() && env.tree.Has(n) && env.context == One(context) && Reachable(env, lead, n)
    ensures env.tree.Has(context) && (IsSibling(lead) ==> context in env.tree.parent)
    ensures env.tree.IsAncestor(Top(env.tree, lead, context), n)
  {
    if IsSibling(lead) { env.tree.AxisStep(ParentNode, Top(env.tree, lead, context), n); }
  }

  /** What a selector selects lies below its context, or below the parent if it begins with `+` or `~`. */
  lemma SelectedBelow(env: Env, ts: seq<Token>, context: Node, n: Node)
    requires env.Valid() && env.tree.Has(n) && env.context == One(context) && |ts| > 0 && Matches(env, ts, n)
    ensures env.tree.Has(context) && (IsSibling(Lead(ts)) ==> context in env.tree.parent)
    ensures env.tree.IsAncestor(Top(env.tree, Lead(ts), context), n)
  {
    var xs :|
      Chain(env, Lead(ts), Body(ts), xs) && Reachable(env, Lead(ts), xs[0]) && xs[|Body(ts)|] == n;
    ReachedBelow(env, Lead(ts), context, xs[0]);
    ChainDown(env, Lead(ts), Body(ts), xs, Top(env.tree, Lead(ts), context), |Body(ts)|);
  }

  /** The widened context misses nothing, whether it had to be widened or not. */
  lemma ExpandedIsWide(fd: S.Finder, env: Env, ts: seq<Token>, text: string, context: Node, n: Node)
    requires env.Valid() && env.tree.Has(n) && env.context == One(context) && |ts| > 0 && Matches(env, ts, n)
    requires Browser(fd, env.tree) && (IsSibling(Lead(ts)) ==> fd.hasSibling(text))
    ensures env.tree.IsAncestor(S.Expanded(fd, text, context), n)
  {
    SelectedBelow(env, ts, context, n);
    if !IsSibling(Lead(ts)) && fd.hasSibling(text) && context in env.tree.parent {
      env.tree.AxisStep(ParentNode, env.tree.parent[context], context);
      env.tree.AxisTransitive(ParentNode, env.tree.parent[context], context, n);
    }
  }

  // ---------------------------------------------------------------- a filter is taken out

  lemma {:induction false} FiltersStay(env: Env, lead: Option<Combinator>, ts: seq<Token>, xs: seq<Node>, i: nat,
                                       k: nat)
    requires env.Valid() && Chain(env, lead, ts, xs) && i <= k < |xs|
    requires forall j :: i <= j < |ts| ==> ts[j].Simple?
    ensures xs[i] == xs[k]
    decreases k
  {
    if i < k {
      FiltersStay(env, lead, ts, xs, i, k - 1);
      assert Follows(env, ts[k - 1], xs[k - 1], xs[k]);
    }
  }

  function Less(ts: seq<Token>, i: nat): seq<Token>
    requires i < |ts|
  {
    ts[..i] + ts[i + 1..]
  }

  lemma ChainLess(env: Env, lead: Option<Combinator>, ts: seq<Token>, xs: seq<Node>, i: nat) returns (ys: seq<Node>)
    requires env.Valid() && Chain(env, lead, ts, xs) && i < |ts|
    requires forall j :: i <= j < |ts| ==> ts[j].Simple?
    ensures Chain(env, lead, Less(ts, i), ys) && ys[0] == xs[0] && ys[|ts| - 1] == xs[|ts|]
    ensures env.holds(ts[i].filter, xs[|ts|])
  {
    ys := xs[..i] + xs[i + 1..];
    assert Follows(env, ts[i], xs[i], xs[i + 1]);
    FiltersStay(env, lead, ts, xs, i, |ts|);
    forall k | 0 <= k < |ts| - 1 ensures Follows(env, Less(ts, i)[k], ys[k], ys[k + 1]) {
      var j := if k < i then k else k + 1;
      assert Follows(env, ts[j], xs[j], xs[j + 1]);
    }
  }

  lemma ChainMore(env: Env, lead: Option<Combinator>, ts: seq<Token>, ys: seq<Node>, i: nat) returns (xs: seq<Node>)
    requires env.Valid() && i < |ts| && Chain(env, lead, Less(ts, i), ys)
    requires forall j :: i <= j < |ts| ==> ts[j].Simple?
    requires env.holds(ts[i].filter, ys[|ts| - 1])
    ensures Chain(env, lead, ts, xs) && xs[0] == ys[0] && xs[|ts|] == ys[|ts| - 1]
  {
    xs := ys[..i + 1] + ys[i..];
    FiltersStay(env, lead, Less(ts, i), ys, i, |ts| - 1);
    forall k | 0 <= k < |ts| ensures Follows(env, ts[k], xs[k], xs[k + 1]) {
      if k < i { assert Follows(env, Less(ts, i)[k], ys[k], ys[k + 1]); }
      else if k > i { assert Follows(env, Less(ts, i)[k - 1], ys[k - 1], ys[k]); }
    }
  }

  /** Which part of the tokens loses one. */
  lemma BodyLess(ts: seq<Token>, i: nat) returns (k: nat)
    requires i < |ts| && |ts| > 1 && ts[i].Simple? && (i == 0 ==> ts[1].Simple?)
    ensures Lead(Less(ts, i)) == Lead(ts)
    ensures k < |Body(ts)| && Body(Less(ts, i)) == Less(Body(ts), k) && Body(ts)[k] == ts[i]
    ensures forall j :: k <= j < |Body(ts)| ==> Body(ts)[j] in ts[i..]
  {
    k := if Lead(ts).Some? then i - 1 else i;
    forall j | k <= j < |Body(ts)| ensures Body(ts)[j] in ts[i..] { assert Body(ts)[j] == ts[i..][j - k]; }
  }

  /** Some chain of these tokens ends in `n`. */
  ghost predicate Linked(env: Env, lead: Option<Combinator>, ts: seq<Token>, n: Node)
    requires env.Valid()
  {
    exists xs :: Chain(env, lead, ts, xs) && Reachable(env, lead, xs[0]) && xs[|ts|] == n
  }

  lemma LinkedLess(env: Env, lead: Option<Combinator>, ts: seq<Token>, i: nat, n: Node)
    requires env.Valid() && i < |ts| && (forall j :: i <= j < |ts| ==> ts[j].Simple?) && Linked(env, lead, ts, n)
    requires env.tree.Has(n)
    ensures env.holds(ts[i].filter, n) && Linked(env, lead, Less(ts, i), n)
  {
    var xs :| Chain(env, lead, ts, xs) && Reachable(env, lead, xs[0]) && xs[|ts|] == n;
    var ys := ChainLess(env, lead, ts, xs, i);
    assert |Less(ts, i)| == |ts| - 1;
  }

  lemma LinkedMore(env: Env, lead: Option<Combinator>, ts: seq<Token>, i: nat, n: Node)
    requires env.Valid() && i < |ts| && (forall j :: i <= j < |ts| ==> ts[j].Simple?)
    requires env.tree.Has(n) && env.holds(ts[i].filter, n) && Linked(env, lead, Less(ts, i), n)
    ensures Linked(env, lead, ts, n)
  {
    assert |Less(ts, i)| == |ts| - 1;
    var ys :| Chain(env, lead, Less(ts, i), ys) && Reachable(env, lead, ys[0]) && ys[|ts| - 1] == n;
    var xs := ChainMore(env, lead, ts, ys, i);
  }

  /** A filter of the last compound may be asked apart from the others. */
  lemma FilterApart(env: Env, ts: seq<Token>, i: nat, n: Node)
    requires env.Valid() && env.tree.Has(n) && i < |ts| && |ts| > 1
    requires forall j :: i <= j < |ts| ==> ts[j].Simple?
    ensures Matches(env, ts, n) <==> env.holds(ts[i].filter, n) && Matches(env, Less(ts, i), n)
  {
    var k := BodyLess(ts, i);
    assert |Less(ts, i)| > 0;
    assert Matches(env, ts, n) <==> Linked(env, Lead(ts), Body(ts), n);
    assert Matches(env, Less(ts, i), n) <==> Linked(env, Lead(ts), Less(Body(ts), k), n);
    hide Linked, Matches, Less, Body, Lead;
    if Linked(env, Lead(ts), Body(ts), n) { LinkedLess(env, Lead(ts), Body(ts), k, n); }
    if env.holds(ts[i].filter, n) && Linked(env, Lead(ts), Less(Body(ts), k), n) {
      LinkedMore(env, Lead(ts), Body(ts), k, n);
    }
  }

  lemma OneFilter(env: Env, filter: nat, context: Node, n: Node)
    requires env.Valid() && env.tree.Has(n) && env.context == One(context) && env.tree.Has(context)
    ensures Matches(env, [Simple(filter)], n) <==> env.holds(filter, n) && env.tree.IsAncestor(context, n)
  {
    var ts := [Simple(filter)];
    ContextAbove(env, context, n);
    hide Reachable;
    if Matches(env, ts, n) {
      var xs :| Chain(env, None, ts, xs) && Reachable(env, None, xs[0]) && xs[1] == n;
      assert Follows(env, ts[0], xs[0], xs[1]);
    }
    if env.holds(filter, n) && Reachable(env, None, n) {
      assert Chain(env, None, ts, [n, n]) && [n, n][0] == n && [n, n][1] == n;
    }
  }

  lemma ContextAbove(env: Env, context: Node, n: Node)
    requires env.Valid() && env.tree.Has(n) && env.context == One(context) && env.tree.Has(context)
    ensures Reachable(env, None, n) <==> env.tree.IsAncestor(context, n)
  {
    assert Joined(env.tree, Descendant, true, context, n) <==> env.tree.IsAncestor(context, n);
    assert Reachable(env, None, n) <==> Joined(env.tree, Descendant, true, context, n) && env.InContext(context);
  }

  // ---------------------------------------------------------------- the seed set

  /** The seed set and the tokens left select together what all the tokens select. */
  lemma SeedIsRight(fd: S.Finder, env: Env, tokens: seq<T.Token>, ts: seq<Token>, context: Node, i: nat, n: Node)
    requires env.Valid() && env.tree.Has(n) && env.context == One(context) && env.tree.Has(context)
    requires Browser(fd, env.tree) && Reading(tokens, ts) && S.IsSeed(fd, tokens, context, i)
    requires ts[i].Simple? ==> Finds(fd, env, tokens[i], ts[i].filter)
    ensures var seed := S.Search(fd, tokens, context, i).value;
            Matches(env, ts, n) <==> n in seed && (|ts| > 1 ==> Matches(env, Less(ts, i), n))
  {
    forall j | i <= j < |ts| ensures ts[j].Simple? { assert Reads(tokens[j], ts[j]); }
    assert Reads(tokens[0], ts[0]);
    var top := S.Expanded(fd, tokens[0].typ, context);
    assert Found(env, ts[i].filter, top, S.Search(fd, tokens, context, i).value);
    if |ts| > 1 {
      FilterApart(env, ts, i, n);
      if Matches(env, ts, n) { ExpandedIsWide(fd, env, ts, tokens[0].typ, context, n); }
    } else {
      assert ts == [Simple(ts[0].filter)];
      OneFilter(env, ts[0].filter, context, n);
    }
  }

  // ---------------------------------------------------------------- the ID shortcut

  /** Only roots contain nodes without being elements, as in a document. */
  ghost predicate ElementsInside(t: Tree) {
    forall n :: n in t.parent && t.parent[n] in t.parent ==> t.parent[n] in t.kind && t.kind[t.parent[n]] == Element
  }

  lemma {:induction false} AncestorHasChild(t: Tree, a: Node, n: Node)
    requires t.Valid() && t.Has(n) && t.IsAncestor(a, n)
    ensures exists k :: k in t.parent && t.parent[k] == a
    decreases t.depth[n]
  {
    t.AxisStep(ParentNode, a, n);
    if t.parent[n] != a { AncestorHasChild(t, a, t.parent[n]); }
  }

  /** For an element it makes no difference whether the combinator also takes non-elements. */
  lemma ElementJoins(t: Tree, c: Combinator, m: Node, n: Node)
    requires t.Valid() && t.Has(n) && t.Has(m) && t.IsElement(m) && ElementsInside(t)
    ensures Joined(t, c, false, m, n) <==> Joined(t, c, c.Descendant? || c.Child?, m, n)
  {
    if c.Child? {
      forall z | t.Has(z) && t.IsAncestor(z, n) && t.IsAncestor(m, z) ensures t.IsElement(z) {
        AncestorHasChild(t, z, n);
        t.AxisStep(ParentNode, m, z);
      }
    }
  }

  lemma JoinedReachable(env: Env, c: Combinator, m: Node, n: Node)
    requires env.Valid() && env.tree.Has(n) && env.tree.Has(m) && env.tree.IsElement(m) && ElementsInside(env.tree)
    requires env.context == One(m)
    ensures Reachable(env, Some(c), n) <==> Joined(env.tree, c, false, m, n)
  {
    ElementJoins(env.tree, c, m, n);
    assert env.InContext(m);
  }

  /** The one element below the context that the filter holds of. */
  ghost predicate Identifies(env: Env, filter: nat, context: Node, c: Node)
    requires env.Valid()
  {
    && env.tree.Has(c) && env.tree.IsElement(c) && env.tree.IsAncestor(context, c) && env.holds(filter, c)
    && forall n :: env.tree.Has(n) && env.tree.IsAncestor(context, n) && env.holds(filter, n) ==> n == c
  }

  lemma AncestorHas(t: Tree, a: Node, n: Node)
    requires t.Valid() && t.Has(n) && t.IsAncestor(a, n)
    ensures t.Has(a)
  {
    t.AxisStep(ParentNode, a, n);
  }

  /** Behind an identified element the selector may be searched from there. */
  lemma ShortcutIsRight(env: Env, ts: seq<Token>, context: Node, c: Node, n: Node)
    requires env.Valid() && env.tree.Has(n) && env.context == One(context) && ElementsInside(env.tree)
    requires |ts| > 1 && ts[0].Simple? && ts[1].Relation? && Identifies(env, ts[0].filter, context, c)
    ensures Matches(env, ts, n) <==> Matches(env.(context := One(c)), ts[1..], n)
  {
    if Matches(env, ts, n) { FromContext(env, ts, context, c, n); }
    if Matches(env.(context := One(c)), ts[1..], n) {
      AncestorHas(env.tree, context, c);
      FromElement(env, ts, context, c, n);
    }
  }

  lemma FromContext(env: Env, ts: seq<Token>, context: Node, c: Node, n: Node)
    requires env.Valid() && env.tree.Has(n) && env.context == One(context) && ElementsInside(env.tree)
    requires |ts| > 1 && ts[0].Simple? && ts[1].Relation? && Identifies(env, ts[0].filter, context, c)
    requires Matches(env, ts, n)
    ensures Matches(env.(context := One(c)), ts[1..], n)
  {
    var there := env.(context := One(c));
    var xs :| Chain(env, None, ts, xs) && Reachable(env, None, xs[0]) && xs[|ts|] == n;
    assert Follows(env, ts[0], xs[0], xs[1]) && Follows(env, ts[1], xs[1], xs[2]);
    ReachedBelow(env, None, context, xs[0]);
    assert xs[1] == c;
    JoinedReachable(there, ts[1].c, c, xs[2]);
    ChainTail(env, there, ts, xs);
    assert Body(ts[1..]) == ts[2..] && xs[2..][|ts| - 2] == n;
  }

  lemma FromElement(env: Env, ts: seq<Token>, context: Node, c: Node, n: Node)
    requires env.Valid() && env.tree.Has(n) && env.context == One(context) && ElementsInside(env.tree)
    requires |ts| > 1 && ts[0].Simple? && ts[1].Relation? && Identifies(env, ts[0].filter, context, c)
    requires env.tree.Has(context) && Matches(env.(context := One(c)), ts[1..], n)
    ensures Matches(env, ts, n)
  {
    var there := env.(context := One(c));
    assert Body(ts[1..]) == ts[2..];
    var ys :| Chain(there, Some(ts[1].c), ts[2..], ys) && Reachable(there, Some(ts[1].c), ys[0]) && ys[|ts| - 2] == n;
    JoinedReachable(there, ts[1].c, c, ys[0]);
    ContextAbove(env, context, c);
    ChainBehind(env, there, ts, c, ys);
    assert ([c, c] + ys)[|ts|] == n;
  }

  lemma ChainTail(env: Env, there: Env, ts: seq<Token>, xs: seq<Node>)
    requires env.Valid() && there == env.(context := there.context) && |ts| > 1 && ts[1].Relation?
    requires Chain(env, None, ts, xs) && Reachable(there, Some(ts[1].c), xs[2])
    ensures Chain(there, Some(ts[1].c), ts[2..], xs[2..])
  {
    forall k | 0 <= k < |ts| - 2 ensures Follows(there, ts[2..][k], xs[2..][k], xs[2..][k + 1]) {
      assert Follows(env, ts[k + 2], xs[k + 2], xs[k + 3]);
    }
  }

  lemma ChainBehind(env: Env, there: Env, ts: seq<Token>, c: Node, ys: seq<Node>)
    requires env.Valid() && there == env.(context := there.context) && |ts| > 1 && ts[0].Simple? && ts[1].Relation?
    requires env.tree.Has(c) && env.holds(ts[0].filter, c) && Reachable(env, None, c)
    requires Chain(there, Some(ts[1].c), ts[2..], ys) && Joined(env.tree, ts[1].c, false, c, ys[0])
    ensures Chain(env, None, ts, [c, c] + ys)
  {
    var xs := [c, c] + ys;
    forall k | 0 <= k < |ts| ensures Follows(env, ts[k], xs[k], xs[k + 1]) {
      if k > 1 { assert Follows(there, ts[2..][k - 2], ys[k - 2], ys[k - 1]); }
    }
  }

  /** The element under the first compound. */
  lemma FirstCompound(env: Env, ts: seq<Token>, context: Node, n: Node) returns (x: Node)
    requires env.Valid() && env.tree.Has(n) && env.context == One(context) && |ts| > 0 && ts[0].Simple?
    requires Matches(env, ts, n)
    ensures env.tree.Has(x) && env.tree.IsAncestor(context, x) && env.holds(ts[0].filter, x)
  {
    var xs :| Chain(env, None, ts, xs) && Reachable(env, None, xs[0]) && xs[|ts|] == n;
    assert Follows(env, ts[0], xs[0], xs[1]);
    ReachedBelow(env, None, context, xs[0]);
    x := xs[0];
  }

  // ---------------------------------------------------------------- what select hands on

  /** `getElementById` is right about the element the selector begins with. */
  ghost predicate ById(fd: S.Finder, env: Env, tokens: seq<T.Token>, ts: seq<Token>, context: Node)
    requires env.Valid() && Reading(tokens, ts)
  {
    match S.Shortcut(fd, tokens, context)
    case NotApplicable => true
    case Missing =>
      |ts| > 0 && ts[0].Simple?
      && forall m :: env.tree.Has(m) && env.tree.IsAncestor(context, m) ==> !env.holds(ts[0].filter, m)
    case Found(c) => |ts| > 0 && ts[0].Simple? && Identifies(env, ts[0].filter, context, c)
  }

  /** The seed elements, or those below the node handed over, that `us` selects are the ones `ts` selects. */
  ghost predicate SameAnswers(env: Env, ts: seq<Token>, us: seq<Token>, seed: Option<seq<Node>>, c: Node, all: Node)
    requires env.Valid() && |ts| > 0 && |us| > 0
  {
    forall n :: env.tree.Has(n) ==>
      (Matches(env, ts, n) <==>
        (if seed.Some? then n in seed.value else env.tree.IsAncestor(all, n))
        && Matches(env.(context := One(c)), us, n))
  }

  ghost predicate AllFind(fd: S.Finder, env: Env, tokens: seq<T.Token>, ts: seq<Token>)
    requires env.Valid() && Reading(tokens, ts)
  {
    forall i :: 0 <= i < |ts| && ts[i].Simple? ==> Finds(fd, env, tokens[i], ts[i].filter)
  }

  /** What may become of tokens before which no ID shortcut was taken. */
  ghost predicate Pruned(fd: S.Finder, tokens: seq<T.Token>, context: Node, r: S.Selected, rest: seq<T.Token>) {
    match r
    case BadSelector => false
    case Finished(found) =>
      exists i :: S.Seeded(fd, tokens, context, i, rest, found) && (|found| == 0 || |T.ToSelector(rest)| == 0)
    case ToCompile(selector, _, seed, c, outermost) =>
      && selector == T.ToSelector(rest) && c == context && outermost == S.Expanded(fd, selector, context)
      && (if seed.None? then rest == tokens else exists i :: S.Seeded(fd, tokens, context, i, rest, seed.value))
      && (seed.Some? ==> |T.ToSelector(rest)| > 0)
  }

  /** Final results are the elements selected, and what is handed on selects the same. */
  ghost predicate Right(env: Env, ts: seq<Token>, r: S.Selected, rest: seq<T.Token>)
    requires env.Valid() && |ts| > 0
  {
    && (r.Finished? ==> forall n :: env.tree.Has(n) ==> (n in r.found <==> Matches(env, ts, n)))
    && (r.ToCompile? ==> exists us :: Reading(rest, us) && |us| > 0
                                      && SameAnswers(env, ts, us, r.seed, r.context, r.outermost))
  }

  lemma ToSelectorStarts(tokens: seq<T.Token>)
    requires |tokens| > 0
    ensures |T.ToSelector(tokens)| >= |tokens[0].value|
    ensures forall x :: x in tokens[0].value ==> x in T.ToSelector(tokens)
  {
    S.WithoutFirst(tokens);
    assert tokens == [tokens[0]] + tokens[1..];
    T.ToSelectorAppend([tokens[0]], tokens[1..]);
    assert [tokens[0]][..0] == [];
    assert T.ToSelector([tokens[0]]) == [] + tokens[0].value == tokens[0].value;
  }

  lemma SiblingInText(fd: S.Finder, t: Tree, tokens: seq<T.Token>, ts: seq<Token>)
    requires t.Valid() && Browser(fd, t) && |ts| > 0 && Reading(tokens, ts) && IsSibling(Lead(ts))
    ensures fd.hasSibling(T.ToSelector(tokens))
  {
    ToSelectorStarts(tokens);
    assert Reads(tokens[0], ts[0]);
  }

  lemma UnshiftedIsRight(fd: S.Finder, env: Env, tokens: seq<T.Token>, ts: seq<Token>, context: Node, r: S.Selected,
                         rest: seq<T.Token>)
    requires env.Valid() && env.context == One(context) && env.tree.Has(context)
    requires |ts| > 0 && Reading(tokens, ts) && Browser(fd, env.tree) && AllFind(fd, env, tokens, ts)
    requires Pruned(fd, tokens, context, r, rest)
    ensures Right(env, ts, r, rest)
  {
    match r
    case Finished(found) =>
      var i :| S.Seeded(fd, tokens, context, i, rest, found) && (|found| == 0 || |T.ToSelector(rest)| == 0);
      FinishedIsRight(fd, env, tokens, ts, context, i, rest, found);
    case ToCompile(_, _, seed, _, outermost) =>
      if seed.Some? {
        var i :| S.Seeded(fd, tokens, context, i, rest, seed.value);
        SeededIsRight(fd, env, tokens, ts, context, i, rest, seed.value, outermost);
      } else {
        EverythingIsRight(fd, env, tokens, ts, context, outermost);
      }
  }

  lemma FinishedIsRight(fd: S.Finder, env: Env, tokens: seq<T.Token>, ts: seq<Token>, context: Node, i: nat,
                        rest: seq<T.Token>, found: seq<Node>)
    requires env.Valid() && env.context == One(context) && env.tree.Has(context)
    requires |ts| > 0 && Reading(tokens, ts) && Browser(fd, env.tree) && AllFind(fd, env, tokens, ts)
    requires S.Seeded(fd, tokens, context, i, rest, found) && (|found| == 0 || |T.ToSelector(rest)| == 0)
    ensures forall n :: env.tree.Has(n) ==> (n in found <==> Matches(env, ts, n))
  {
    if |rest| > 0 {
      ToSelectorStarts(rest);
      assert rest[0] == tokens[if i > 0 then 0 else 1];
      assert Reads(tokens[0], ts[0]) && Reads(tokens[1], ts[1]);
    }
    forall n | env.tree.Has(n) ensures n in found <==> Matches(env, ts, n) {
      SeedIsRight(fd, env, tokens, ts, context, i, n);
    }
  }

  lemma SeededIsRight(fd: S.Finder, env: Env, tokens: seq<T.Token>, ts: seq<Token>, context: Node, i: nat,
                      rest: seq<T.Token>, seed: seq<Node>, all: Node)
    requires env.Valid() && env.context == One(context) && env.tree.Has(context)
    requires |ts| > 0 && Reading(tokens, ts) && Browser(fd, env.tree) && AllFind(fd, env, tokens, ts)
    requires S.Seeded(fd, tokens, context, i, rest, seed) && |T.ToSelector(rest)| > 0
    ensures |ts| > 1 && Reading(rest, Less(ts, i)) && SameAnswers(env, ts, Less(ts, i), Some(seed), context, all)
  {
    assert |rest| > 0;
    forall k | 0 <= k < |rest| ensures Reads(rest[k], Less(ts, i)[k]) {
      var j := if k < i then k else k + 1;
      assert Reads(tokens[j], ts[j]);
    }
    forall n | env.tree.Has(n) ensures Matches(env, ts, n) <==> n in seed && Matches(env, Less(ts, i), n) {
      SeedIsRight(fd, env, tokens, ts, context, i, n);
    }
    assert env.(context := One(context)) == env;
  }

  lemma EverythingIsRight(fd: S.Finder, env: Env, tokens: seq<T.Token>, ts: seq<Token>, context: Node, all: Node)
    requires env.Valid() && env.context == One(context)
    requires |ts| > 0 && Reading(tokens, ts) && Browser(fd, env.tree)
    requires all == S.Expanded(fd, T.ToSelector(tokens), context)
    ensures SameAnswers(env, ts, ts, None, context, all)
  {
    if IsSibling(Lead(ts)) { SiblingInText(fd, env.tree, tokens, ts); }
    forall n | env.tree.Has(n) && Matches(env, ts, n) ensures env.tree.IsAncestor(all, n) {
      ExpandedIsWide(fd, env, ts, T.ToSelector(tokens), context, n);
    }
    assert env.(context := One(context)) == env;
  }

  lemma ShiftedReads(fd: S.Finder, env: Env, tokens: seq<T.Token>, ts: seq<Token>)
    requires env.Valid() && Reading(tokens, ts) && |ts| > 2 && AllFind(fd, env, tokens, ts)
    requires Browser(fd, env.tree) && fd.isRelative(tokens[1].typ)
    ensures Reading(tokens[1..], ts[1..]) && ts[1].Relation?
    ensures forall c :: AllFind(fd, env.(context := c), tokens[1..], ts[1..])
  {
    assert Reads(tokens[1], ts[1]);
    forall i | 0 <= i < |ts| - 1 ensures Reads(tokens[1..][i], ts[1..][i]) { assert Reads(tokens[i + 1], ts[i + 1]); }
    forall c, i | 0 <= i < |ts| - 1 && ts[1..][i].Simple?
      ensures Finds(fd, env.(context := c), tokens[1..][i], ts[1..][i].filter)
    {
      assert Finds(fd, env, tokens[i + 1], ts[i + 1].filter);
    }
  }

  lemma ShiftedIsRight(env: Env, ts: seq<Token>, context: Node, c: Node, r: S.Selected, rest: seq<T.Token>)
    requires env.Valid() && env.context == One(context) && ElementsInside(env.tree)
    requires |ts| > 2 && ts[0].Simple? && ts[1].Relation? && Identifies(env, ts[0].filter, context, c)
    requires Right(env.(context := One(c)), ts[1..], r, rest)
    ensures Right(env, ts, r, rest)
  {
    var there := env.(context := One(c));
    forall n | env.tree.Has(n) ensures Matches(env, ts, n) <==> Matches(there, ts[1..], n) {
      ShortcutIsRight(env, ts, context, c, n);
    }
    hide Matches;
    if r.ToCompile? {
      var us :| Reading(rest, us) && |us| > 0 && SameAnswers(there, ts[1..], us, r.seed, r.context, r.outermost);
      assert there.(context := One(r.context)) == env.(context := One(r.context));
      assert SameAnswers(env, ts, us, r.seed, r.context, r.outermost);
    }
  }

  lemma NarrowedPrunes(fd: S.Finder, tokens: seq<T.Token>, context: Node, r: S.Selected, rest: seq<T.Token>)
    requires S.Narrowed(fd, tokens, context, r, rest)
    ensures if S.Shortcut(fd, tokens, context).Missing? then r == S.Finished([])
            else Pruned(fd, S.Unshifted(fd, tokens, context).0, S.Unshifted(fd, tokens, context).1, r, rest)
  {
  }

  lemma NothingIsRight(env: Env, ts: seq<Token>, context: Node, rest: seq<T.Token>)
    requires env.Valid() && env.context == One(context) && |ts| > 0 && ts[0].Simple?
    requires forall m :: env.tree.Has(m) && env.tree.IsAncestor(context, m) ==> !env.holds(ts[0].filter, m)
    ensures Right(env, ts, S.Finished([]), rest)
  {
    if n :| env.tree.Has(n) && Matches(env, ts, n) { var x := FirstCompound(env, ts, context, n); }
  }

  /**
   Whatever `select` does with the only group of a selector: final results are the elements it selects, and what is
   handed on, matched against the seed set or else against everything below the widened context, selects the same.
   */
  lemma SelectIsRight(fd: S.Finder, env: Env, tokens: seq<T.Token>, ts: seq<Token>, context: Node, r: S.Selected,
                      rest: seq<T.Token>)
    requires env.Valid() && env.context == One(context) && env.tree.Has(context) && ElementsInside(env.tree)
    requires |ts| > 0 && Reading(tokens, ts) && Browser(fd, env.tree) && AllFind(fd, env, tokens, ts)
    requires ById(fd, env, tokens, ts, context) && S.Narrowed(fd, tokens, context, r, rest)
    ensures Right(env, ts, r, rest)
  {
    NarrowedPrunes(fd, tokens, context, r, rest);
    hide S.Narrowed, Pruned, Right;
    match S.Shortcut(fd, tokens, context)
    case NotApplicable => UnshiftedIsRight(fd, env, tokens, ts, context, r, rest);
    case Missing => NothingIsRight(env, ts, context, rest);
    case Found(c) =>
      ShiftedReads(fd, env, tokens, ts);
      UnshiftedIsRight(fd, env.(context := One(c)), tokens[1..], ts[1..], c, r, rest);
      ShiftedIsRight(env, ts, context, c, r, rest);
  }
}
