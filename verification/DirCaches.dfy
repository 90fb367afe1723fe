/**
 The closures as they run: the walks of `addCombinator` for ancestors and earlier siblings leave their answers
 on the nodes they pass. All nodes of one walk share the same mutable array `newCache`, later walks of other
 combinators overwrite the slots, and slots of earlier runs stay behind. A filter such as `:not` may run closures of
 its own while a walk is under way: nested runs change the run number, which stays changed until the next element, and
 overwrite slots as they like.
 */
module DirCaches {
  import opened Wrappers
  import opened DomTree
  import opened SelectorMatchers

  /** `newCache = [ dirruns, doneName ]`; `verdict` is its third entry, undefined (falsy) until it is assigned. */
  class Stamp {
    const run: nat
    const doneName: nat
    var verdict: bool

    constructor (run: nat, doneName: nat)
      ensures this.run == run && this.doneName == doneName && !verdict
    {
      this.run, this.doneName, verdict := run, doneName, false;
    }
  }

  /** Closure `m` may be run when walks named below `bound` can be trusted: names grow from the inside out. */
  ghost predicate Named(m: Matcher, bound: nat, compiled: map<nat, Matcher>) {
    match m
    case Foundation(_, one, any) => Named(one, bound, compiled) && Named(any, bound, compiled)
    case Walk(inner, _, _, doneName) =>
      doneName < bound && doneName in compiled && compiled[doneName] == m && Named(inner, doneName, compiled)
    case All(ms) => forall i :: 0 <= i < |ms| ==> Named(ms[i], bound, compiled)
    case _ => true
  }

  lemma {:induction false} NamedMonotone(m: Matcher, a: nat, b: nat, ca: map<nat, Matcher>, cb: map<nat, Matcher>)
    requires Named(m, a, ca) && a <= b
    requires forall d :: d in ca ==> d in cb && cb[d] == ca[d]
    ensures Named(m, b, cb)
    decreases m
  {
    match m
    case Foundation(_, one, any) => NamedMonotone(one, a, b, ca, cb); NamedMonotone(any, a, b, ca, cb);
    case Walk(inner, _, _, doneName) => NamedMonotone(inner, doneName, doneName, ca, cb);
    case All(ms) => forall i | 0 <= i < |ms| ensures Named(ms[i], b, cb) { NamedMonotone(ms[i], a, b, ca, cb); }
    case _ =>
  }

  /** The names of the walks in a closure. */
  ghost function NamesIn(m: Matcher): set<nat> {
    match m
    case Foundation(_, one, any) => NamesIn(one) + NamesIn(any)
    case Walk(inner, _, _, doneName) => {doneName} + NamesIn(inner)
    case All(ms) => set i, d | 0 <= i < |ms| && d in NamesIn(ms[i]) :: d
    case _ => {}
  }

  ghost function NamesOf(ms: seq<Matcher>): set<nat> { set i, d | 0 <= i < |ms| && d in NamesIn(ms[i]) :: d }

  lemma {:induction false} NamedWithin(m: Matcher, bound: nat, book: map<nat, Matcher>, some: map<nat, Matcher>)
    requires Named(m, bound, book)
    requires forall d :: d in NamesIn(m) && d in book ==> d in some && some[d] == book[d]
    ensures Named(m, bound, some)
    decreases m
  {
    match m
    case Foundation(_, one, any) => NamedWithin(one, bound, book, some); NamedWithin(any, bound, book, some);
    case Walk(inner, _, _, doneName) => NamedWithin(inner, doneName, book, some);
    case All(ms) =>
      forall i | 0 <= i < |ms| ensures Named(ms[i], bound, some) { NamedWithin(ms[i], bound, book, some); }
    case _ =>
  }

  ghost function Restricted(book: map<nat, Matcher>, names: set<nat>): map<nat, Matcher> {
    map d | d in book && d in names :: book[d]
  }

  lemma NamedOf(use: seq<Matcher>, bound: nat, book: map<nat, Matcher>)
    requires forall i :: 0 <= i < |use| ==> Named(use[i], bound, book)
    ensures forall i :: 0 <= i < |use| ==> Named(use[i], bound, Restricted(book, NamesOf(use)))
  {
    forall i | 0 <= i < |use| ensures Named(use[i], bound, Restricted(book, NamesOf(use))) {
      assert NamesIn(use[i]) <= NamesOf(use);
      NamedWithin(use[i], bound, book, Restricted(book, NamesOf(use)));
    }
  }

  lemma NamedElementMatcher(ms: seq<Matcher>, bound: nat, compiled: map<nat, Matcher>)
    requires |ms| > 0 && Named(All(ms), bound, compiled)
    ensures Named(ElementMatcher(ms), bound, compiled)
  {
  }

  lemma AnswersEverywhere(tokens: seq<Token>, done: nat)
    requires |tokens| > 0
    ensures var m := ElementMatcher(Compiled(Lead(tokens), Body(tokens), done));
            forall e: Env, n :: e.Valid() && e.tree.Has(n) ==> (Eval(m, e, n) <==> Answers(e, tokens, n))
  {
    forall e: Env, n | e.Valid() && e.tree.Has(n)
      ensures Eval(ElementMatcher(Compiled(Lead(tokens), Body(tokens), done)), e, n) <==> Answers(e, tokens, n)
    {
      CompilerAnswers(e, tokens, done, n);
    }
  }

  lemma WholeBody(tokens: seq<Token>)
    requires |tokens| > 0
    ensures tokens[if Lead(tokens).Some? then 1 else 0..|tokens|] == Body(tokens)
  {
  }

  /** What a nested run leaves on a node: an array of its own, under the name of one of its own walks. */
  datatype Write = Write(at: Node, dir: Dir, doneName: nat, verdict: bool)

  class Engine {
    var done: nat                          // names handed out to walks
    var dirruns: nat                       // the current run
    var dirrunsUnique: nat                 // the number the outermost run has drawn
    var drawn: nat                         // the last number drawn
    var env: Env
    var slots: map<(Node, Dir), Stamp>     // elem[ expando ][ dir ]
    var script: seq<seq<Write>>            // what filters run, call by call; nothing when it is used up
    ghost var book: map<nat, Matcher>      // the walk behind each name that `compile` has handed out
    ghost var compiled: map<nat, Matcher>  // those of the closures of the current run

    constructor (env: Env)
      requires env.Valid()
      ensures Sound(done) && fresh(this) && this.env == env
    {
      done, dirruns, dirrunsUnique, drawn, slots, script, book, compiled := 0, 0, 0, 0, map[], [], map[], map[];
      this.env := env;
    }

    /** Nested runs use other closures than the run they are nested in, compiled at any time. */
    ghost predicate Foreign(script: seq<seq<Write>>)
      reads `compiled, `done
    {
      forall i :: 0 <= i < |script| ==> ForeignRun(script[i])
    }

    ghost predicate ForeignRun(writes: seq<Write>)
      reads `compiled, `done
    {
      forall j :: 0 <= j < |writes| ==> writes[j].doneName < done && writes[j].doneName !in compiled
    }

    /** The names handed out. */
    ghost predicate Book()
      reads `env, `book, `compiled, `done, `script, `dirruns, `dirrunsUnique, `drawn
    {
      && env.Valid() && Foreign(script) && dirrunsUnique <= dirruns <= drawn
      && (forall d :: d in book ==> d < done && book[d].Walk? && book[d].doneName == d)
      && (forall d :: d in compiled ==> d in book && compiled[d] == book[d])
    }

    /**
     What every slot of the current run with a known name below `bound` says is true, unless it shares the array
     `open` of a walk that is still under way. The numbers from `dirrunsUnique` on belong to the current run.
     */
    ghost predicate SoundBut(bound: nat, open: Stamp?)
      reads this, set k | k in slots :: slots[k]
    {
      && Book()
      && forall k :: k in slots ==>
           var c := slots[k];
           && c.run <= drawn && c.doneName < done
           && (c != open && c.run >= dirrunsUnique && c.doneName < bound && c.doneName in compiled ==>
                 Truthful(env, compiled, k.0, k.1, c.doneName, c.verdict))
    }

    ghost predicate Sound(bound: nat)
      reads this, set k | k in slots :: slots[k]
    {
      SoundBut(bound, null)
    }

    static ghost predicate Truthful(env: Env, compiled: map<nat, Matcher>, n: Node, dir: Dir, name: nat, verdict: bool)
      requires env.Valid()
    {
      && env.tree.Has(n)
      && name in compiled
      && compiled[name].Walk?
      && dir == compiled[name].c.Dir()
      && (verdict <==> Here(compiled[name], env, n))
    }

    /** This node, or a later one along the axis, matches. */
    static ghost predicate Here(w: Matcher, env: Env, n: Node)
      requires env.Valid() && env.tree.Has(n) && w.Walk?
    {
      Eval(w.inner, env, n) || EvalWalk(w, env, n)
    }

    /**
     Numbers are drawn upwards. A slot changes only by receiving a new array with a name below `bound`, or one of a
     nested run.
     */
    twostate predicate Grown(bound: nat)
      reads `slots, `compiled, `drawn
    {
      && old(drawn) <= drawn
      && forall k :: k in slots ==>
           || (k in old(slots) && slots[k] == old(slots[k]))
           || (fresh(slots[k]) && (slots[k].doneName < bound || slots[k].doneName !in compiled))
    }

    /** A filter answers, and may have run closures of its own. */
    method AskFilter(f: nat, n: Node, ghost bound: nat) returns (b: bool)
      requires Sound(bound) && env.tree.Has(n)
      modifies this`slots, this`dirruns, this`drawn, this`script
      ensures b == env.holds(f, n)
      ensures Sound(bound) && Grown(bound)
    {
      if |script| > 0 {
        var writes := script[0];
        script := script[1..];
        NestedRun(writes, bound);
      }
      b := env.holds(f, n);
    }

    /** `dirruns += Math.random() || 0.1`: a new number, taken to be no one else's, and then the writes of the run. */
    method NestedRun(writes: seq<Write>, ghost bound: nat)
      requires Sound(bound) && ForeignRun(writes)
      modifies this`slots, this`dirruns, this`drawn
      ensures Sound(bound) && Grown(bound)
    {
      dirruns, drawn := drawn + 1, drawn + 1;
      for i := 0 to |writes|
        invariant Sound(bound) && Grown(bound)
      {
        WriteSlot(writes[i], bound);
      }
    }

    method WriteSlot(w: Write, ghost bound: nat)
      requires Sound(bound) && w.doneName < done && w.doneName !in compiled
      modifies this`slots
      ensures Sound(bound) && Grown(bound)
    {
      var newCache := new Stamp(dirruns, w.doneName);
      newCache.verdict := w.verdict;
      slots := slots[(w.at, w.dir) := newCache];
    }

    /** Runs the closure `m` on `n`. */
    method Run(m: Matcher, n: Node, ghost bound: nat) returns (b: bool)
      requires Sound(bound) && bound <= done && Named(m, bound, compiled) && env.tree.Has(n)
      modifies this`slots, this`dirruns, this`drawn, this`script
      ensures b <==> Eval(m, env, n)
      ensures Sound(bound) && Grown(bound)
      decreases m, 1
    {
      match m
      case IsContext => b := env.context.One? && n == env.context.node;
      case InContexts => b := env.context.Many? && n in env.context.nodes;
      case Filter(f) => b := AskFilter(f, n, bound);
      case Foundation(leading, one, any) =>
        if !leading && (env.xml || !env.outermost) {
          b := true;
        } else if env.context.One? {
          b := Run(one, n, bound);
        } else {
          b := Run(any, n, bound);
        }
      case All(ms) => b := RunAll(m, n, bound);
      case Walk(_, c, _, _) =>
        if c.First() || env.xml {
          b := RunPlainWalk(m, n, bound);
        } else {
          b := RunCachedWalk(m, n, bound);
        }
    }

    /** `elementMatcher`: from the last matcher to the first. */
    method RunAll(m: Matcher, n: Node, ghost bound: nat) returns (b: bool)
      requires m.All?
      requires Sound(bound) && bound <= done && Named(m, bound, compiled) && env.tree.Has(n)
      modifies this`slots, this`dirruns, this`drawn, this`script
      ensures b <==> Eval(m, env, n)
      ensures Sound(bound) && Grown(bound)
      decreases m, 0
    {
      var i := |m.ms|;
      while i > 0
        invariant 0 <= i <= |m.ms|
        invariant Sound(bound) && Grown(bound)
        invariant forall j :: i <= j < |m.ms| ==> Eval(m.ms[j], env, n)
      {
        i := i - 1;
        var hit := Run(m.ms[i], n, bound);
        if !hit { return false; }
      }
      return true;
    }

    /** The inner closure of a walk that leaves nothing on the nodes. */
    method AskInner(w: Matcher, n: Node, ghost bound: nat) returns (b: bool)
      requires w.Walk?
      requires Sound(bound) && bound <= done && Named(w, bound, compiled) && env.tree.Has(n)
      modifies this`slots, this`dirruns, this`drawn, this`script
      ensures b <==> Eval(w.inner, env, n)
      ensures Sound(bound) && Grown(bound)
      decreases w, 0, 0
    {
      NamedMonotone(w.inner, w.doneName, bound, compiled, compiled);
      b := Run(w.inner, n, bound);
    }

    /** The walks without cache: the closest node only, and the xml branch. */
    method RunPlainWalk(w: Matcher, n: Node, ghost bound: nat) returns (b: bool)
      requires w.Walk?
      requires Sound(bound) && bound <= done && Named(w, bound, compiled) && env.tree.Has(n)
      modifies this`slots, this`dirruns, this`drawn, this`script
      ensures b <==> EvalWalk(w, env, n)
      ensures Sound(bound) && Grown(bound)
      decreases w, 0, 1
    {
      var dir, cur := w.c.Dir(), n;
      while true
        invariant Sound(bound) && Grown(bound) && env.tree.Has(cur)
        invariant EvalWalk(w, env, n) <==> EvalWalk(w, env, cur)
        decreases env.tree.Left(dir, cur)
      {
        var next := env.tree.Step(dir, cur);
        if next.None? { return false; }
        if w.Visits(env.tree, next.value) {
          var hit := AskInner(w, next.value, bound);
          if hit || w.c.First() { return hit; }
        }
        cur := next.value;
      }
    }

    /** The walk to all ancestors or all earlier siblings, with its answers kept on the nodes. */
    method RunCachedWalk(w: Matcher, n: Node, ghost bound: nat) returns (b: bool)
      requires w.Walk? && !w.c.First()
      requires Sound(bound) && bound <= done && Named(w, bound, compiled) && env.tree.Has(n)
      modifies this`slots, this`dirruns, this`drawn, this`script
      ensures b <==> EvalWalk(w, env, n)
      ensures Sound(bound) && Grown(bound)
      decreases w, 0
    {
      var newCache := new Stamp(dirruns, w.doneName);
      b := Climb(w, n, newCache, bound);
    }

    /** The loop of the caching walk. */
    method Climb(w: Matcher, n: Node, newCache: Stamp, ghost bound: nat) returns (b: bool)
      requires env.Valid() && env.tree.Has(n) && w.Walk?
      requires UnderWay(w, newCache, EvalWalk(w, env, n), env.tree.Left(w.c.Dir(), n), bound)
      modifies this`slots, this`dirruns, this`drawn, this`script, newCache
      ensures b <==> EvalWalk(w, env, n)
      ensures Sound(bound) && Changed(bound, newCache)
      decreases w, 0, 3
    {
      var dir, cur := w.c.Dir(), n;
      b := false;
      while true
        invariant env.tree.Has(cur) && (EvalWalk(w, env, n) <==> EvalWalk(w, env, cur))
        invariant Changed(bound, newCache)
        invariant UnderWay(w, newCache, EvalWalk(w, env, n), env.tree.Left(dir, cur), bound)
        decreases env.tree.Left(dir, cur)
      {
        var next := env.tree.Step(dir, cur);
        if next.None? { break; }
        if w.Visits(env.tree, next.value) {
          var settled := VisitNode(w, next.value, newCache, EvalWalk(w, env, n), bound);
          if settled { return newCache.verdict; }
        }
        cur := next.value;
      }
      Settle(w, newCache, EvalWalk(w, env, n), bound);
    }

    /** The walk `w` has passed some nodes without success; `newCache` sits on them. */
    ghost predicate UnderWay(w: Matcher, newCache: Stamp, answer: bool, lowest: nat, bound: nat)
      reads this, newCache, set k | k in slots :: slots[k]
    {
      && w.Walk? && !w.c.First() && bound <= done && Named(w, bound, compiled)
      && dirrunsUnique <= newCache.run <= drawn && newCache.doneName == w.doneName && !newCache.verdict
      && SoundBut(bound, newCache)
      && Trail(w, newCache, answer, lowest)
    }

    /** The body of the caching loop: believe the node's slot, or put the shared array there and ask. */
    method VisitNode(w: Matcher, elem: Node, newCache: Stamp, ghost answer: bool, ghost bound: nat)
      returns (settled: bool)
      requires w.Walk? && env.Valid() && env.tree.Has(elem)
      requires UnderWay(w, newCache, answer, env.tree.Left(w.c.Dir(), elem) + 1, bound)
      requires answer <==> Here(w, env, elem)
      modifies this`slots, this`dirruns, this`drawn, this`script, newCache
      ensures Changed(bound, newCache)
      ensures settled ==> Sound(bound) && newCache.verdict == answer
      ensures !settled ==>
                && UnderWay(w, newCache, answer, env.tree.Left(w.c.Dir(), elem), bound)
                && (answer <==> EvalWalk(w, env, elem))
      decreases w, 0, 2
    {
      var key := (elem, w.c.Dir());
      if key in slots && slots[key].run == dirruns && slots[key].doneName == w.doneName {
        var oldCache := slots[key];
        newCache.verdict := oldCache.verdict;
        settled := true;
      } else {
        settled := AskNode(w, elem, newCache, answer, bound);
      }
      if settled { Settle(w, newCache, answer, bound); }
    }

    /** The node receives the shared array before the inner closure is asked about it. */
    method AskNode(w: Matcher, elem: Node, newCache: Stamp, ghost answer: bool, ghost bound: nat)
      returns (hit: bool)
      requires w.Walk? && env.Valid() && env.tree.Has(elem)
      requires UnderWay(w, newCache, answer, env.tree.Left(w.c.Dir(), elem) + 1, bound)
      requires answer <==> Here(w, env, elem)
      modifies this`slots, this`dirruns, this`drawn, this`script, newCache
      ensures Changed(bound, newCache)
      ensures newCache.verdict == hit && (hit <==> Eval(w.inner, env, elem))
      ensures SoundBut(bound, newCache)
      ensures Trail(w, newCache, answer, env.tree.Left(w.c.Dir(), elem))
      decreases w, 0, 1
    {
      Mark(w, elem, newCache, answer, bound);
      SoundBelow(w, newCache, bound);
      hit := Ask(w, elem, newCache, answer, env.tree.Left(w.c.Dir(), elem), bound);
    }

    /** The inner closure writes slots of its own, over those of this walk too. */
    method Ask(w: Matcher, elem: Node, newCache: Stamp, ghost answer: bool, ghost lowest: nat, ghost bound: nat)
      returns (hit: bool)
      requires w.Walk? && env.Valid() && env.tree.Has(elem)
      requires UnderWay(w, newCache, answer, lowest, bound) && Sound(w.doneName)
      modifies this`slots, this`dirruns, this`drawn, this`script, newCache
      ensures Changed(w.doneName, newCache)
      ensures newCache.verdict == hit && (hit <==> Eval(w.inner, env, elem))
      ensures SoundBut(bound, newCache)
      ensures Trail(w, newCache, answer, lowest)
      decreases w, 0, 0
    {
      hit := Run(w.inner, elem, w.doneName);
      newCache.verdict := hit;
    }

    method Mark(w: Matcher, elem: Node, newCache: Stamp, ghost answer: bool, ghost bound: nat)
      requires w.Walk? && env.Valid() && env.tree.Has(elem)
      requires UnderWay(w, newCache, answer, env.tree.Left(w.c.Dir(), elem) + 1, bound)
      requires answer <==> Here(w, env, elem)
      modifies this`slots
      ensures slots == old(slots)[(elem, w.c.Dir()) := newCache]
      ensures UnderWay(w, newCache, answer, env.tree.Left(w.c.Dir(), elem), bound)
    {
      slots := slots[(elem, w.c.Dir()) := newCache];
    }

    /** The walks inside `w` have smaller names, so the array under way does not concern them. */
    lemma SoundBelow(w: Matcher, newCache: Stamp, bound: nat)
      requires w.Walk? && SoundBut(bound, newCache) && newCache.doneName == w.doneName && w.doneName < bound
      ensures Sound(w.doneName)
    {
    }

    twostate predicate Changed(bound: nat, newCache: Stamp)
      reads `slots, `compiled, `drawn
    {
      && old(drawn) <= drawn
      && forall k :: k in slots ==>
        || (k in old(slots) && slots[k] == old(slots[k]))
        || slots[k] == newCache
        || (fresh(slots[k]) && (slots[k].doneName < bound || slots[k].doneName !in compiled))
    }

    /** Once the shared array holds the answer, every slot is right again. */
    lemma Settle(w: Matcher, newCache: Stamp, answer: bool, bound: nat)
      requires w.Walk? && SoundBut(bound, newCache) && Trail(w, newCache, answer, 0)
      requires newCache.verdict == answer && newCache.doneName == w.doneName
      requires w.doneName in compiled && compiled[w.doneName] == w
      ensures Sound(bound)
    {
    }

    /** The nodes passed so far hold `newCache`, and one answer is right for all of them. */
    ghost predicate Trail(w: Matcher, newCache: Stamp, answer: bool, lowest: nat)
      requires w.Walk? && env.Valid()
      reads this
    {
      forall k :: k in slots && slots[k] == newCache ==>
        && k.1 == w.c.Dir() && env.tree.Has(k.0)
        && env.tree.Left(w.c.Dir(), k.0) >= lowest
        && (Here(w, env, k.0) <==> answer)
    }

    /** `matcherFromTokens` for a token list without positional filters. */
    method MatcherFromTokens(tokens: seq<Token>) returns (m: Matcher)
      requires Sound(done) && |tokens| > 0
      modifies this`done, this`book
      ensures m == ElementMatcher(Compiled(Lead(tokens), Body(tokens), old(done)))
      ensures Sound(done) && Named(m, done, book) && done >= old(done)
      ensures KeptNames()
    {
      var lead := Lead(tokens);
      var foundation := MakeFoundation(lead);
      var matchers := AddTokens([foundation], tokens, lead, old(done));
      WholeBody(tokens);
      NamedElementMatcher(matchers, done, book);
      m := ElementMatcher(matchers);
    }

    /** The loop of `matcherFromTokens`, which starts behind a leading combinator. */
    method AddTokens(first: seq<Matcher>, tokens: seq<Token>, lead: Option<Combinator>, ghost name: nat)
      returns (matchers: seq<Matcher>)
      requires Sound(done) && |tokens| > 0 && lead == Lead(tokens)
      requires first == Compiled(lead, [], name) && done == name + 2 && Named(All(first), done, book)
      modifies this`done, this`book
      ensures matchers == Compiled(lead, tokens[if lead.Some? then 1 else 0..|tokens|], name)
      ensures Sound(done) && Named(All(matchers), done, book) && KeptNames() && done >= old(done)
    {
      var i := if lead.Some? then 1 else 0;
      ghost var start, seen := i, [];
      matchers := first;
      while i < |tokens|
        invariant start <= i <= |tokens| && seen == tokens[start..i]
        invariant matchers == Compiled(lead, seen, name) && done == name + 2 + Relations(seen)
        invariant Sound(done) && Named(All(matchers), done, book) && KeptNames()
      {
        SliceSnoc(tokens, start, i);
        matchers := NextToken(matchers, tokens[i], lead, seen, name);
        seen, i := tokens[start..i + 1], i + 1;
      }
    }

    method NextToken(matchers: seq<Matcher>, token: Token,
        ghost lead: Option<Combinator>, ghost seen: seq<Token>, ghost name: nat) returns (ms: seq<Matcher>)
      requires Sound(done) && matchers == Compiled(lead, seen, name) && done == name + 2 + Relations(seen)
      requires Named(All(matchers), done, book)
      modifies this`done, this`book
      ensures ms == Compiled(lead, seen + [token], name) && done == name + 2 + Relations(seen + [token])
      ensures Sound(done) && Named(All(ms), done, book) && KeptNames() && done >= old(done)
    {
      CompiledStep(lead, seen, token, name);
      ms := AddToken(matchers, token);
    }

    /** The first closure tests that the element is reachable from the context. */
    method MakeFoundation(lead: Option<Combinator>) returns (m: Matcher)
      requires Sound(done)
      modifies this`done, this`book
      ensures m == FoundationOf(lead, old(done)) && done == old(done) + 2
      ensures Sound(done) && Named(m, done, book) && KeptNames()
    {
      var implicit := if lead.Some? then lead.value else Descendant;
      var matchContext := AddCombinator(IsContext, implicit, true);
      ghost var before := book;
      var matchAnyContext := AddCombinator(InContexts, implicit, true);
      NamedMonotone(matchContext, done - 1, done, before, book);
      m := Foundation(lead.Some?, matchContext, matchAnyContext);
    }

    twostate predicate KeptNames()
      reads `book
    {
      forall d :: d in old(book) ==> d in book && book[d] == old(book[d])
    }

    /** The loop body of `matcherFromTokens`. */
    method AddToken(matchers: seq<Matcher>, token: Token) returns (ms: seq<Matcher>)
      requires |matchers| > 0 && Sound(done) && Named(All(matchers), done, book)
      modifies this`done, this`book
      ensures ms == WithToken(matchers, token, old(done))
      ensures done == old(done) + if token.Relation? then 1 else 0
      ensures Sound(done) && Named(All(ms), done, book)
      ensures KeptNames()
    {
      match token
      case Relation(c) =>
        var w := AddCombinator(ElementMatcher(matchers), c, false);
        ms := [w];
      case Simple(f) =>
        ms := matchers + [Filter(f)];
    }

    /** `addCombinator`: the new walk takes the next name. */
    method AddCombinator(inner: Matcher, c: Combinator, base: bool) returns (w: Matcher)
      requires Sound(done) && Named(inner, done, book)
      modifies this`done, this`book
      ensures w == Walk(inner, c, base, old(done)) && done == old(done) + 1
      ensures Sound(done) && Named(w, done, book)
      ensures book == old(book)[old(done) := w]
    {
      w := Walk(inner, c, base, done);
      NamedMonotone(inner, done, done, book, book[done := w]);
      book := book[done := w];
      done := done + 1;
    }

    /**
     A new run of `superMatcher` with closures compiled at any time, over whatever document and context it is given. Old
     slots stay where they are.
     */
    method NewRun(env: Env, script: seq<seq<Write>>, ghost use: seq<Matcher>)
      requires Sound(done) && env.Valid()
      requires forall i :: 0 <= i < |use| ==> Named(use[i], done, book)
      requires OthersOnly(script, use)
      modifies this`dirruns, this`dirrunsUnique, this`drawn, this`env, this`script, this`compiled
      ensures Sound(done) && this.env == env && this.script == script && dirruns == dirrunsUnique == old(drawn) + 1
      ensures forall i :: 0 <= i < |use| ==> Named(use[i], done, compiled)
    {
      drawn := drawn + 1;
      dirruns, dirrunsUnique := drawn, drawn;
      this.env, this.script := env, script;
      compiled := Restricted(book, NamesOf(use));
      NamedOf(use, done, book);
    }

    /** The nested runs that filters start do not use these closures. */
    ghost predicate OthersOnly(script: seq<seq<Write>>, use: seq<Matcher>)
      reads `done
    {
      forall i, j :: 0 <= i < |script| && 0 <= j < |script[i]| ==>
        script[i][j].doneName < done && script[i][j].doneName !in NamesOf(use)
    }

    /** `compile`: one closure per group of the selector, the last group first. */
    method Compile(groups: seq<seq<Token>>) returns (elementMatchers: seq<Matcher>)
      requires Sound(done) && forall i :: 0 <= i < |groups| ==> |groups[i]| > 0
      modifies this`done, this`book
      ensures Sound(done) && |elementMatchers| == |groups|
      ensures forall i :: 0 <= i < |groups| ==> Means(elementMatchers[i], groups[|groups| - 1 - i], book)
    {
      elementMatchers := [];
      var i := |groups|;
      while i > 0
        invariant 0 <= i <= |groups| && |elementMatchers| == |groups| - i
        invariant Sound(done)
        invariant forall j :: 0 <= j < |elementMatchers| ==> Means(elementMatchers[j], groups[|groups| - 1 - j], book)
      {
        i := i - 1;
        label before:
        var cached := CompileGroup(groups[i]);
        forall j | 0 <= j < |elementMatchers| ensures Means(elementMatchers[j], groups[|groups| - 1 - j], book) {
          NamedMonotone(elementMatchers[j], old@before(done), done, old@before(book), book);
        }
        elementMatchers := elementMatchers + [cached];
      }
    }

    method CompileGroup(tokens: seq<Token>) returns (m: Matcher)
      requires Sound(done) && |tokens| > 0
      modifies this`done, this`book
      ensures Sound(done) && Means(m, tokens, book) && KeptNames() && done >= old(done)
    {
      m := MatcherFromTokens(tokens);
      AnswersEverywhere(tokens, old(done));
    }

    /** The closure can be run, and answers as the selector says. */
    ghost predicate Means(m: Matcher, tokens: seq<Token>, names: map<nat, Matcher>)
      requires |tokens| > 0
      reads `done
    {
      && Named(m, done, names)
      && forall e: Env, n :: e.Valid() && e.tree.Has(n) ==> (Eval(m, e, n) <==> Answers(e, tokens, n))
    }

    /** There is a closure of this run for every group. */
    ghost predicate Ready(groups: seq<seq<Token>>, elementMatchers: seq<Matcher>)
      reads `compiled, `done
    {
      && |elementMatchers| == |groups| && (forall i :: 0 <= i < |groups| ==> |groups[i]| > 0)
      && forall i :: 0 <= i < |groups| ==> Means(elementMatchers[i], groups[|groups| - 1 - i], compiled)
    }

    /** All queries of one run: exactly the elements that some group selects, in the order given. */
    method MatchAll(groups: seq<seq<Token>>, elementMatchers: seq<Matcher>, elems: seq<Node>, outermost: bool)
      returns (hits: seq<Node>)
      requires Sound(done) && Ready(groups, elementMatchers)
      requires forall i :: 0 <= i < |elems| ==> env.tree.Has(elems[i])
      modifies this`slots, this`dirruns, this`drawn, this`script
      ensures Sound(done)
      ensures hits == Selected(env, groups, elems)
    {
      hits := [];
      for i := 0 to |elems|
        invariant Sound(done)
        invariant hits == Selected(env, groups, elems[..i])
      {
        assert elems[..i + 1][..i] == elems[..i];
        var hit := MatchAny(groups, elementMatchers, elems[i]);
        if outermost { Restore(); }
        if hit { hits := hits + [elems[i]]; }
      }
      assert elems[..|elems|] == elems;
    }

    /** The `j`-th closure, which was compiled from the `j`-th group from the end. */
    method AskGroup(groups: seq<seq<Token>>, elementMatchers: seq<Matcher>, j: nat, elem: Node) returns (hit: bool)
      requires Sound(done) && Ready(groups, elementMatchers) && j < |elementMatchers| && env.tree.Has(elem)
      modifies this`slots, this`dirruns, this`drawn, this`script
      ensures Sound(done) && (hit <==> Answers(env, groups[|groups| - 1 - j], elem))
    {
      assert Means(elementMatchers[j], groups[|groups| - 1 - j], compiled);
      hit := Run(elementMatchers[j], elem, done);
    }

    /** `dirruns = dirrunsUnique` */
    method Restore()
      requires Sound(done)
      modifies this`dirruns
      ensures Sound(done) && dirruns == dirrunsUnique
    {
      dirruns := dirrunsUnique;
    }

    /** The inner loop of `superMatcher`: the closures are asked until one says yes. */
    method MatchAny(groups: seq<seq<Token>>, elementMatchers: seq<Matcher>, elem: Node) returns (hit: bool)
      requires Sound(done) && Ready(groups, elementMatchers) && env.tree.Has(elem)
      modifies this`slots, this`dirruns, this`drawn, this`script
      ensures Sound(done)
      ensures hit <==> SelectedBy(env, groups, elem)
    {
      hit := false;
      var j := 0;
      assert env.Valid() && |elementMatchers| == |groups| && forall i :: 0 <= i < |groups| ==> |groups[i]| > 0;
      hide Ready, Answers, Sound;
      while j < |elementMatchers|
        invariant 0 <= j <= |groups| && Sound(done)
        invariant forall i :: |groups| - j <= i < |groups| ==> !Answers(env, groups[i], elem)
      {
        hit := AskGroup(groups, elementMatchers, j, elem);
        if hit { return; }
        j := j + 1;
      }
    }
  }

  /** Some group of the selector selects `n`. */
  ghost predicate SelectedBy(env: Env, groups: seq<seq<Token>>, n: Node)
    requires env.Valid() && env.tree.Has(n) && forall i :: 0 <= i < |groups| ==> |groups[i]| > 0
  {
    exists i :: 0 <= i < |groups| && Answers(env, groups[i], n)
  }

  /** In an outermost run over HTML, in a context that is not the document, that is what the selector means. */
  lemma SelectedStrictly(env: Env, groups: seq<seq<Token>>, n: Node)
    requires env.Valid() && env.tree.Has(n) && forall i :: 0 <= i < |groups| ==> |groups[i]| > 0
    requires env.outermost && !env.xml
    ensures SelectedBy(env, groups, n) <==> exists i :: 0 <= i < |groups| && Matches(env, groups[i], n)
  {
    if i :| 0 <= i < |groups| && Answers(env, groups[i], n) { assert Matches(env, groups[i], n); }
    if i :| 0 <= i < |groups| && Matches(env, groups[i], n) { assert Answers(env, groups[i], n); }
  }

  /** The elements among `elems` that some group of the selector selects. */
  ghost function Selected(env: Env, groups: seq<seq<Token>>, elems: seq<Node>): seq<Node>
    requires env.Valid() && forall i :: 0 <= i < |groups| ==> |groups[i]| > 0
    requires forall i :: 0 <= i < |elems| ==> env.tree.Has(elems[i])
  {
    if |elems| == 0 then []
    else
      var n := elems[|elems| - 1];
      Selected(env, groups, elems[..|elems| - 1]) + if SelectedBy(env, groups, n) then [n] else []
  }
}
