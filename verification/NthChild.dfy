/**
 `Expr.filter.CHILD`: `:first-child`, `:nth-last-of-type(2n+1)` and so on. The rank of an element among its
 siblings is found by walking the sibling links; for `:nth-child` and `:nth-last-child` the walk is resumed from,
 or replaced by, what earlier queries of the same run left on the parent or on the element.
 */
module NthChild {
  import opened Wrappers
  import opened DomTree

  // ---------------------------------------------------------------- what the filter means

  /** A sibling counts when it is an element, or for `of-type` when it has the given name. */
  predicate Counts(t: Tree, ofType: bool, name: string, n: Node) {
    n in t.kind && n in t.name && (if ofType then t.name[n] == name else t.kind[n] == Element)
  }

  function CountIn(t: Tree, ofType: bool, name: string, s: seq<Node>): nat {
    if |s| == 0 then 0
    else CountIn(t, ofType, name, s[..|s| - 1]) + if Counts(t, ofType, name, s[|s| - 1]) then 1 else 0
  }

  /** The siblings from the chosen end up to and including `n`. */
  function UpTo(t: Tree, forward: bool, n: Node): seq<Node>
    requires t.Valid() && n in t.parent
  {
    assert t.HangsRight(n);
    var s := t.kids[t.parent[n]];
    if forward then s[..t.index[n] + 1] else s[t.index[n]..]
  }

  /** The 1-based rank of `n` from the chosen end; 0 for a node that does not count itself. */
  function Rank(t: Tree, forward: bool, ofType: bool, n: Node): nat
    requires t.Valid() && n in t.parent
  {
    if Counts(t, ofType, t.name[n], n) then CountIn(t, ofType, t.name[n], UpTo(t, forward, n)) else 0
  }

  /** Section 6.6.5.2 of Selectors Level 3: a*n + b, for some n >= 0. */
  ghost predicate InProgression(a: int, b: int, rank: int) {
    exists n: nat :: a * n + b == rank
  }

  // ---------------------------------------------------------------- the arithmetic test

  /** The remainder operator of the source language, which takes the sign of the dividend. */
  function Remainder(x: int, y: int): int
    requires y != 0
  {
    var ay := if y < 0 then -y else y;
    if x >= 0 then x % ay else -((-x) % ay)
  }

  /** `diff === first || ( diff % first === 0 && diff / first >= 0 )`, where `% 0` is not a number. */
  predicate Accepts(first: int, diff: int) {
    diff == first || (first != 0 && Remainder(diff, first) == 0 && (diff == 0 || (diff > 0) == (first > 0)))
  }

  lemma Multiples(y: int, k: int)
    requires y > 0
    ensures k == 0 || y * k >= y || y * k <= -y
  {
    if k >= 1 { assert y * k >= y * 1; } else if k <= -1 { assert y * k <= y * (-1); }
  }

  lemma MultipleOf(x: nat, y: nat)
    requires y > 0
    ensures x % y == 0 <==> exists n: nat :: y * n == x
  {
    var q := x / y;
    assert x == y * q + x % y;
    if x % y == 0 { assert y * q == x; }
    if n: nat :| y * n == x {
      assert y * (n - q) == y * n - y * q;
      Multiples(y, n - q);
    }
  }

  function Abs(x: int): nat { if x < 0 then -x else x }

  /** A multiple by a natural number has the sign of its factor. */
  lemma SignedMultiple(a: int, n: nat, d: int)
    requires a != 0
    ensures a * n == d <==> Abs(a) * n == Abs(d) && (d == 0 || (d > 0) == (a > 0))
  {
    if a > 0 { assert a * n >= 0; } else { assert -a * n == -(a * n) && -a * n >= 0; }
  }

  lemma AcceptsExactly(a: int, b: int, rank: int)
    ensures Accepts(a, rank - b) <==> InProgression(a, b, rank)
  {
    var d := rank - b;
    if Accepts(a, d) {
      if d == a {
        assert a * 1 + b == rank;
      } else {
        MultipleOf(Abs(d), Abs(a));
        var n: nat :| Abs(a) * n == Abs(d);
        SignedMultiple(a, n, d);
        assert a * n + b == rank;
      }
    }
    if n: nat :| a * n + b == rank {
      if a != 0 {
        SignedMultiple(a, n, d);
        MultipleOf(Abs(d), Abs(a));
      }
    }
  }

  // ---------------------------------------------------------------- counting lemmas

  lemma {:induction false} CountAppend(t: Tree, ofType: bool, name: string, a: seq<Node>, b: seq<Node>)
    ensures CountIn(t, ofType, name, a + b) == CountIn(t, ofType, name, a) + CountIn(t, ofType, name, b)
    decreases |b|
  {
    if |b| == 0 {
      assert a + b == a;
    } else {
      assert (a + b)[..|a + b| - 1] == a + b[..|b| - 1];
      CountAppend(t, ofType, name, a, b[..|b| - 1]);
    }
  }

  lemma CountPrefixStep(t: Tree, ofType: bool, name: string, s: seq<Node>, i: nat)
    requires i < |s|
    ensures CountIn(t, ofType, name, s[..i + 1])
         == CountIn(t, ofType, name, s[..i]) + if Counts(t, ofType, name, s[i]) then 1 else 0
  {
    assert s[..i + 1][..i] == s[..i];
  }

  lemma CountSuffixStep(t: Tree, ofType: bool, name: string, s: seq<Node>, i: nat)
    requires i < |s|
    ensures CountIn(t, ofType, name, s[i..])
         == CountIn(t, ofType, name, s[i + 1..]) + if Counts(t, ofType, name, s[i]) then 1 else 0
  {
    assert s[i..] == [s[i]] + s[i + 1..];
    CountAppend(t, ofType, name, [s[i]], s[i + 1..]);
    assert CountIn(t, ofType, name, [s[i]]) == if Counts(t, ofType, name, s[i]) then 1 else 0 by {
      assert [s[i]][..0] == [];
    }
  }

  // ---------------------------------------------------------------- the rank is a number of siblings

  /** The siblings between the chosen end and `n`, both included, that are elements, or have the name of `n`. */
  ghost function UpToSet(t: Tree, forward: bool, ofType: bool, n: Node): set<Node>
    requires t.Valid() && n in t.parent && n in t.name
  {
    set m | m in t.parent && t.parent[m] == t.parent[n] && m in t.index && m in t.name && m in t.kind
            && (if forward then t.index[m] <= t.index[n] else t.index[n] <= t.index[m])
            && (if ofType then t.name[m] == t.name[n] else t.IsElement(m))
  }

  lemma {:induction false} CountIsSize(t: Tree, ofType: bool, name: string, s: seq<Node>, all: set<Node>)
    requires forall i, j :: 0 <= i < j < |s| ==> s[i] != s[j]
    requires forall m :: m in all <==> m in s && Counts(t, ofType, name, m)
    ensures CountIn(t, ofType, name, s) == |all|
    decreases |s|
  {
    if |s| == 0 {
      assert all == {};
    } else {
      var last := s[|s| - 1];
      assert forall m :: m in s <==> m in s[..|s| - 1] || m == last;
      CountIsSize(t, ofType, name, s[..|s| - 1], all - {last});
      if Counts(t, ofType, name, last) { assert |all| == |all - {last}| + 1; } else { assert all - {last} == all; }
    }
  }

  /** The rank of an element is the number of its siblings, itself included, that count on that side. */
  lemma RankMeans(t: Tree, forward: bool, ofType: bool, n: Node)
    requires t.Valid() && n in t.parent
    ensures n in t.name && n in t.kind
    ensures Rank(t, forward, ofType, n) == if ofType || t.IsElement(n) then |UpToSet(t, forward, ofType, n)| else 0
  {
    assert t.HangsRight(n);
    var p := t.parent[n];
    var s := UpTo(t, forward, n);
    assert forall i :: 0 <= i < |t.kids[p]| ==> t.IsKid(t.kids[p][i], p, i);
    forall m ensures m in UpToSet(t, forward, ofType, n) <==> m in s && Counts(t, ofType, t.name[n], m) {
      if m in t.parent && t.parent[m] == p {
        assert t.HangsRight(m);
        if m in UpToSet(t, forward, ofType, n) {
          assert s[if forward then t.index[m] else t.index[m] - t.index[n]] == m;
        }
      }
    }
    CountIsSize(t, ofType, t.name[n], s, UpToSet(t, forward, ofType, n));
  }

  // ---------------------------------------------------------------- walking towards `elem`

  /** The walk from the chosen end has reached or gone past `elem`. */
  ghost predicate Passed(t: Tree, forward: bool, elem: Node, node: Node)
    requires t.Valid() && elem in t.parent && node in t.parent
  {
    if forward then t.index[elem] <= t.index[node] else t.index[node] <= t.index[elem]
  }

  ghost function StepsLeft(t: Tree, forward: bool, node: Node): nat
    requires t.Valid() && node in t.parent
  {
    assert t.HangsRight(node);
    if forward then |t.kids[t.parent[node]]| - t.index[node] else t.index[node]
  }

  /** `node` is a sibling of `elem`, and `diff` counts up to it. */
  ghost predicate OnTheWay(t: Tree, forward: bool, ofType: bool, elem: Node, node: Node, diff: nat)
    requires t.Valid() && elem in t.parent
  {
    && node in t.parent && t.parent[node] == t.parent[elem]
    && diff == CountIn(t, ofType, t.name[elem], UpTo(t, forward, node))
  }

  /** One sibling step: no sibling is skipped. */
  lemma Onward(t: Tree, forward: bool, elem: Node, node: Node)
    requires t.Valid() && elem in t.parent && node in t.parent && t.parent[node] == t.parent[elem]
    ensures match (if forward then t.Next(node) else t.Previous(node))
            case None => Passed(t, forward, elem, node)
            case Some(m) =>
              && m in t.parent && t.parent[m] == t.parent[elem]
              && StepsLeft(t, forward, m) < StepsLeft(t, forward, node)
              && t.index[m] == (if forward then t.index[node] + 1 else t.index[node] - 1)
              && (Passed(t, forward, elem, m) <==> Passed(t, forward, elem, node) || m == elem)
  {
    assert t.HangsRight(elem) && t.HangsRight(node);
  }

  lemma Onset(t: Tree, forward: bool, elem: Node)
    requires t.Valid() && elem in t.parent
    ensures var kids := t.kids[t.parent[elem]];
            && |kids| > 0
            && var m := kids[if forward then 0 else |kids| - 1];
            && m in t.parent && t.parent[m] == t.parent[elem]
            && (if forward then t.Previous(m) else t.Next(m)) == None
            && t.index[m] == (if forward then 0 else |kids| - 1)
            && (Passed(t, forward, elem, m) <==> m == elem)
  {
    assert t.HangsRight(elem);
    var kids := t.kids[t.parent[elem]];
    assert t.IsKid(kids[0], t.parent[elem], 0) && t.IsKid(kids[|kids| - 1], t.parent[elem], |kids| - 1);
  }

  /** `start` holds the first node of the walk until it has been used. */
  ghost predicate AtStart(t: Tree, elem: Node, forward: bool, start: seq<Node>)
    requires t.Valid() && elem in t.parent
  {
    assert t.HangsRight(elem);
    var kids := t.kids[t.parent[elem]];
    |start| <= 1 && |kids| > 0 && (start != [] ==> start[0] == kids[if forward then 0 else |kids| - 1])
  }

  /** `node[ dir ]`, with the rank that goes with it. */
  method NextSibling(t: Tree, elem: Node, forward: bool, ofType: bool, node: Node, diff: nat)
    returns (next: Option<Node>, diff': nat)
    requires t.Valid() && elem in t.parent && OnTheWay(t, forward, ofType, elem, node, diff)
    ensures next.None? ==> Passed(t, forward, elem, node)
    ensures next.Some? ==>
              && OnTheWay(t, forward, ofType, elem, next.value, diff')
              && StepsLeft(t, forward, next.value) < StepsLeft(t, forward, node)
              && t.index[next.value] == (if forward then t.index[node] + 1 else t.index[node] - 1)
              && (Passed(t, forward, elem, next.value) <==> Passed(t, forward, elem, node) || next == Some(elem))
  {
    Onward(t, forward, elem, node);
    next := if forward then t.Next(node) else t.Previous(node);
    diff' := diff;
    if next.Some? {
      BackAgain(t, forward, node, next.value);
      RankStep(t, forward, ofType, t.name[elem], next.value);
      if Counts(t, ofType, t.name[elem], next.value) { diff' := diff + 1; }
    }
  }

  lemma BackAgain(t: Tree, forward: bool, node: Node, next: Node)
    requires t.Valid() && node in t.parent && next in t.parent && t.parent[node] == t.parent[next]
    requires if forward then t.index[next] == t.index[node] + 1 else t.index[next] + 1 == t.index[node]
    ensures (if forward then t.Previous(next) else t.Next(next)) == Some(node)
  {
    assert t.HangsRight(node) && t.HangsRight(next);
  }

  /** The first node of the walk. */
  method FirstNode(t: Tree, elem: Node, forward: bool, ofType: bool, start: seq<Node>) returns (next: Node, diff: nat)
    requires t.Valid() && elem in t.parent && AtStart(t, elem, forward, start) && start != []
    ensures OnTheWay(t, forward, ofType, elem, next, diff) && (Passed(t, forward, elem, next) <==> next == elem)
    ensures forward ==> t.index[next] == 0
  {
    Onset(t, forward, elem);
    next := start[0];
    RankStep(t, forward, ofType, t.name[elem], next);
    diff := if Counts(t, ofType, t.name[elem], next) then 1 else 0;
  }

  /**
   `node && node[ dir ] || (diff = 0) || start.pop()`, the step of both loops: the next sibling, or the first node of
   the walk if that has not been used. `diff'` counts up to the node returned, itself included.
   */
  method NextNode(t: Tree, elem: Node, forward: bool, ofType: bool, node: Option<Node>, start: seq<Node>, diff: nat)
    returns (next: Option<Node>, start': seq<Node>, diff': nat)
    requires t.Valid() && elem in t.parent && AtStart(t, elem, forward, start)
    requires node.Some? ==> OnTheWay(t, forward, ofType, elem, node.value, diff)
    requires start == [] ==> node.Some?
    ensures next.None? ==> start == [] && Passed(t, forward, elem, node.value) && diff' == 0
    ensures next.Some? ==> OnTheWay(t, forward, ofType, elem, next.value, diff')
    ensures next.Some? && start' == start ==>
              && node.Some? && StepsLeft(t, forward, next.value) < StepsLeft(t, forward, node.value)
              && t.index[next.value] == (if forward then t.index[node.value] + 1 else t.index[node.value] - 1)
              && (Passed(t, forward, elem, next.value) <==> Passed(t, forward, elem, node.value) || next == Some(elem))
    ensures next.Some? && start' != start ==>
              && start' == [] && (forward ==> t.index[next.value] == 0)
              && (Passed(t, forward, elem, next.value) <==> next == Some(elem))
  {
    next, start', diff' := None, start, 0;
    if node.Some? { next, diff' := NextSibling(t, elem, forward, ofType, node.value, diff); }
    if next.None? {
      diff' := 0;
      if start != [] {
        var first;
        first, diff' := FirstNode(t, elem, forward, ofType, start);
        next, start' := Some(first), [];
      }
    }
  }

  /** `parent[ expando ].nth` and `elem[ expando ][ "nth-last" ]`. */
  datatype NthEntry = NthEntry(run: nat, nodeIndex: nat, diff: nat)
  datatype NthLastEntry = NthLastEntry(run: nat, diff: nat)

  datatype Simple = First | Last | Only

  class ChildFilter {
    var dirruns: nat                  // the current run
    var dirrunsUnique: nat            // the number the outermost run has drawn
    var drawn: nat                    // the last number drawn
    var tree: Tree
    var xml: bool
    var nth: map<Node, NthEntry>
    var nthLast: map<Node, NthLastEntry>

    constructor (tree: Tree, xml: bool)
      requires tree.Valid()
      ensures Valid() && this.tree == tree && this.xml == xml
    {
      dirruns, dirrunsUnique, drawn, nth, nthLast := 0, 0, 0, map[], map[];
      this.tree, this.xml := tree, xml;
    }

    /**
     Entries of the outermost run and of the runs nested in it tell the truth about the current tree; older ones are
     ignored.
     */
    ghost predicate Valid()
      reads this
    {
      && tree.Valid()
      && dirrunsUnique <= dirruns <= drawn
      && (forall p :: p in nth ==> nth[p].run <= drawn)
      && (forall e :: e in nthLast ==> nthLast[e].run <= drawn)
      && (forall p :: p in nth && nth[p].run >= dirrunsUnique ==> NthTrue(tree, p, nth[p]))
      && (forall e :: e in nthLast && nthLast[e].run >= dirrunsUnique ==> NthLastTrue(tree, e, nthLast[e]))
    }

    static ghost predicate NthTrue(t: Tree, p: Node, e: NthEntry)
      requires t.Valid()
    {
      p in t.kids && e.nodeIndex < |t.kids[p]| && e.diff == CountIn(t, false, "", t.kids[p][..e.nodeIndex + 1])
    }

    static ghost predicate NthLastTrue(t: Tree, n: Node, e: NthLastEntry)
      requires t.Valid()
    {
      n in t.parent && t.kind[n] == Element && e.diff == CountIn(t, false, "", UpTo(t, false, n))
    }

    /** The outermost run starts. It may see another tree. */
    method NewRun(tree: Tree, xml: bool)
      requires Valid() && tree.Valid()
      modifies this
      ensures Valid() && this.tree == tree && this.xml == xml
      ensures dirruns == dirrunsUnique == drawn == old(drawn) + 1
      ensures nth == old(nth) && nthLast == old(nthLast)
    {
      drawn := drawn + 1;
      dirruns, dirrunsUnique, this.tree, this.xml := drawn, drawn, tree, xml;
    }

    /** `dirruns += Math.random() || 0.1`: a nested run, whose filters write under a number of their own. */
    method NestedRun()
      requires Valid()
      modifies this`dirruns, this`drawn
      ensures Valid() && dirruns == drawn == old(drawn) + 1
    {
      dirruns, drawn := drawn + 1, drawn + 1;
    }

    /** `dirruns = dirrunsUnique`: the entries of the outermost run count again. */
    method Restore()
      requires Valid()
      modifies this`dirruns
      ensures Valid() && dirruns == dirrunsUnique
    {
      dirruns := dirrunsUnique;
    }

    /** `:nth-child(an+b)`, `:nth-last-child`, `:nth-of-type`, `:nth-last-of-type`. */
    method Nth(elem: Node, forward: bool, ofType: bool, first: int, last: int) returns (b: bool)
      requires Valid() && tree.Has(elem)
      modifies this`nth, this`nthLast
      ensures Valid()
      ensures b <==>
                && elem in tree.parent
                && ((first == 1 && last == 0) || InProgression(first, last, Rank(tree, forward, ofType, elem)))
      ensures elem in tree.parent && Counts(tree, ofType, tree.name[elem], elem) ==>
                (b <==> InProgression(first, last, Rank(tree, forward, ofType, elem)))
    {
      if elem !in tree.parent { return false; }
      if first == 1 && last == 0 {
        assert 1 * Rank(tree, forward, ofType, elem) + 0 == Rank(tree, forward, ofType, elem);
        return true;
      }
      var diff := FindRank(elem, forward, ofType);
      AcceptsExactly(first, last, diff);
      b := Accepts(first, diff - last);
    }

    method FindRank(elem: Node, forward: bool, ofType: bool) returns (diff: nat)
      requires Valid() && elem in tree.parent
      modifies this`nth, this`nthLast
      ensures Valid()
      ensures diff == Rank(tree, forward, ofType, elem)
    {
      assert tree.HangsRight(elem);
      var useCache := !xml && !ofType;
      if forward && useCache {
        diff := SeekForward(elem);
      } else if useCache && elem in nthLast && nthLast[elem].run == dirruns {
        diff := nthLast[elem].diff;
        CountName(tree, tree.name[elem], UpTo(tree, false, elem));
      } else {
        diff := SeekFromStart(elem, forward, ofType, useCache);
      }
    }

    /** The loop that resumes at the index cached on the parent and falls back to the first child once. */
    method SeekForward(elem: Node) returns (diff: nat)
      requires Valid() && elem in tree.parent
      modifies this`nth
      ensures Valid()
      ensures diff == Rank(tree, true, false, elem)
      ensures nth == if tree.IsElement(elem) then
                       old(nth)[tree.parent[elem] := NthEntry(dirruns, tree.index[elem], diff)]
                     else old(nth)
    {
      var parent, name := tree.parent[elem], tree.name[elem];
      assert tree.HangsRight(elem);
      var nodeIndex, node;
      nodeIndex, diff, node := Resume(elem);
      var start := [tree.kids[parent][0]];
      while true
        invariant AtStart(tree, elem, true, start) && nth == old(nth)
        invariant node.Some? ==>
                    OnTheWay(tree, true, false, elem, node.value, diff) && nodeIndex == tree.index[node.value]
        invariant start == [] ==>
                    node.Some? && (Passed(tree, true, elem, node.value) ==> !Counts(tree, false, name, elem))
        decreases |start|, if node.Some? then StepsLeft(tree, true, node.value) else 0
      {
        var before := start;
        nodeIndex := nodeIndex + 1;
        node, start, diff := NextNode(tree, elem, true, false, node, start, diff);
        if node.None? { return; }
        if start != before { nodeIndex := 0; }
        if node.value == elem && tree.IsElement(elem) {
          RememberOnParent(elem, nodeIndex, diff);
          return;
        }
      }
    }

    /** The cached index and rank, when they are of this run; index 0 is falsy and starts over. */
    method Resume(elem: Node) returns (nodeIndex: nat, diff: nat, node: Option<Node>)
      requires Valid() && elem in tree.parent
      ensures node.Some? ==> OnTheWay(tree, true, false, elem, node.value, diff) && nodeIndex == tree.index[node.value]
      ensures var p := tree.parent[elem];
              if p in nth && nth[p].run == dirruns && nth[p].nodeIndex != 0
              then node == Some(tree.kids[p][nth[p].nodeIndex]) && diff == nth[p].diff
              else node == None
    {
      var parent := tree.parent[elem];
      nodeIndex, diff, node := 0, 0, None;
      if parent in nth && nth[parent].run == dirruns {
        nodeIndex, diff := nth[parent].nodeIndex, nth[parent].diff;
        if nodeIndex != 0 {
          node := Some(tree.kids[parent][nodeIndex]);
          assert tree.IsKid(node.value, parent, nodeIndex);
          CountName(tree, tree.name[elem], UpTo(tree, true, node.value));
        }
      }
    }

    method RememberOnParent(elem: Node, nodeIndex: nat, diff: nat)
      requires Valid() && elem in tree.parent && nodeIndex == tree.index[elem]
      requires diff == CountIn(tree, false, tree.name[elem], UpTo(tree, true, elem))
      modifies this`nth
      ensures Valid() && nth == old(nth)[tree.parent[elem] := NthEntry(dirruns, nodeIndex, diff)]
    {
      assert tree.HangsRight(elem);
      CountName(tree, tree.name[elem], UpTo(tree, true, elem));
      nth := nth[tree.parent[elem] := NthEntry(dirruns, nodeIndex, diff)];
    }

    /** The loop that always starts at one end. It leaves the rank on every element it passes. */
    method SeekFromStart(elem: Node, forward: bool, ofType: bool, useCache: bool) returns (diff: nat)
      requires Valid() && elem in tree.parent && (useCache ==> !forward && !ofType)
      modifies this`nthLast
      ensures Valid()
      ensures diff == Rank(tree, forward, ofType, elem)
      ensures if !useCache then nthLast == old(nthLast)
              else tree.IsElement(elem) ==> elem in nthLast && nthLast[elem] == NthLastEntry(dirruns, diff)
    {
      var parent, name := tree.parent[elem], tree.name[elem];
      assert tree.HangsRight(elem);
      var kids := tree.kids[parent];
      var start, node := [if forward then kids[0] else kids[|kids| - 1]], None;
      diff := 0;
      while true
        invariant AtStart(tree, elem, forward, start) && (start == []) == node.Some?
        invariant node.Some? ==>
                    && OnTheWay(tree, forward, ofType, elem, node.value, diff)
                    && (Passed(tree, forward, elem, node.value) ==> !Counts(tree, ofType, name, elem))
        invariant Valid() && (!useCache ==> nthLast == old(nthLast))
        decreases |start|, if node.Some? then StepsLeft(tree, forward, node.value) else 0
      {
        node, start, diff := NextNode(tree, elem, forward, ofType, node, start, diff);
        if node.None? { return; }
        if Counts(tree, ofType, name, node.value) {
          if useCache { RememberOnElement(node.value, name, diff); }
          if node.value == elem { return; }
        }
      }
    }

    method RememberOnElement(node: Node, ghost name: string, diff: nat)
      requires Valid() && node in tree.parent && tree.kind[node] == Element
      requires diff == CountIn(tree, false, name, UpTo(tree, false, node))
      modifies this`nthLast
      ensures Valid() && nthLast == old(nthLast)[node := NthLastEntry(dirruns, diff)]
    {
      CountName(tree, name, UpTo(tree, false, node));
      nthLast := nthLast[node := NthLastEntry(dirruns, diff)];
    }

    /** `:first-child`, `:last-child`, `:only-child` and their `of-type` forms. */
    method IsSimple(elem: Node, kind: Simple, ofType: bool) returns (b: bool)
      requires Valid() && tree.Has(elem)
      ensures b <==> elem in tree.parent && NoOther(tree, kind, ofType, elem)
      ensures elem in tree.parent && Counts(tree, ofType, tree.name[elem], elem) ==>
              (b <==> SimpleRank(tree, kind, ofType, elem))
    {
      if elem !in tree.parent { return false; }
      var hit := false;
      if kind != Last {
        hit := AnySibling(elem, false, ofType);
      }
      if !hit && kind != First {
        hit := AnySibling(elem, true, ofType);
      }
      SimpleMeaning(tree, kind, ofType, elem);
      b := !hit;
    }

    /** `while ( (node = node[ dir ]) )` over one side. */
    method AnySibling(elem: Node, after: bool, ofType: bool) returns (hit: bool)
      requires Valid() && elem in tree.parent
      ensures hit <==> Other(tree, after, ofType, elem)
    {
      assert tree.HangsRight(elem);
      var name, node := tree.name[elem], elem;
      ghost var parent := tree.parent[elem];
      ghost var kids := tree.kids[parent];
      while true
        invariant node in tree.parent && tree.parent[node] == parent
        invariant if after then tree.index[elem] <= tree.index[node] else tree.index[node] <= tree.index[elem]
        invariant forall i ::
                    && 0 <= i < |kids|
                    && (if after then tree.index[elem] < i <= tree.index[node]
                        else tree.index[node] <= i < tree.index[elem])
                    ==> !Counts(tree, ofType, name, kids[i])
        decreases if after then |kids| - tree.index[node] else tree.index[node]
      {
        assert tree.HangsRight(node);
        var next := if after then tree.Next(node) else tree.Previous(node);
        if next.None? { return false; }
        node := next.value;
        assert tree.HangsRight(node);
        if Counts(tree, ofType, name, node) {
          assert node in Side(tree, after, elem) by {
            var k := tree.index[node];
            assert Side(tree, after, elem)[if after then k - tree.index[elem] - 1 else k] == node;
          }
          return true;
        }
      }
    }
  }

  /** The siblings on one side. */
  ghost function Side(t: Tree, after: bool, n: Node): seq<Node>
    requires t.Valid() && n in t.parent
  {
    assert t.HangsRight(n);
    var s := t.kids[t.parent[n]];
    if after then s[t.index[n] + 1..] else s[..t.index[n]]
  }

  /** Some sibling on one side counts. */
  ghost predicate Other(t: Tree, after: bool, ofType: bool, n: Node)
    requires t.Valid() && n in t.parent
  {
    exists m :: m in Side(t, after, n) && Counts(t, ofType, t.name[n], m)
  }

  ghost predicate NoOther(t: Tree, kind: Simple, ofType: bool, n: Node)
    requires t.Valid() && n in t.parent
  {
    (kind != Last ==> !Other(t, false, ofType, n)) && (kind != First ==> !Other(t, true, ofType, n))
  }

  /** The first child has rank 1 from the front, the last one from the back, an only child from both. */
  ghost predicate SimpleRank(t: Tree, kind: Simple, ofType: bool, n: Node)
    requires t.Valid() && n in t.parent
  {
    (kind != Last ==> Rank(t, true, ofType, n) == 1) && (kind != First ==> Rank(t, false, ofType, n) == 1)
  }

  lemma {:induction false} CountZero(t: Tree, ofType: bool, name: string, s: seq<Node>)
    ensures CountIn(t, ofType, name, s) == 0 <==> forall n :: n in s ==> !Counts(t, ofType, name, n)
    decreases |s|
  {
    if |s| == 0 {
    } else {
      CountZero(t, ofType, name, s[..|s| - 1]);
      assert s == s[..|s| - 1] + [s[|s| - 1]];
    }
  }

  lemma SimpleMeaning(t: Tree, kind: Simple, ofType: bool, n: Node)
    requires t.Valid() && n in t.parent
    ensures Counts(t, ofType, t.name[n], n) ==> (NoOther(t, kind, ofType, n) <==> SimpleRank(t, kind, ofType, n))
  {
    assert t.HangsRight(n);
    var s, i := t.kids[t.parent[n]], t.index[n];
    CountZero(t, ofType, t.name[n], s[..i]);
    CountZero(t, ofType, t.name[n], s[i + 1..]);
    CountPrefixStep(t, ofType, t.name[n], s, i);
    CountSuffixStep(t, ofType, t.name[n], s, i);
  }

  /** Without `of-type` the name plays no part. */
  lemma {:induction false} CountName(t: Tree, name: string, s: seq<Node>)
    ensures CountIn(t, false, name, s) == CountIn(t, false, "", s)
    decreases |s|
  {
    if |s| == 0 {
    } else {
      CountName(t, name, s[..|s| - 1]);
    }
  }

  lemma RankStep(t: Tree, forward: bool, ofType: bool, name: string, n: Node)
    requires t.Valid() && n in t.parent
    ensures CountIn(t, ofType, name, UpTo(t, forward, n))
         == (match (if forward then t.Previous(n) else t.Next(n))
             case Some(m) => CountIn(t, ofType, name, UpTo(t, forward, m))
             case None => 0)
            + if Counts(t, ofType, name, n) then 1 else 0
  {
    assert t.HangsRight(n);
    var s, i := t.kids[t.parent[n]], t.index[n];
    if forward { CountPrefixStep(t, ofType, name, s, i); } else { CountSuffixStep(t, ofType, name, s, i); }
  }
}
