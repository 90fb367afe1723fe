/**
 `sortOrder`, in the form used where `compareDocumentPosition` is missing, and `uniqueSort`. The comparator follows
 parent and sibling links; the order it should give is the order of a preorder traversal.
 */
module DocumentOrder {
  import opened Wrappers
  import opened DomTree

  // ---------------------------------------------------------------- preorder

  function Preorder(t: Tree, n: Node): seq<Node>
    requires t.Valid() && t.Has(n)
    decreases t.limit - t.depth[n], |t.kids[n]| + 1
  {
    [n] + PreorderKids(t, n, |t.kids[n]|)
  }

  /** The subtrees of the first `i` children. */
  function PreorderKids(t: Tree, n: Node, i: nat): seq<Node>
    requires t.Valid() && t.Has(n) && i <= |t.kids[n]|
    decreases t.limit - t.depth[n], i
  {
    if i == 0 then []
    else
      var c := t.kids[n][i - 1];
      assert t.IsKid(c, n, i - 1) && t.HangsRight(c);
      PreorderKids(t, n, i - 1) + Preorder(t, c)
  }

  /** `a` is visited before `b`. */
  ghost predicate Before(t: Tree, root: Node, a: Node, b: Node)
    requires t.Valid() && t.Has(root)
  {
    exists i, j :: 0 <= i < j < |Preorder(t, root)| && Preorder(t, root)[i] == a && Preorder(t, root)[j] == b
  }

  // ---------------------------------------------------------------- positions as index paths

  /** The child indexes on the way down to `n`. */
  function Path(t: Tree, n: Node): seq<nat>
    requires t.Valid() && t.Has(n)
    decreases t.depth[n]
  {
    if n in t.parent then
      assert t.HangsRight(n);
      Path(t, t.parent[n]) + [t.index[n]]
    else []
  }

  function Root(t: Tree, n: Node): (r: Node)
    requires t.Valid() && t.Has(n)
    ensures t.Has(r) && r !in t.parent
    decreases t.depth[n]
  {
    if n in t.parent then
      assert t.HangsRight(n);
      Root(t, t.parent[n])
    else n
  }

  /** Lexicographic order, a prefix first. */
  ghost predicate PathLess(p: seq<nat>, q: seq<nat>) {
    exists k: nat :: FirstDifference(p, q, k) && k < |q| && (k == |p| || p[k] < q[k])
  }

  predicate FirstDifference(p: seq<nat>, q: seq<nat>, k: nat) {
    k <= |p| && k <= |q| && p[..k] == q[..k] && (k < |p| && k < |q| ==> p[k] != q[k])
  }

  lemma PathLessAsymmetric(p: seq<nat>, q: seq<nat>)
    requires PathLess(p, q)
    ensures !PathLess(q, p) && p != q
  {
    var k: nat :| FirstDifference(p, q, k) && k < |q| && (k == |p| || p[k] < q[k]);
    assert forall i :: 0 <= i < k ==> p[i] == p[..k][i] == q[..k][i] == q[i];
    forall l: nat | FirstDifference(q, p, l) ensures l == k {
      assert forall i :: 0 <= i < l ==> p[i] == p[..l][i] == q[..l][i] == q[i];
    }
  }

  lemma PathLessTransitive(p: seq<nat>, q: seq<nat>, r: seq<nat>)
    requires PathLess(p, q) && PathLess(q, r)
    ensures PathLess(p, r)
  {
    var k: nat :| FirstDifference(p, q, k) && k < |q| && (k == |p| || p[k] < q[k]);
    var l: nat :| FirstDifference(q, r, l) && l < |r| && (l == |q| || q[l] < r[l]);
    assert forall i :: 0 <= i < k ==> p[i] == p[..k][i] == q[..k][i] == q[i];
    assert forall i :: 0 <= i < l ==> q[i] == q[..l][i] == r[..l][i] == r[i];
    assert FirstDifference(p, r, if k < l then k else l);
  }

  /** Everything in the subtree of `n` has a path that starts with the path of `n`; and in the order of paths. */
  lemma {:induction false} PreorderSorted(t: Tree, n: Node)
    requires t.Valid() && t.Has(n)
    ensures Sorted(t, Preorder(t, n)) && Under(t, Preorder(t, n), Path(t, n), Root(t, n))
    decreases t.limit - t.depth[n], |t.kids[n]| + 1
  {
    KidsSorted(t, n, |t.kids[n]|);
    var rest := PreorderKids(t, n, |t.kids[n]|);
    forall x | x in rest ensures PathLess(Path(t, n), Path(t, x)) {
      assert FirstDifference(Path(t, n), Path(t, x), |Path(t, n)|);
    }
    SortedCons(t, n, rest);
  }

  ghost predicate Sorted(t: Tree, s: seq<Node>)
    requires t.Valid()
  {
    && (forall x :: x in s ==> t.Has(x))
    && (forall i, j :: 0 <= i < j < |s| ==> PathLess(Path(t, s[i]), Path(t, s[j])))
  }

  ghost predicate Under(t: Tree, s: seq<Node>, p: seq<nat>, root: Node)
    requires t.Valid()
  {
    forall x :: x in s ==> t.Has(x) && p <= Path(t, x) && Root(t, x) == root
  }

  /** In the subtrees of the first `i` children, the path goes on with an index below `i`. */
  ghost predicate Within(t: Tree, s: seq<Node>, p: seq<nat>, i: nat)
    requires t.Valid()
  {
    forall x :: x in s ==> t.Has(x) && |Path(t, x)| > |p| && p <= Path(t, x) && Path(t, x)[|p|] < i
  }

  lemma {:induction false} KidsSorted(t: Tree, n: Node, i: nat)
    requires t.Valid() && t.Has(n) && i <= |t.kids[n]|
    ensures Sorted(t, PreorderKids(t, n, i)) && Under(t, PreorderKids(t, n, i), Path(t, n), Root(t, n))
    ensures Within(t, PreorderKids(t, n, i), Path(t, n), i)
    decreases t.limit - t.depth[n], i
  {
    if i == 0 {
    } else {
      var c := t.kids[n][i - 1];
      assert t.IsKid(c, n, i - 1) && t.HangsRight(c);
      KidsSorted(t, n, i - 1);
      PreorderSorted(t, c);
      var a, b, p := PreorderKids(t, n, i - 1), Preorder(t, c), Path(t, n);
      assert Path(t, c) == p + [i - 1];
      forall y | y in b ensures |Path(t, y)| > |p| && p <= Path(t, y) && Path(t, y)[|p|] == i - 1 {
        assert Path(t, c) <= Path(t, y);
      }
      KidsApart(t, a, b, p, i - 1);
      SortedAppend(t, a, b);
    }
  }

  /** What lies under the kids before number `k` comes before what lies under that one. */
  lemma KidsApart(t: Tree, a: seq<Node>, b: seq<Node>, p: seq<nat>, k: nat)
    requires t.Valid() && (forall x :: x in a || x in b ==> t.Has(x)) && Within(t, a, p, k)
    requires forall x :: x in a ==> p <= Path(t, x)
    requires forall y :: y in b ==> |Path(t, y)| > |p| && p <= Path(t, y) && Path(t, y)[|p|] == k
    ensures forall x, y :: x in a && y in b ==> PathLess(Path(t, x), Path(t, y))
  {
    forall x, y | x in a && y in b ensures PathLess(Path(t, x), Path(t, y)) {
      assert FirstDifference(Path(t, x), Path(t, y), |p|);
    }
  }

  lemma SortedAppend(t: Tree, a: seq<Node>, b: seq<Node>)
    requires t.Valid() && Sorted(t, a) && Sorted(t, b)
    requires forall x, y :: x in a && y in b ==> PathLess(Path(t, x), Path(t, y))
    ensures Sorted(t, a + b)
  {
    forall i, j | 0 <= i < j < |a + b| ensures PathLess(Path(t, (a + b)[i]), Path(t, (a + b)[j])) {
      if i < |a| { assert a[i] in a; } else { assert (a + b)[i] == b[i - |a|]; }
      if j >= |a| { assert (a + b)[j] == b[j - |a|] && b[j - |a|] in b; }
    }
  }

  /** Every node below the root is visited. */
  lemma {:induction false} PreorderComplete(t: Tree, n: Node)
    requires t.Valid() && t.Has(n)
    ensures n in Preorder(t, Root(t, n))
    decreases t.depth[n]
  {
    if n in t.parent {
      assert t.HangsRight(n);
      PreorderComplete(t, t.parent[n]);
      Subtree(t, Root(t, n), t.parent[n]);
      KidVisited(t, t.parent[n], |t.kids[t.parent[n]]|, t.index[n]);
    }
  }

  lemma {:induction false} KidVisited(t: Tree, n: Node, i: nat, k: nat)
    requires t.Valid() && t.Has(n) && k < i <= |t.kids[n]|
    ensures t.IsKid(t.kids[n][k], n, k)
    ensures forall x :: x in Preorder(t, t.kids[n][k]) ==> x in PreorderKids(t, n, i)
    ensures t.kids[n][k] in PreorderKids(t, n, i)
    decreases i
  {
    assert t.IsKid(t.kids[n][k], n, k);
    if k < i - 1 { KidVisited(t, n, i - 1, k); }
  }

  /** The subtree of a visited node is visited. */
  lemma {:induction false} Subtree(t: Tree, r: Node, n: Node)
    requires t.Valid() && t.Has(r) && t.Has(n) && n in Preorder(t, r)
    ensures forall x :: x in Preorder(t, n) ==> x in Preorder(t, r)
    decreases t.limit - t.depth[r], |t.kids[r]| + 1
  {
    if n != r { SubtreeKids(t, r, |t.kids[r]|, n); }
  }

  lemma {:induction false} SubtreeKids(t: Tree, r: Node, i: nat, n: Node)
    requires t.Valid() && t.Has(r) && t.Has(n) && i <= |t.kids[r]| && n in PreorderKids(t, r, i)
    ensures forall x :: x in Preorder(t, n) ==> x in PreorderKids(t, r, i)
    decreases t.limit - t.depth[r], i
  {
    var c := t.kids[r][i - 1];
    assert t.IsKid(c, r, i - 1) && t.HangsRight(c);
    if n in PreorderKids(t, r, i - 1) { SubtreeKids(t, r, i - 1, n); } else { Subtree(t, c, n); }
  }

  /** In one tree, the traversal visits `a` before `b` exactly when the path of `a` is smaller. */
  lemma BeforeIsPathLess(t: Tree, root: Node, a: Node, b: Node)
    requires t.Valid() && t.Has(root) && root !in t.parent && t.Has(a) && t.Has(b)
    requires Root(t, a) == root && Root(t, b) == root
    ensures Before(t, root, a, b) <==> PathLess(Path(t, a), Path(t, b))
    ensures a != b ==> PathLess(Path(t, a), Path(t, b)) || PathLess(Path(t, b), Path(t, a))
  {
    PreorderSorted(t, root);
    PreorderComplete(t, a);
    PreorderComplete(t, b);
    var s := Preorder(t, root);
    var i :| 0 <= i < |s| && s[i] == a;
    var j :| 0 <= j < |s| && s[j] == b;
    if i < j { assert Before(t, root, a, b); }
    if j <= i && PathLess(Path(t, a), Path(t, b)) { PathLessAsymmetric(Path(t, a), Path(t, b)); }
  }

  // ---------------------------------------------------------------- the comparator

  /** The ancestors of `n` from the root down, `n` included. */
  function Lineage(t: Tree, n: Node): (r: seq<Node>)
    requires t.Valid() && t.Has(n)
    ensures |r| > 0 && r[|r| - 1] == n
    ensures forall x :: x in r ==> t.Has(x)
    decreases t.depth[n]
  {
    if n in t.parent then
      assert t.HangsRight(n);
      Lineage(t, t.parent[n]) + [n]
    else [n]
  }

  /** `siblingCheck`, without the `sourceIndex` shortcut of one browser. */
  method SiblingCheck(t: Tree, a: Option<Node>, b: Option<Node>) returns (r: int)
    requires t.Valid() && (a.Some? ==> t.Has(a.value)) && (b.Some? ==> t.Has(b.value))
    ensures a.None? ==> r == -1
    ensures a.Some? && b.None? ==> r == 1
    ensures a.Some? && b.Some? ==> r == if t.PrecedesSibling(a.value, b.value) then -1 else 1
  {
    if a.Some? && b.Some? {
      var cur := a.value;
      while true
        invariant t.Has(cur)
        invariant cur == a.value || (cur in t.parent && a.value in t.parent && t.parent[cur] == t.parent[a.value]
                  && t.index[a.value] < t.index[cur])
        invariant t.PrecedesSibling(a.value, b.value) ==> t.index[cur] < t.index[b.value]
        decreases if cur in t.parent then |t.kids[t.parent[cur]]| - t.index[cur] else 0
      {
        if cur in t.parent { assert t.HangsRight(cur); }
        if b.value in t.parent { assert t.HangsRight(b.value); }
        var next := t.Next(cur);
        if next.None? { break; }
        cur := next.value;
        assert t.HangsRight(cur);
        if cur == b.value { return -1; }
      }
    }
    return if a.Some? then 1 else -1;
  }

  method Ancestors(t: Tree, n: Node) returns (r: seq<Node>)
    requires t.Valid() && t.Has(n)
    ensures r == Lineage(t, n)
  {
    var cur := n;
    r := [n];
    ghost var below := [];
    while cur in t.parent
      invariant t.Has(cur)
      invariant r == [cur] + below && Lineage(t, n) == Lineage(t, cur) + below
      decreases t.depth[cur]
    {
      assert t.HangsRight(cur);
      below := [cur] + below;
      cur := t.parent[cur];
      r := [cur] + r;
    }
  }

  function At(s: seq<Node>, i: nat): Option<Node> {
    if i < |s| then Some(s[i]) else None
  }

  /** The fallback `sortOrder( a, b )`. `sortInput` is absent, `doc` is the current document. */
  method SortOrder(t: Tree, doc: Node, preferredDoc: Node, a: Node, b: Node) returns (r: int)
    requires t.Valid() && t.Has(a) && t.Has(b)
    ensures r == Order(t, doc, preferredDoc, a, b)
  {
    if a == b { return 0; }
    if a !in t.parent || b !in t.parent {
      return if a == doc then -1 else if b == doc then 1
             else if a in t.parent then -1 else if b in t.parent then 1 else 0;
    }
    if t.parent[a] == t.parent[b] {
      r := SiblingCheck(t, Some(a), Some(b));
      SiblingLineages(t, a, b);
      return;
    }
    var ap := Ancestors(t, a);
    var bp := Ancestors(t, b);
    var i := 0;
    while At(ap, i) == At(bp, i)
      invariant 0 <= i <= |ap| && i <= |bp| && ap[..i] == bp[..i]
      decreases |ap| - i
    {
      StillEqual(ap, bp, i);
      i := i + 1;
    }
    SplitIs(ap, bp, i);
    OnOwnLineage(t, a, b, i);
    if i != 0 {
      r := SiblingCheck(t, At(ap, i), At(bp, i));
    } else {
      r := if At(ap, 0) == Some(preferredDoc) then -1 else if At(bp, 0) == Some(preferredDoc) then 1 else 0;
    }
  }

  /** The length of the common part of two different lineages. */
  function SplitAt(p: seq<Node>, q: seq<Node>): (k: nat)
    ensures k <= |p| && k <= |q| && p[..k] == q[..k]
    ensures At(p, k) == At(q, k) ==> p == q
  {
    if p == [] || q == [] || p[0] != q[0] then 0 else 1 + SplitAt(p[1..], q[1..])
  }

  lemma SplitIs(p: seq<Node>, q: seq<Node>, i: nat)
    requires i <= |p| && i <= |q| && p[..i] == q[..i] && At(p, i) != At(q, i)
    ensures i == SplitAt(p, q)
  {
    var k := SplitAt(p, q);
    assert forall j :: 0 <= j < i ==> p[j] == p[..i][j] == q[..i][j] == q[j];
    assert forall j :: 0 <= j < k ==> p[j] == p[..k][j] == q[..k][j] == q[j];
  }

  lemma StillEqual(p: seq<Node>, q: seq<Node>, i: nat)
    requires p != q && i <= |p| && i <= |q| && p[..i] == q[..i] && At(p, i) == At(q, i)
    ensures i < |p| && i < |q| && p[..i + 1] == q[..i + 1]
  {
    assert p[..|p|] == p && q[..|q|] == q;
  }

  /** What the comparator answers, case by case. */
  function Order(t: Tree, doc: Node, preferredDoc: Node, a: Node, b: Node): int
    requires t.Valid() && t.Has(a) && t.Has(b)
  {
    if a == b then 0
    else if a !in t.parent || b !in t.parent then
      if a == doc then -1 else if b == doc then 1 else if a in t.parent then -1 else if b in t.parent then 1 else 0
    else
      var ap, bp := Lineage(t, a), Lineage(t, b);
      var k := SplitAt(ap, bp);
      if k == 0 then
        if ap[0] == preferredDoc then -1 else if bp[0] == preferredDoc then 1 else 0
      else if k == |ap| then -1
      else if k == |bp| then 1
      else if ap[k] in t.parent && bp[k] in t.parent && t.parent[ap[k]] == t.parent[bp[k]]
          && t.index[ap[k]] < t.index[bp[k]] then -1
      else 1
  }

  // ---------------------------------------------------------------- the comparator is the document order

  /** The nodes `l` are linked downwards by the child indexes `p`. */
  ghost predicate Traces(t: Tree, l: seq<Node>, p: seq<nat>)
    requires t.Valid()
  {
    |l| == |p| + 1 && forall i :: 0 <= i < |p| ==> t.IsKid(l[i + 1], l[i], p[i])
  }

  lemma {:induction false} LineageTraces(t: Tree, n: Node)
    requires t.Valid() && t.Has(n)
    ensures Traces(t, Lineage(t, n), Path(t, n)) && Lineage(t, n)[0] == Root(t, n)
    decreases t.depth[n]
  {
    if n in t.parent {
      assert t.HangsRight(n);
      LineageTraces(t, t.parent[n]);
    }
  }

  lemma SiblingLineages(t: Tree, a: Node, b: Node)
    requires t.Valid() && a != b && a in t.parent && b in t.parent && t.parent[a] == t.parent[b]
    ensures var ap, bp := Lineage(t, a), Lineage(t, b);
            var k := SplitAt(ap, bp);
            k > 0 && |ap| == |bp| == k + 1
  {
    assert t.HangsRight(a) && t.HangsRight(b);
    var up := Lineage(t, t.parent[a]);
    assert (up + [a])[..|up|] == (up + [b])[..|up|];
    SplitIs(up + [a], up + [b], |up|);
  }

  lemma OnOwnLineage(t: Tree, a: Node, b: Node, i: nat)
    requires t.Valid() && t.Has(a) && t.Has(b)
    ensures i < |Lineage(t, a)| ==> t.Has(Lineage(t, a)[i])
    ensures i < |Lineage(t, b)| ==> t.Has(Lineage(t, b)[i])
  {
  }

  /** With a common root the paths part where the lineages do. */
  lemma PartWays(t: Tree, l: seq<Node>, m: seq<Node>, p: seq<nat>, q: seq<nat>)
    requires t.Valid() && Traces(t, l, p) && Traces(t, m, q) && l[0] == m[0] && l != m
    ensures var k := SplitAt(l, m);
            && k > 0 && FirstDifference(p, q, k - 1) && (k < |l| || k < |m|)
            && (k < |l| ==> t.IsKid(l[k], l[k - 1], p[k - 1]))
            && (k < |m| ==> t.IsKid(m[k], l[k - 1], q[k - 1]))
  {
    var k := SplitAt(l, m);
    assert forall i :: 0 <= i < k ==> l[i] == l[..k][i] == m[..k][i] == m[i];
    forall i | 0 <= i < k - 1 ensures p[i] == q[i] {
      assert t.IsKid(l[i + 1], l[i], p[i]) && t.IsKid(m[i + 1], m[i], q[i]);
    }
    assert l[..|l|] == l && m[..|m|] == m;
    if k < |l| { assert t.IsKid(l[k - 1 + 1], l[k - 1], p[k - 1]); }
    if k < |m| { assert t.IsKid(m[k - 1 + 1], m[k - 1], q[k - 1]); }
    if k < |l| && k < |m| { DifferentKids(t, l[k], m[k]); }
  }

  lemma SplitOfPaths(t: Tree, a: Node, b: Node)
    requires t.Valid() && t.Has(a) && t.Has(b) && a != b && Root(t, a) == Root(t, b)
    ensures var l, m, p, q := Lineage(t, a), Lineage(t, b), Path(t, a), Path(t, b);
            var k := SplitAt(l, m);
            && |l| == |p| + 1 && |m| == |q| + 1
            && k > 0 && FirstDifference(p, q, k - 1) && (k < |l| || k < |m|)
            && (k < |l| ==> t.IsKid(l[k], l[k - 1], p[k - 1]))
            && (k < |m| ==> t.IsKid(m[k], l[k - 1], q[k - 1]))
  {
    LineageTraces(t, a);
    LineageTraces(t, b);
    PartWays(t, Lineage(t, a), Lineage(t, b), Path(t, a), Path(t, b));
  }

  lemma DifferentKids(t: Tree, x: Node, y: Node)
    requires t.Valid() && x != y && x in t.parent && y in t.parent && t.parent[x] == t.parent[y]
    ensures t.index[x] != t.index[y]
  {
    assert t.HangsRight(x) && t.HangsRight(y);
  }

  lemma DifferentRoots(t: Tree, a: Node, b: Node)
    requires t.Valid() && t.Has(a) && t.Has(b) && Root(t, a) != Root(t, b)
    ensures SplitAt(Lineage(t, a), Lineage(t, b)) == 0 && SplitAt(Lineage(t, b), Lineage(t, a)) == 0
    ensures Lineage(t, a)[0] == Root(t, a) && Lineage(t, b)[0] == Root(t, b)
  {
    LineageTraces(t, a);
    LineageTraces(t, b);
  }

  /**
   Nodes of different trees. The current document comes first with all its nodes when it is the preferred one; apart
   from documents a node with a parent comes before one without; of two with parents, one in the preferred document
   comes before one that is not; and no order is made among the rest.
   */
  lemma DifferentTrees(t: Tree, doc: Node, preferredDoc: Node, a: Node, b: Node)
    requires t.Valid() && t.Has(a) && t.Has(b) && Root(t, a) != Root(t, b)
    requires doc !in t.parent && preferredDoc !in t.parent
    ensures Order(t, doc, preferredDoc, a, b) == -Order(t, doc, preferredDoc, b, a)
    ensures Root(t, a) == doc == preferredDoc ==> Order(t, doc, preferredDoc, a, b) == -1
    ensures a == doc ==> Order(t, doc, preferredDoc, a, b) == -1
    ensures a in t.parent && b !in t.parent && b != doc ==> Order(t, doc, preferredDoc, a, b) == -1
    ensures a in t.parent && b in t.parent && Root(t, a) == preferredDoc ==> Order(t, doc, preferredDoc, a, b) == -1
    ensures a in t.parent && b in t.parent && Root(t, a) != preferredDoc && Root(t, b) != preferredDoc ==>
              Order(t, doc, preferredDoc, a, b) == 0
    ensures a !in t.parent && b !in t.parent && a != doc && b != doc ==> Order(t, doc, preferredDoc, a, b) == 0
  {
    DifferentRoots(t, a, b);
  }

  /**
   In one tree, the comparator's sign is the document order of the two nodes exactly when the tree hangs from the
   current document or neither node is the root: a detached root is put behind its own descendants.
   */
  lemma OrderExactly(t: Tree, doc: Node, preferredDoc: Node, root: Node, a: Node, b: Node)
    requires t.Valid() && t.Has(a) && t.Has(b) && a != b && Root(t, a) == Root(t, b) == root && doc !in t.parent
    ensures ((Order(t, doc, preferredDoc, a, b) < 0 <==> Before(t, root, a, b)) &&
             (Order(t, doc, preferredDoc, a, b) > 0 <==> Before(t, root, b, a)))
            <==> root == doc || (a != root && b != root)
  {
    BeforeIsPathLess(t, root, a, b);
    BeforeIsPathLess(t, root, b, a);
    SplitOfPaths(t, a, b);
    var p, q, k := Path(t, a), Path(t, b), SplitAt(Lineage(t, a), Lineage(t, b));
    if k - 1 < |q| && (k - 1 == |p| || p[k - 1] < q[k - 1]) {
      assert PathLess(p, q);
      PathLessAsymmetric(p, q);
    } else {
      assert FirstDifference(q, p, k - 1);
      assert PathLess(q, p);
      PathLessAsymmetric(q, p);
    }
    if a in t.parent && b in t.parent {
      assert a != root && b != root;
    } else if a !in t.parent {
      assert a == root && Path(t, a) == [] && b in t.parent;
    } else {
      assert b == root && Path(t, b) == [] && a in t.parent;
    }
  }

  /** Node 0 over node 1, in no document. */
  function Detached(): Tree {
    Tree(map[0 := [1], 1 := []], map[1 := 0], map[1 := 0], map[0 := Element, 1 := Element],
         map[0 := "div", 1 := "p"], map[0 := 0, 1 := 1], 1)
  }

  lemma DetachedValid()
    ensures Detached().Valid() && Detached().Has(0) && Detached().Has(1)
  {
  }

  /** A root with one leaf below it is visited before that leaf. */
  lemma LeafLast(t: Tree, root: Node, leaf: Node)
    requires t.Valid() && t.Has(root) && t.Has(leaf) && t.kids[root] == [leaf] && t.kids[leaf] == []
    ensures Preorder(t, root) == [root, leaf]
  {
    assert t.IsKid(t.kids[root][0], root, 0) && t.HangsRight(leaf);
    assert PreorderKids(t, leaf, 0) == [] && Preorder(t, leaf) == [leaf];
    assert PreorderKids(t, root, 0) == [] && PreorderKids(t, root, 1) == [leaf];
  }

  /** The comparator puts the root of a detached tree behind its child. */
  lemma DetachedRoot(doc: Node, preferredDoc: Node)
    requires doc > 1
    ensures Detached().Valid() && Detached().Has(0) && Detached().Has(1)
    ensures Order(Detached(), doc, preferredDoc, 0, 1) > 0 && Before(Detached(), 0, 0, 1)
  {
    DetachedValid();
    var t := Detached();
    LeafLast(t, 0, 1);
    assert Preorder(t, 0)[0] == 0 && Preorder(t, 0)[1] == 1;
  }

  /** In the current document the comparator is a strict total order. */
  lemma OrderIsStrictTotal(t: Tree, doc: Node, preferredDoc: Node, a: Node, b: Node, c: Node)
    requires t.Valid() && t.Has(a) && t.Has(b) && t.Has(c)
    requires Root(t, a) == Root(t, b) == Root(t, c) == doc
    ensures Order(t, doc, preferredDoc, a, b) == 0 <==> a == b
    ensures Order(t, doc, preferredDoc, a, b) < 0 <==> Order(t, doc, preferredDoc, b, a) > 0
    ensures Order(t, doc, preferredDoc, a, b) < 0 && Order(t, doc, preferredDoc, b, c) < 0 ==>
              Order(t, doc, preferredDoc, a, c) < 0
  {
    if a != b {
      OrderExactly(t, doc, preferredDoc, doc, a, b);
      OrderExactly(t, doc, preferredDoc, doc, b, a);
      BeforeIsPathLess(t, doc, a, b);
      BeforeIsPathLess(t, doc, b, a);
      if b != c && Order(t, doc, preferredDoc, a, b) < 0 && Order(t, doc, preferredDoc, b, c) < 0 {
        OrderExactly(t, doc, preferredDoc, doc, b, c);
        BeforeTransitive(t, doc, a, b, c);
        BeforeIsPathLess(t, doc, a, c);
        OrderExactly(t, doc, preferredDoc, doc, a, c);
      }
    }
  }

  lemma BeforeTransitive(t: Tree, root: Node, a: Node, b: Node, c: Node)
    requires t.Valid() && t.Has(root) && Before(t, root, a, b) && Before(t, root, b, c)
    ensures Before(t, root, a, c) && a != c
  {
    PreorderSorted(t, root);
    var s := Preorder(t, root);
    forall i, j | 0 <= i < j < |s| ensures s[i] != s[j] { PathLessAsymmetric(Path(t, s[i]), Path(t, s[j])); }
    var i, j :| 0 <= i < j < |s| && s[i] == a && s[j] == b;
    var j', k :| 0 <= j' < k < |s| && s[j'] == b && s[k] == c;
    assert j == j';
  }

  // ---------------------------------------------------------------- uniqueSort

  /** What `results.sort( sortOrder )` leaves: no later entry is in front of an earlier one. */
  ghost predicate Ordered(t: Tree, doc: Node, preferredDoc: Node, s: seq<Node>)
    requires t.Valid()
  {
    && (forall i :: 0 <= i < |s| ==> t.Has(s[i]) && Root(t, s[i]) == doc)
    && (forall i, j :: 0 <= i < j < |s| ==> Order(t, doc, preferredDoc, s[i], s[j]) <= 0)
  }

  predicate IsRepeat(s: seq<Node>, k: nat) { 0 < k < |s| && s[k] == s[k - 1] }

  /** The entries from `c` on that differ from the entry before them. */
  function Tail(s: seq<Node>, c: nat): seq<Node>
    requires c <= |s|
    decreases |s| - c
  {
    if c == |s| then []
    else (if IsRepeat(s, c) then [] else [s[c]]) + Tail(s, c + 1)
  }

  lemma {:induction false} TailSkips(s: seq<Node>, c: nat, d: nat)
    requires c <= d <= |s| && forall k: nat :: c <= k < d ==> !IsRepeat(s, k)
    ensures Tail(s, c) == s[c..d] + Tail(s, d)
    decreases d - c
  {
    if c < d {
      TailSkips(s, c + 1, d);
      ConsSlice(s, c, d, Tail(s, d));
    } else {
      assert s[c..d] == [];
    }
  }

  lemma ConsSlice(s: seq<Node>, c: nat, d: nat, b: seq<Node>)
    requires c < d <= |s|
    ensures [s[c]] + (s[c + 1..d] + b) == s[c..d] + b
  {
  }

  /** `ds` lists, in order, the positions up to `upTo` whose entry repeats the one before. */
  ghost predicate Repeats(s: seq<Node>, ds: seq<nat>, upTo: int) {
    && (forall i :: 0 <= i < |ds| ==> IsRepeat(s, ds[i]) && ds[i] <= upTo)
    && (forall k: nat :: IsRepeat(s, k) && k <= upTo ==> k in ds)
    && (forall i, j :: 0 <= i < j < |ds| ==> ds[i] < ds[j])
  }

  /** The part of `uniqueSort` after the sort, on the `hasDuplicate` path. */
  method UniqueSort(sorted: seq<Node>) returns (results: seq<Node>)
    ensures results == Tail(sorted, 0)
  {
    results := sorted;
    var duplicates: seq<nat>, j, i := [], 0, 0;
    while i < |results|
      invariant 0 <= i <= |sorted| && results == sorted && j == |duplicates|
      invariant Repeats(sorted, duplicates, i)
    {
      var elem := results[i];
      i := i + 1;
      if i < |results| && elem == results[i] {
        duplicates := duplicates + [i];
        j := |duplicates|;
        assert duplicates[j - 1] == i;
      }
    }
    while j > 0
      invariant 0 <= j <= |duplicates|
      invariant var e := Bound(sorted, duplicates, j); e <= |sorted| && results == sorted[..e] + Tail(sorted, e)
    {
      j := j - 1;
      var d := duplicates[j];
      SpliceRepeat(sorted, duplicates, j, results);
      results := results[..d] + results[d + 1..];
    }
    NoneBetween(sorted, duplicates, 0, 0);
    TailSkips(sorted, 0, Bound(sorted, duplicates, 0));
  }

  /** Splicing out a repetition when no other follows before `e`. */
  lemma WithoutRepeat(s: seq<Node>, d: nat, e: nat)
    requires IsRepeat(s, d) && d < e <= |s| && forall k: nat :: d < k < e ==> !IsRepeat(s, k)
    ensures Tail(s, d) == s[d + 1..e] + Tail(s, e)
  {
    TailSkips(s, d + 1, e);
  }

  /** One round of the loop that splices. */
  lemma SpliceRepeat(s: seq<Node>, ds: seq<nat>, j: nat, results: seq<Node>)
    requires Repeats(s, ds, |s|) && j < |ds|
    requires var e := Bound(s, ds, j + 1); e <= |s| && results == s[..e] + Tail(s, e)
    ensures ds[j] == Bound(s, ds, j) < |results|
    ensures results[..ds[j]] + results[ds[j] + 1..] == s[..ds[j]] + Tail(s, ds[j])
  {
    var e := Bound(s, ds, j + 1);
    NoneBetween(s, ds, j + 1, ds[j] + 1);
    WithoutRepeat(s, ds[j], e);
    SpliceOne(s, ds[j], e, Tail(s, e));
  }

  lemma SpliceOne(s: seq<Node>, d: nat, e: nat, b: seq<Node>)
    requires d < e <= |s|
    ensures var r := s[..e] + b; r[..d] + r[d + 1..] == s[..d] + (s[d + 1..e] + b)
  {
  }

  function Bound(s: seq<Node>, ds: seq<nat>, j: nat): nat {
    if j < |ds| then ds[j] else |s|
  }

  /** No repetition lies between two neighbours of the list. */
  lemma NoneBetween(s: seq<Node>, ds: seq<nat>, j: nat, from: nat)
    requires Repeats(s, ds, |s|) && j <= |ds| && from == if j > 0 then ds[j - 1] + 1 else 0
    ensures from <= Bound(s, ds, j) <= |s|
    ensures forall k: nat :: from <= k < Bound(s, ds, j) ==> !IsRepeat(s, k)
  {
    forall k: nat | from <= k < Bound(s, ds, j) ensures !IsRepeat(s, k) {
      assert forall i :: 0 <= i < |ds| ==> ds[i] != k;
    }
    if 0 < j < |ds| { assert ds[j - 1] < ds[j]; }
  }

  /** After sorting and removing duplicates, the list is strictly in document order and has the same elements. */
  lemma UniqueSortCorrect(t: Tree, doc: Node, preferredDoc: Node, sorted: seq<Node>)
    requires t.Valid() && t.Has(doc) && doc !in t.parent && Ordered(t, doc, preferredDoc, sorted)
    ensures var r := Tail(sorted, 0);
            && (forall i, j :: 0 <= i < j < |r| ==> Before(t, doc, r[i], r[j]))
            && (forall x :: x in r <==> x in sorted)
  {
    TailStrict(t, doc, preferredDoc, sorted, 0);
    assert sorted[0..] == sorted;
    var r := Tail(sorted, 0);
    forall x ensures x in r <==> x in sorted { TailHas(sorted, 0, x); }
    forall i, j | 0 <= i < j < |r| ensures Before(t, doc, r[i], r[j]) {
      assert r[i] in r && r[j] in r;
      BeforeIsPathLess(t, doc, r[i], r[j]);
    }
  }

  /** The repeats go and nothing else. */
  lemma {:induction false} TailHas(s: seq<Node>, c: nat, x: Node)
    requires c <= |s|
    ensures x in Tail(s, c) ==> x in s[c..]
    ensures x in s[c..] ==> x in Tail(s, c) || (c > 0 && x == s[c - 1])
    decreases |s| - c
  {
    if c == |s| {
    } else {
      TailHas(s, c + 1, x);
      SliceFirst(s, c);
    }
  }

  /** Every node of `s` comes after `a`. */
  ghost predicate AllAfter(t: Tree, a: Node, s: seq<Node>)
    requires t.Valid() && t.Has(a)
  {
    forall x :: x in s ==> t.Has(x) && PathLess(Path(t, a), Path(t, x))
  }

  lemma {:induction false} TailStrict(t: Tree, doc: Node, preferredDoc: Node, s: seq<Node>, c: nat)
    requires t.Valid() && t.Has(doc) && doc !in t.parent && Ordered(t, doc, preferredDoc, s) && c <= |s|
    ensures c > 0 ==> AllAfter(t, s[c - 1], Tail(s, c))
    ensures Sorted(t, Tail(s, c))
    decreases |s| - c
  {
    if c == |s| {
    } else {
      assert t.Has(s[c]) && (c > 0 ==> t.Has(s[c - 1]));
      hide AllAfter, Sorted, Ordered, Order, Path, PathLess, Root;
      TailStrict(t, doc, preferredDoc, s, c + 1);
      if IsRepeat(s, c) {
        assert Tail(s, c) == Tail(s, c + 1);
      } else {
        SortedCons(t, s[c], Tail(s, c + 1));
        if c > 0 {
          InOrder(t, doc, preferredDoc, s, c - 1, c);
          BeforeAll(t, s[c - 1], s[c], Tail(s, c + 1));
        }
      }
    }
  }

  lemma SliceFirst(s: seq<Node>, c: nat)
    requires c < |s|
    ensures s[c..] == [s[c]] + s[c + 1..]
  {
  }

  lemma BeforeAll(t: Tree, a: Node, b: Node, s: seq<Node>)
    requires t.Valid() && t.Has(a) && t.Has(b) && PathLess(Path(t, a), Path(t, b)) && AllAfter(t, b, s)
    ensures AllAfter(t, a, [b] + s)
  {
    forall x | x in s ensures PathLess(Path(t, a), Path(t, x)) {
      PathLessTransitive(Path(t, a), Path(t, b), Path(t, x));
    }
  }

  lemma SortedCons(t: Tree, x: Node, s: seq<Node>)
    requires t.Valid() && t.Has(x) && Sorted(t, s) && AllAfter(t, x, s)
    ensures Sorted(t, [x] + s)
  {
    SortedAppend(t, [x], s);
  }

  lemma InOrder(t: Tree, doc: Node, preferredDoc: Node, s: seq<Node>, i: nat, j: nat)
    requires t.Valid() && t.Has(doc) && doc !in t.parent && Ordered(t, doc, preferredDoc, s) && i < j < |s|
    ensures s[i] == s[j] || PathLess(Path(t, s[i]), Path(t, s[j]))
  {
    if s[i] != s[j] {
      assert Order(t, doc, preferredDoc, s[i], s[j]) <= 0;
      OrderExactly(t, doc, preferredDoc, doc, s[i], s[j]);
      BeforeIsPathLess(t, doc, s[i], s[j]);
      BeforeIsPathLess(t, doc, s[j], s[i]);
    }
  }
}
