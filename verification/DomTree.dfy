/**
 The document a selector is matched against: a finite set of nodes with the links the engine follows
 (`parentNode`, `previousSibling`, `nextSibling`, `firstChild`, `lastChild`, `childNodes`).
 */
module DomTree {
  import opened Wrappers

  type Node = nat

  /** `nodeType === 1` carries a node name; documents, fragments, text and comments do not matter further. */
  datatype Kind = Element | NonElement

  /** The two directions `addCombinator` walks in. */
  datatype Dir = ParentNode | PreviousSibling

  /**
   `kids` is `childNodes`; `parent` and `index` say where a node hangs. `depth` and `limit` exist in every
   finite tree and only serve termination.
   */
  datatype Tree = Tree(
    kids: map<Node, seq<Node>>,
    parent: map<Node, Node>,
    index: map<Node, nat>,
    kind: map<Node, Kind>,
    name: map<Node, string>,
    depth: map<Node, nat>,
    limit: nat)
  {
    ghost predicate Valid() {
      && kind.Keys == name.Keys == depth.Keys == kids.Keys
      && parent.Keys == index.Keys
      && parent.Keys <= kids.Keys
      && (forall n :: n in depth ==> depth[n] <= limit)
      && (forall n :: n in parent ==> HangsRight(n))
      && (forall p :: p in kids ==> forall i :: 0 <= i < |kids[p]| ==> IsKid(kids[p][i], p, i))
    }

    ghost predicate HangsRight(n: Node)
      requires parent.Keys == index.Keys && depth.Keys == kids.Keys && parent.Keys <= kids.Keys
      requires n in parent
    {
      var p := parent[n];
      p in kids && index[n] < |kids[p]| && kids[p][index[n]] == n && depth[n] == depth[p] + 1
    }

    ghost predicate IsKid(n: Node, p: Node, i: nat)
      requires parent.Keys == index.Keys
    {
      n in parent && parent[n] == p && index[n] == i
    }

    predicate Has(n: Node) { n in kids }

    predicate IsElement(n: Node)
      requires n in kind
    {
      kind[n] == Element
    }

    function Parent(n: Node): (r: Option<Node>)
      requires Valid() && Has(n)
      ensures r.Some? ==> Has(r.value) && depth[r.value] < depth[n]
    {
      if n in parent then Some(parent[n]) else None
    }

    function Previous(n: Node): (r: Option<Node>)
      requires Valid() && Has(n)
      ensures r.Some? ==>
                && n in parent && index[n] > 0 && IsKid(r.value, parent[n], index[n] - 1)
                && Has(r.value)
    {
      if n in parent && index[n] > 0 then
        assert IsKid(kids[parent[n]][index[n] - 1], parent[n], index[n] - 1);
        Some(kids[parent[n]][index[n] - 1])
      else None
    }

    function Next(n: Node): (r: Option<Node>)
      requires Valid() && Has(n)
      ensures r.Some? ==>
                && n in parent && IsKid(r.value, parent[n], index[n] + 1)
                && Has(r.value)
    {
      if n in parent && index[n] + 1 < |kids[parent[n]]| then
        assert IsKid(kids[parent[n]][index[n] + 1], parent[n], index[n] + 1);
        Some(kids[parent[n]][index[n] + 1])
      else None
    }

    /** One step of `elem = elem[ dir ]`. */
    function Step(dir: Dir, n: Node): (r: Option<Node>)
      requires Valid() && Has(n)
      ensures r.Some? ==> Has(r.value) && Left(dir, r.value) < Left(dir, n)
    {
      match dir
      case ParentNode => Parent(n)
      case PreviousSibling => Previous(n)
    }

    /** How many steps a walk along `dir` can still take. */
    function Left(dir: Dir, n: Node): nat
      requires Valid() && Has(n)
    {
      match dir
      case ParentNode => depth[n]
      case PreviousSibling => if n in parent then index[n] else 0
    }

    /** The node `k` generations above `n`. */
    ghost function Up(n: Node, k: nat): (r: Option<Node>)
      requires Valid() && Has(n)
      ensures r.Some? ==> Has(r.value) && depth[r.value] + k == depth[n]
      decreases k
    {
      if k == 0 then Some(n)
      else if n in parent then Up(parent[n], k - 1)
      else None
    }

    ghost predicate IsAncestor(a: Node, n: Node)
      requires Valid() && Has(n)
    {
      exists k: nat :: k > 0 && Up(n, k) == Some(a)
    }

    ghost predicate PrecedesSibling(a: Node, n: Node)
      requires Valid()
    {
      a in parent && n in parent && parent[a] == parent[n] && index[a] < index[n]
    }

    /** `m` lies on the axis of `n` that `dir` walks along. */
    ghost predicate OnAxis(dir: Dir, m: Node, n: Node)
      requires Valid() && Has(n)
    {
      match dir
      case ParentNode => IsAncestor(m, n)
      case PreviousSibling => PrecedesSibling(m, n)
    }

    /** Pointer steps enumerate the axis: the next node, then the axis of the next node. */
    lemma AxisStep(dir: Dir, m: Node, n: Node)
      requires Valid() && Has(n)
      ensures OnAxis(dir, m, n) <==>
              var p := Step(dir, n);
              p.Some? && (m == p.value || OnAxis(dir, m, p.value))
      ensures OnAxis(dir, m, n) ==> Has(m) && Left(dir, m) < Left(dir, n)
    {
      match dir
      case ParentNode =>
        if IsAncestor(m, n) {
          var k: nat :| k > 0 && Up(n, k) == Some(m);
          assert n in parent && Up(parent[n], k - 1) == Some(m);
          if k > 1 { assert IsAncestor(m, parent[n]); }
        }
        if n in parent {
          var p := parent[n];
          assert Up(p, 0) == Some(p) && Up(n, 1) == Some(p);
          if IsAncestor(m, p) {
            var k: nat :| k > 0 && Up(p, k) == Some(m);
            assert Up(n, k + 1) == Some(m);
          }
        }
      case PreviousSibling =>
        if n in parent && index[n] > 0 {
          var p := kids[parent[n]][index[n] - 1];
          assert IsKid(p, parent[n], index[n] - 1);
          if m in parent && parent[m] == parent[n] && index[m] == index[p] {
            assert HangsRight(m);
          }
        }
    }

    lemma AxisTransitive(dir: Dir, a: Node, b: Node, c: Node)
      requires Valid() && Has(c) && OnAxis(dir, b, c) && Has(b) && OnAxis(dir, a, b)
      ensures OnAxis(dir, a, c)
      decreases Left(dir, c)
    {
      AxisStep(dir, b, c);
      var p := Step(dir, c).value;
      AxisStep(dir, a, c);
      if b != p { AxisTransitive(dir, a, b, p); }
    }
  }
}
