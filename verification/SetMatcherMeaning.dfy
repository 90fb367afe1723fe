/**
 Which entries a set matcher moves, said entry by entry: an entry must pass the pre filter, be picked by the matching
 function at its place among those that do, and pass the post filter.
 */
module SetMatcherMeaning {
  import opened Wrappers
  import opened DomTree
  import opened SetMatchers

  // ---------------------------------------------------------------- positions

  /** Each positional pseudo in terms of the others, or of plain arithmetic. Negative arguments count from the end. */
  lemma PositionsMean(len: nat, j: nat, a: int)
    requires j < len
    ensures Picks(First, len, j) <==> Picks(Eq(Num(0, true)), len, j)
    ensures Picks(Last, len, j) <==> Picks(Eq(Num(-1, true)), len, j)
    ensures Picks(Even, len, j) <==> exists k :: j == 2 * k
    ensures Picks(Even, len, j) <==> !Picks(Odd, len, j)
    ensures a >= 0 ==> (Picks(Eq(Num(a, true)), len, j) <==> j == a)
    ensures a >= 0 ==> (Picks(Lt(Num(a, true)), len, j) <==> j < a) && (Picks(Gt(Num(a, true)), len, j) <==> j > a)
    ensures a < 0 ==>
              && (Picks(Eq(Num(a, true)), len, j) <==> j == len + a)
              && (Picks(Lt(Num(a, true)), len, j) <==> j < len + a)
              && (Picks(Gt(Num(a, true)), len, j) <==> j > len + a)
    ensures forall x :: x == NaN || x == Num(a, false) ==>
              !Picks(Eq(x), len, j) && !Picks(Lt(x), len, j) && !Picks(Gt(x), len, j)
  {
    if Picks(Even, len, j) { assert j == 2 * (j / 2); }
  }

  // ---------------------------------------------------------------- the negation

  /** The entries no element matcher accepts. */
  function Unaccepted(ems: seq<Filter>, a: seq<Option<Node>>): (r: seq<Option<Node>>)
    ensures |r| == |a|
    ensures forall j :: 0 <= j < |a| ==>
              r[j] == if a[j].Some? && (exists m :: m in ems && m(a[j].value)) then None else a[j]
  {
    Rest(ems, a)
  }

  /** `:not` picks what no element matcher of its argument accepts and no set matcher of it moves. */
  lemma NotExactly(ems: seq<Filter>, sms: seq<SetMatcher>, a: seq<Option<Node>>, j: nat)
    requires j < |a|
    ensures var s := Split(Unaccepted(ems, a), Nones(|a|));
            j in CorePicks(Not(ems, sms), a) <==>
              && a[j].Some? && !(exists m :: m in ems && m(a[j].value))
              && ApplyAll(sms, s).matched[j] == None
  {
    var rest := Rest(ems, a);
    var s := Split(rest, Nones(|a|));
    AllStay(s, sms, s);
    if forall i :: 0 <= i < |rest| ==> rest[i] == None {
      assert Left(sms, rest) == rest;
    } else {
      assert Left(sms, rest) == ApplyAll(sms, s).unmatched;
    }
  }

  /** With element matchers alone. */
  lemma NotElements(ems: seq<Filter>, a: seq<Option<Node>>, j: nat)
    requires j < |a|
    ensures j in CorePicks(Not(ems, []), a) <==> a[j].Some? && !(exists m :: m in ems && m(a[j].value))
  {
    NotExactly(ems, [], a, j);
  }

  // ---------------------------------------------------------------- the post filter

  /** The entries that are there. */
  function Packed(a: seq<Option<Node>>): seq<Option<Node>> { Passing(a, None) }

  /** The entries that are there and pass, in order. */
  function Passing(a: seq<Option<Node>>, f: Option<Filter>): seq<Option<Node>> {
    if |a| == 0 then []
    else
      var x := a[|a| - 1];
      Passing(a[..|a| - 1], f) + if x.Some? && (f.Some? ==> f.value(x.value)) then [x] else []
  }

  /** The post filter lets entry `k` of the matches pass: the closure holds of it, or the set matcher moves it. */
  ghost predicate Lets(post: Option<Post>, m: seq<Option<Node>>, k: nat)
    requires k < |m|
  {
    match post
    case None => true
    case Some(Elem(f)) => m[k].Some? && f(m[k].value)
    case Some(Set(sm)) =>
      var t, rank := Apply(sm, Split(Packed(m), Nones(|Packed(m)|))), |Packed(m[..k])|;
      rank < |t.matched| && t.matched[rank].Some?
  }

  lemma {:induction false} PassingIsPick(a: seq<Option<Node>>, f: Option<Filter>, n: nat)
    requires n <= |a|
    ensures Passing(a[..n], f) == Pick(a, Positions(a, f, n))
    decreases n
  {
    if n == 0 {
    } else {
      PassingIsPick(a, f, n - 1);
      assert a[..n][..n - 1] == a[..n - 1] && a[..n][n - 1] == a[n - 1];
      assert Pick(a, Positions(a, f, n))
          == Pick(a, Positions(a, f, n - 1)) + if a[n - 1].Some? && Passes(f, a[n - 1].value) then [a[n - 1]] else [];
    }
  }

  lemma {:induction false} RankOf(a: seq<Option<Node>>, f: Option<Filter>, n: nat, i: nat)
    requires i < n <= |a| && a[i].Some? && Passes(f, a[i].value)
    ensures var at, k := Positions(a, f, n), |Passing(a[..i], f)|; k < |at| && at[k] == i
    decreases n
  {
    if i < n - 1 {
      RankOf(a, f, n - 1, i);
    } else {
      PassingIsPick(a, f, i);
    }
  }

  /** The matches a post filter sends back are exactly those it does not let pass. */
  lemma FailingExactly(m: seq<Option<Node>>, post: Option<Post>, k: nat)
    requires k < |m|
    ensures k in Failing(m, post) <==> m[k].Some? && !Lets(post, m, k)
  {
    if post.Some? {
      var at := Positions(m, None, |m|);
      PassingIsPick(m, None, |m|);
      assert m[..|m|] == m;
      PositionsIncrease(m, None, |m|);
      var left := Standing(post.value, Pick(m, at));
      if m[k].Some? {
        var rank := |Packed(m[..k])|;
        RankOf(m, None, |m|, k);
        assert forall l :: 0 <= l < |at| && at[l] == k ==> l == rank;
        assert k in Failing(m, post) <==> left[rank].Some?;
        if post.value.Set? { SetPasses(post.value.sm, Packed(m), rank); }
      }
    }
  }

  lemma SetPasses(sm: SetMatcher, temp: seq<Option<Node>>, rank: nat)
    requires rank < |temp| && temp[rank].Some?
    ensures var t := Apply(sm, Split(temp, Nones(|temp|))); t.unmatched[rank].Some? <==> t.matched[rank] == None
  {
    var s := Split(temp, Nones(|temp|));
    assert OnlyMoves(s, s);
    ApplyStays(s, sm, s);
  }

  // ---------------------------------------------------------------- what moves

  /** The array the matching function works on: the seed, or what passes the pre filter. */
  function Input(sm: SetMatcher, u: seq<Option<Node>>): seq<Option<Node>> {
    if sm.pre.None? then u else Passing(u, sm.pre)
  }

  /** The place of entry `i` in that array. */
  function Place(sm: SetMatcher, u: seq<Option<Node>>, i: nat): nat
    requires i < |u|
  {
    if sm.pre.None? then i else |Passing(u[..i], sm.pre)|
  }

  /** What the matching function takes of an array. */
  function Taken(core: Core, a: seq<Option<Node>>): (r: seq<Option<Node>>)
    ensures |r| == |a|
  {
    seq(|a|, k requires 0 <= k < |a| => if k in CorePicks(core, a) then a[k] else None)
  }

  /**
   Entry `i` of the seed is one for this set matcher: it is there and passes the pre filter, the matching function picks
   it at its place, and the post filter lets it pass.
   */
  ghost predicate Chosen(sm: SetMatcher, u: seq<Option<Node>>, i: nat)
    requires i < |u|
  {
    && u[i].Some? && (sm.pre.Some? ==> sm.pre.value(u[i].value))
    && var a, k := Input(sm, u), Place(sm, u, i);
       k in CorePicks(sm.core, a) && k < |a| && Lets(sm.post, Taken(sm.core, a), k)
  }

  lemma InputPicks(sm: SetMatcher, u: seq<Option<Node>>)
    ensures Input(sm, u) == Pick(u, InputAt(sm, u))
  {
    if sm.pre.Some? {
      PassingIsPick(u, sm.pre, |u|);
      assert u[..|u|] == u;
    } else {
      assert u == Pick(u, InputAt(sm, u));
    }
  }

  /** An intermediate match. */
  lemma InnerExactly(sm: SetMatcher, u: seq<Option<Node>>, k: nat)
    requires k < |InputAt(sm, u)|
    ensures var a, inner := Input(sm, u), InnerMatches(sm, u);
            && |a| == |inner|
            && inner[k] == if k in CorePicks(sm.core, a) && a[k].Some? && Lets(sm.post, Taken(sm.core, a), k) then a[k]
                           else None
  {
    InputPicks(sm, u);
    var a := Input(sm, u);
    var moved := Move(Split(a, Nones(|a|)), CorePicks(sm.core, a));
    assert moved.matched == Taken(sm.core, a);
    FailingExactly(moved.matched, sm.post, k);
  }

  lemma PlaceExactly(sm: SetMatcher, u: seq<Option<Node>>, i: nat, k: nat)
    requires i < |u| && u[i].Some? && k < |InputAt(sm, u)|
    ensures InputAt(sm, u)[k] == i ==> (sm.pre.Some? ==> sm.pre.value(u[i].value)) && k == Place(sm, u, i)
    ensures (sm.pre.Some? ==> sm.pre.value(u[i].value)) && k == Place(sm, u, i) ==> InputAt(sm, u)[k] == i
  {
    if sm.pre.Some? && sm.pre.value(u[i].value) {
      RankOf(u, sm.pre, |u|, i);
      PositionsIncrease(u, sm.pre, |u|);
    }
  }

  lemma PlaceInRange(sm: SetMatcher, u: seq<Option<Node>>, i: nat)
    requires i < |u| && u[i].Some? && (sm.pre.Some? ==> sm.pre.value(u[i].value))
    ensures Place(sm, u, i) < |InputAt(sm, u)|
  {
    if sm.pre.Some? { RankOf(u, sm.pre, |u|, i); }
  }

  /** The intermediate match at some place is entry `i`, exactly if entry `i` is chosen. */
  lemma ChosenIsInner(sm: SetMatcher, u: seq<Option<Node>>, i: nat)
    requires i < |u|
    ensures Chosen(sm, u, i) <==> InnerAt(sm, u, i)
  {
    InputPicks(sm, u);
    if u[i].Some? {
      if k :| 0 <= k < |InputAt(sm, u)| && InputAt(sm, u)[k] == i && InnerMatches(sm, u)[k].Some? {
        PlaceExactly(sm, u, i, k);
        InnerExactly(sm, u, k);
      }
      if Chosen(sm, u, i) {
        PlaceInRange(sm, u, i);
        PlaceExactly(sm, u, i, Place(sm, u, i));
        InnerExactly(sm, u, Place(sm, u, i));
      }
    } else if k :| 0 <= k < |InputAt(sm, u)| && InputAt(sm, u)[k] == i && InnerMatches(sm, u)[k].Some? {
      InnerExactly(sm, u, k);
    }
  }

  ghost predicate InnerAt(sm: SetMatcher, u: seq<Option<Node>>, i: nat) {
    exists k :: 0 <= k < |InputAt(sm, u)| && InputAt(sm, u)[k] == i && InnerMatches(sm, u)[k].Some?
  }

  /** With a pre filter and no post finder exactly the chosen entries move, each at its own index. */
  lemma PreFiltered(sm: SetMatcher, s: Split, i: nat)
    requires s.Valid() && sm.pre.Some? && sm.finder.None? && i < |s.unmatched|
    ensures var t := Apply(sm, s);
            if Chosen(sm, s.unmatched, i) then t.unmatched[i] == None && t.matched[i] == s.unmatched[i]
            else t.unmatched[i] == s.unmatched[i] && t.matched[i] == s.matched[i]
  {
    ChosenIsInner(sm, s.unmatched, i);
    var at, inner := InputAt(sm, s.unmatched), InnerMatches(sm, s.unmatched);
    var sel := set k | 0 <= k < |at| && inner[k].Some? :: at[k];
    assert i in sel <==> InnerAt(sm, s.unmatched, i);
    assert Apply(sm, s) == Move(s, sel);
  }

  /** `div:first.foo` on two divs of which only the second has the class: nothing is matched. */
  lemma FirstIsRejected(div: Filter, foo: Filter)
    requires div(1) && div(2) && !foo(1) && foo(2)
    ensures var sm := SetMatcher(Some(div), Positional(First), Some(Elem(foo)), None);
            Apply(sm, Split([Some(1), Some(2)], [None, None])).matched == [None, None]
  {
    var sm := SetMatcher(Some(div), Positional(First), Some(Elem(foo)), None);
    var s := Split([Some(1), Some(2)], [None, None]);
    assert s.unmatched[..0] == [] && s.unmatched[..1] == [Some(1)] && [Some(1)][..0] == [];
    assert Passing([Some(1)], Some(div)) == [] + [Some(1)] == [Some(1)];
    PreFiltered(sm, s, 0);
    PreFiltered(sm, s, 1);
  }

  /** A function a user has marked moves what it picks, and what it picks only. */
  lemma MarkedMoves(picks: seq<Option<Node>> -> set<nat>, s: Split, i: nat)
    requires s.Valid() && i < |s.unmatched|
    ensures var t := Apply(SetMatcher(None, Marked(picks), None, None), s);
            if i in picks(s.unmatched) && s.unmatched[i].Some?
            then t.unmatched[i] == None && t.matched[i] == s.unmatched[i]
            else t.unmatched[i] == s.unmatched[i] && t.matched[i] == s.matched[i]
  {
    var sm := SetMatcher(None, Marked(picks), None, None);
    DirectApply(sm, s);
  }

  /** Without pre filter and post finder: what is picked, or was matched before, is matched if it passes. */
  lemma Direct(sm: SetMatcher, s: Split, i: nat)
    requires s.Valid() && sm.pre.None? && sm.finder.None? && i < |s.unmatched|
    ensures var t := Apply(sm, s);
            var m := Move(s, CorePicks(sm.core, s.unmatched)).matched;
            && m[i] == (if i in CorePicks(sm.core, s.unmatched) && s.unmatched[i].Some? then s.unmatched[i]
                        else s.matched[i])
            && t.matched[i] == if Lets(sm.post, m, i) then m[i] else None
  {
    DirectApply(sm, s);
    FailingExactly(Move(s, CorePicks(sm.core, s.unmatched)).matched, sm.post, i);
  }

  /** The chosen elements below `n`, in order. */
  ghost function ChosenOnes(sm: SetMatcher, u: seq<Option<Node>>, n: nat): seq<Node>
    requires n <= |u|
  {
    if n == 0 then []
    else ChosenOnes(sm, u, n - 1) + if Chosen(sm, u, n - 1) then [u[n - 1].value] else []
  }

  function Reversed<T>(s: seq<T>): seq<T> { if |s| == 0 then [] else Reversed(s[1..]) + [s[0]] }

  lemma {:induction false} BackwardsIsReversed(a: seq<Option<Node>>)
    ensures Backwards(a) == Reversed(Present(a))
    decreases |a|
  {
    if |a| == 0 {
    } else {
      BackwardsIsReversed(a[1..]);
      PresentFirst(a);
      if a[0].Some? { assert ([a[0].value] + Present(a[1..]))[1..] == Present(a[1..]); }
      else { assert [] + Present(a[1..]) == Present(a[1..]); }
    }
  }

  lemma {:induction false} PresentFirst(a: seq<Option<Node>>)
    requires |a| > 0
    ensures Present(a) == (if a[0].Some? then [a[0].value] else []) + Present(a[1..])
    decreases |a|
  {
    if |a| == 1 {
      assert a[..0] == [] && a[1..] == [];
    } else {
      var front := a[..|a| - 1];
      PresentFirst(front);
      assert front[1..] == a[1..][..|a| - 2] && a[1..][|a| - 2] == a[|a| - 1];
      Regroup(if a[0].Some? then [a[0].value] else [], Present(front[1..]),
              if a[|a| - 1].Some? then [a[|a| - 1].value] else []);
    }
  }

  /** Entry `n - 1` adds a place, with the entry in it if that is chosen, or no place. */
  lemma OneInnerMore(sm: SetMatcher, u: seq<Option<Node>>, n: nat)
    requires 0 < n <= |u|
    ensures Places(sm, u, n) <= |InnerMatches(sm, u)|
    ensures var k, inner := Places(sm, u, n - 1), InnerMatches(sm, u);
            if Places(sm, u, n) == k then !Chosen(sm, u, n - 1)
            else
              && (Chosen(sm, u, n - 1) ==> u[n - 1].Some?)
              && Places(sm, u, n) == k + 1
              && inner[k] == if Chosen(sm, u, n - 1) then u[n - 1] else None
  {
    hide InnerMatches, CorePicks, Lets, Taken, Passing, Positions, Pick;
    OnePlaceMore(sm, u, n);
    InputPicks(sm, u);
    var k := Places(sm, u, n - 1);
    if Places(sm, u, n) == k + 1 { InnerExactly(sm, u, k); }
  }

  /** The intermediate matches up to the place of entry `n` are the chosen elements below `n`. */
  ghost predicate InOrder(sm: SetMatcher, u: seq<Option<Node>>, n: nat)
    requires n <= |u|
  {
    var inner, k := InnerMatches(sm, u), Places(sm, u, n);
    k <= |inner| && Present(inner[..k]) == ChosenOnes(sm, u, n)
  }

  lemma {:induction false} InnerInOrder(sm: SetMatcher, u: seq<Option<Node>>, n: nat)
    requires n <= |u|
    ensures InOrder(sm, u, n)
    decreases n
  {
    hide InOrder;
    if n == 0 {
      NoneInOrder(sm, u);
    } else {
      InnerInOrder(sm, u, n - 1);
      OneInOrder(sm, u, n);
    }
  }

  lemma NoneInOrder(sm: SetMatcher, u: seq<Option<Node>>)
    ensures InOrder(sm, u, 0)
  {
    hide InnerMatches, Chosen;
    assert u[..0] == [] && InnerMatches(sm, u)[..0] == [];
  }

  lemma OneInOrder(sm: SetMatcher, u: seq<Option<Node>>, n: nat)
    requires 0 < n <= |u| && InOrder(sm, u, n - 1)
    ensures InOrder(sm, u, n)
  {
    hide InnerMatches, Chosen, Places, Present;
    OneInnerMore(sm, u, n);
    var x := if Chosen(sm, u, n - 1) then u[n - 1] else None;
    OneEntryMore(InnerMatches(sm, u), Places(sm, u, n - 1), Places(sm, u, n), x);
  }

  lemma OneEntryMore(a: seq<Option<Node>>, k: nat, l: nat, x: Option<Node>)
    requires k <= |a| && if l == k then x.None? else l == k + 1 <= |a| && a[k] == x
    ensures Present(a[..l]) == Present(a[..k]) + if x.Some? then [x.value] else []
  {
    if l > k {
      assert a[..l] == a[..k] + [a[k]];
      PresentSnoc(a[..k], a[k]);
    }
  }

  /** How many places of the input are taken by entries below `n`. */
  function Places(sm: SetMatcher, u: seq<Option<Node>>, n: nat): nat
    requires n <= |u|
  {
    if sm.pre.None? then n else |Passing(u[..n], sm.pre)|
  }

  lemma OnePlaceMore(sm: SetMatcher, u: seq<Option<Node>>, n: nat)
    requires 0 < n <= |u|
    ensures var k := Places(sm, u, n - 1);
            && k == Place(sm, u, n - 1)
            && Places(sm, u, n) <= |InputAt(sm, u)|
            && (if sm.pre.None? || (u[n - 1].Some? && sm.pre.value(u[n - 1].value))
                then Places(sm, u, n) == k + 1 && InputAt(sm, u)[k] == n - 1
                else Places(sm, u, n) == k)
  {
    if sm.pre.Some? {
      assert u[..n][..n - 1] == u[..n - 1] && u[..n][n - 1] == u[n - 1];
      PlacesInRange(u, sm.pre, n, |u|);
      if u[n - 1].Some? && sm.pre.value(u[n - 1].value) { RankOf(u, sm.pre, |u|, n - 1); }
    }
  }

  lemma {:induction false} PlacesInRange(u: seq<Option<Node>>, f: Option<Filter>, n: nat, top: nat)
    requires n <= top <= |u|
    ensures |Passing(u[..n], f)| <= |Positions(u, f, top)|
    decreases top
  {
    if n == top { PassingIsPick(u, f, n); } else { PlacesInRange(u, f, n, top - 1); }
  }

  /** With a post finder: the finder is asked for the chosen elements, the last one first, and what it finds moves. */
  lemma FinderAsked(sm: SetMatcher, s: Split)
    requires s.Valid() && sm.finder.Some?
    ensures Apply(sm, s) == Fetched(s, sm.finder.value(Reversed(ChosenOnes(sm, s.unmatched, |s.unmatched|))))
  {
    var u, inner := s.unmatched, InnerMatches(sm, s.unmatched);
    InnerInOrder(sm, u, |u|);
    InputPicks(sm, u);
    assert Places(sm, u, |u|) == |inner| by { assert u[..|u|] == u; }
    assert inner[..|inner|] == inner;
    BackwardsIsReversed(inner);
  }
}
