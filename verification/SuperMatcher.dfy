/**
 `superMatcher` with a seed: some groups of the selector are closures over one element, others are set matchers. Their
 matches are merged back into seed order without sorting.
 */
module SuperMatcher {
  import opened Wrappers
  import opened DomTree
  import opened SetMatchers

  /** Condensing without a filter drops the holes and nothing else. */
  lemma {:induction false} CondensedIsPresent(a: seq<Option<Node>>, n: nat)
    requires n <= |a|
    ensures Present(Pick(a, Positions(a, None, n))) == Present(a[..n])
    decreases n
  {
    if n == 0 {
    } else {
      CondensedIsPresent(a, n - 1);
      CondensedStep(a, n - 1, Positions(a, None, n - 1));
      assert Positions(a, None, n) == Positions(a, None, n - 1) + if a[n - 1].Some? then [n - 1] else [];
    }
  }

  lemma CondensedStep(a: seq<Option<Node>>, i: nat, at: seq<nat>)
    requires i < |a| && forall k :: 0 <= k < |at| ==> at[k] < |a|
    requires Present(Pick(a, at)) == Present(a[..i])
    ensures Present(Pick(a, at + if a[i].Some? then [i] else [])) == Present(a[..i + 1])
  {
    FrontSnoc(a, i);
    PresentSnoc(a[..i], a[i]);
    if a[i].Some? {
      PickSnoc(a, at, i);
      PresentSnoc(Pick(a, at), a[i]);
    } else {
      assert at + [] == at;
    }
  }

  lemma FrontSnoc(a: seq<Option<Node>>, i: nat)
    requires i < |a|
    ensures a[..i + 1] == a[..i] + [a[i]]
  {
  }

  lemma PickSnoc(a: seq<Option<Node>>, at: seq<nat>, i: nat)
    requires i < |a| && forall k :: 0 <= k < |at| ==> at[k] < |a|
    ensures Pick(a, at + [i]) == Pick(a, at) + [a[i]]
  {
  }

  // ---------------------------------------------------------------- superMatcher with a seed

  function ElementHits(ms: seq<Filter>, seed: seq<Node>): seq<Node> {
    if |seed| == 0 then []
    else
      var n := seed[|seed| - 1];
      ElementHits(ms, seed[..|seed| - 1]) + if ByElement(ms, n) then [n] else []
  }

  /** The seed elements that an element matcher accepts or a set matcher has moved. */
  function Kept(ms: seq<Filter>, seed: seq<Node>, moved: seq<Option<Node>>): seq<Node>
    requires |moved| == |seed|
  {
    if |seed| == 0 then []
    else
      var k := |seed| - 1;
      Kept(ms, seed[..k], moved[..k]) + if ByElement(ms, seed[k]) || moved[k].Some? then [seed[k]] else []
  }

  function Somes(seed: seq<Node>): (r: seq<Option<Node>>)
    ensures |r| == |seed|
  {
    seq(|seed|, i requires 0 <= i < |seed| => Some(seed[i]))
  }

  /** The two arrays before the set matchers run. */
  function StartOf(ms: seq<Filter>, seed: seq<Node>): (s: Split)
    ensures s.Valid() && |s.matched| == |seed|
  {
    Split(Rest(ms, Somes(seed)), Nones(|seed|))
  }

  /** The set matchers run one after the other on the same two arrays; `stages` are the arrays before and after each. */
  ghost predicate Staged(sms: seq<SetMatcher>, stages: seq<Split>) {
    && |stages| == |sms| + 1
    && (forall k :: 0 <= k < |stages| ==> stages[k].Valid() && |stages[k].matched| == |stages[0].matched|)
    && (forall k :: 0 <= k < |sms| ==> stages[k + 1] == Apply(sms[k], stages[k]))
  }

  /** The post filter of `sm` lets everything pass that is matched so far. */
  ghost predicate Considerate(sm: SetMatcher, s: Split)
    requires s.Valid()
  {
    Safe(sm) || forall i :: 0 <= i < |s.matched| && s.matched[i].Some? ==> i !in Rejected(sm, s)
  }

  lemma {:induction false} StagesStay(sms: seq<SetMatcher>, stages: seq<Split>, k: nat)
    requires Staged(sms, stages) && NothingMatched(stages[0]) && k < |stages|
    ensures OnlyMoves(stages[0], stages[k]) && Disjoint(stages[k])
    decreases k
  {
    if k == 0 {
    } else {
      StagesStay(sms, stages, k - 1);
      ApplyStays(stages[0], sms[k - 1], stages[k - 1]);
    }
  }

  /** The `k`-th set matcher has kept the contract. */
  ghost predicate HonouredAt(stages: seq<Split>, k: nat)
    requires k + 1 < |stages|
  {
    OnlyMoves(stages[k], stages[k + 1])
  }

  /** The contract holds throughout a run exactly when no set matcher filters away what an earlier one matched. */
  lemma ContractThroughout(sms: seq<SetMatcher>, stages: seq<Split>)
    requires Staged(sms, stages) && NothingMatched(stages[0])
    ensures (forall k :: 0 <= k < |sms| ==> HonouredAt(stages, k))
       <==> (forall k :: 0 <= k < |sms| ==> Considerate(sms[k], stages[k]))
  {
    forall k | 0 <= k < |sms| ensures HonouredAt(stages, k) <==> Considerate(sms[k], stages[k]) {
      StagesStay(sms, stages, k);
      if Safe(sms[k]) { SafeKeepsContract(sms[k], stages[k]); } else { ContractExactly(sms[k], stages[k]); }
    }
  }

  /** Then whatever any set matcher has matched is matched in the end: a position counts if someone moved it. */
  lemma {:induction false} AnyonesMatchStays(sms: seq<SetMatcher>, stages: seq<Split>, k: nat, i: nat)
    requires Staged(sms, stages) && NothingMatched(stages[0])
    requires forall j :: 0 <= j < |sms| ==> Considerate(sms[j], stages[j])
    requires k < |stages| && i < |stages[k].matched| && stages[k].matched[i].Some?
    ensures stages[|sms|].matched[i] == stages[k].matched[i]
    decreases |sms| - k
  {
    ContractThroughout(sms, stages);
    if k < |sms| {
      StagesStay(sms, stages, k);
      assert HonouredAt(stages, k);
      AnyonesMatchStays(sms, stages, k + 1, i);
    }
  }

  /** It is enough that all set matchers after the first are safe, which shows before the run. */
  lemma SafeAfterFirst(sms: seq<SetMatcher>, stages: seq<Split>)
    requires Staged(sms, stages) && NothingMatched(stages[0]) && forall k :: 0 < k < |sms| ==> Safe(sms[k])
    ensures forall k, i :: 0 <= k < |stages| && 0 <= i < |stages[k].matched| && stages[k].matched[i].Some? ==>
              stages[|sms|].matched[i] == stages[k].matched[i]
  {
    assert forall k :: 0 <= k < |sms| ==> Considerate(sms[k], stages[k]);
    forall k, i | 0 <= k < |stages| && 0 <= i < |stages[k].matched| && stages[k].matched[i].Some?
      ensures stages[|sms|].matched[i] == stages[k].matched[i]
    {
      AnyonesMatchStays(sms, stages, k, i);
    }
  }

  /**
   The seeded `superMatcher`. `t` is where the set matchers leave their two arrays. They do not run when the element
   matchers have accepted the whole seed, and then `stages` is the start alone.
   */
  method Run(seed: seq<Node>, elementMatchers: seq<Filter>, setMatchers: seq<SetMatcher>, earlier: seq<Node>)
    returns (results: seq<Node>, unmatched: seq<Option<Node>>, t: Split, ghost stages: seq<Split>)
    ensures |t.matched| == |seed| && results == earlier + Kept(elementMatchers, seed, t.matched)
    ensures |setMatchers| > 0 ==> |unmatched| == |seed| && forall i :: 0 <= i < |seed| ==>
              unmatched[i] == if ByElement(elementMatchers, seed[i]) || t.matched[i].Some? then None else Some(seed[i])
    ensures |stages| > 0 && stages[0] == StartOf(elementMatchers, seed) && NothingMatched(stages[0])
    ensures stages[|stages| - 1] == t
    ensures Staged(setMatchers, stages)
            || (|stages| == 1 && forall i :: 0 <= i < |seed| ==> ByElement(elementMatchers, seed[i]))
  {
    var matchedCount: int;
    results, unmatched, matchedCount := RunElements(seed, elementMatchers, |setMatchers| > 0, earlier);
    t := StartOf(elementMatchers, seed);
    stages := [t];
    HitsCount(elementMatchers, seed);
    if |setMatchers| > 0 && (|seed| == 0 || matchedCount != |seed|) {
      t, stages := RunSets(setMatchers, Split(unmatched, Nones(|seed|)));
      StagesStay(setMatchers, stages, |setMatchers|);
      unmatched := t.unmatched;
      results := MergeSets(seed, elementMatchers, earlier, results, matchedCount, t);
    } else {
      KeptByElements(elementMatchers, seed);
    }
  }

  /** The part after the set matchers: the element matches are merged back in, and all is appended in seed order. */
  method MergeSets(seed: seq<Node>, elementMatchers: seq<Filter>, ghost earlier: seq<Node>, stack: seq<Node>,
      matchedCount: int, t: Split)
    returns (results: seq<Node>)
    requires t.Valid() && |t.matched| == |seed| && OnlyMoves(StartOf(elementMatchers, seed), t)
    requires stack == earlier + ElementHits(elementMatchers, seed)
             && matchedCount == |ElementHits(elementMatchers, seed)|
    ensures results == earlier + Kept(elementMatchers, seed, t.matched)
  {
    results := stack;
    var setMatched := t.matched;
    if matchedCount > 0 {
      results, setMatched := Reintegrate(elementMatchers, seed, earlier, results, t);
    } else {
      NoHits(elementMatchers, seed, t.matched);
    }
    assert results == earlier;
    var out, at := Condense(setMatched, None);
    CondensedIsPresent(setMatched, |setMatched|);
    assert out == Pick(setMatched, at) && setMatched[..|setMatched|] == setMatched;
    FullIsKept(elementMatchers, seed, t.matched);
    results := results + Present(out);
  }

  /** The loop over the seed: element matches go straight to the results, the rest to `unmatched`. */
  method RunElements(seed: seq<Node>, elementMatchers: seq<Filter>, bySet: bool, earlier: seq<Node>)
    returns (results: seq<Node>, unmatched: seq<Option<Node>>, matchedCount: int)
    ensures results == earlier + ElementHits(elementMatchers, seed)
    ensures bySet ==>
              unmatched == Rest(elementMatchers, Somes(seed)) && matchedCount == |ElementHits(elementMatchers, seed)|
  {
    results, unmatched, matchedCount := earlier, [], 0;
    var i := 0;
    while i < |seed|
      invariant 0 <= i <= |seed|
      invariant results == earlier + ElementHits(elementMatchers, seed[..i])
      invariant bySet ==>
                  && unmatched == Rest(elementMatchers, Somes(seed[..i]))
                  && matchedCount + i == |ElementHits(elementMatchers, seed[..i])|
    {
      assert seed[..i + 1][..i] == seed[..i];
      var elem := seed[i];
      var hit := AnyMatcher(elementMatchers, elem);
      if hit { results := results + [elem]; }
      if bySet {
        if !hit { matchedCount := matchedCount - 1; }
        unmatched := unmatched + [if hit then None else Some(elem)];
      }
      i := i + 1;
    }
    assert seed[..|seed|] == seed;
    matchedCount := matchedCount + i;
  }

  method RunSets(sms: seq<SetMatcher>, s: Split) returns (t: Split, ghost stages: seq<Split>)
    requires s.Valid() && NothingMatched(s)
    ensures Staged(sms, stages) && stages[0] == s && stages[|sms|] == t
  {
    t, stages := s, [s];
    for j := 0 to |sms|
      invariant Staged(sms[..j], stages) && stages[0] == s && stages[j] == t
      invariant t.Valid() && |t.matched| == |s.matched| && OnlyMoves(s, t)
    {
      ghost var before := t;
      t := RunSet(sms[j], t);
      ApplyStays(s, sms[j], before);
      StagedSnoc(sms[..j], sms[j], stages, t);
      assert sms[..j + 1] == sms[..j] + [sms[j]];
      stages := stages + [t];
    }
    assert sms[..|sms|] == sms;
  }

  lemma {:induction false} StagedSnoc(sms: seq<SetMatcher>, sm: SetMatcher, stages: seq<Split>, t: Split)
    requires Staged(sms, stages) && t == Apply(sm, stages[|sms|]) && t.Valid() && |t.matched| == |stages[0].matched|
    ensures Staged(sms + [sm], stages + [t])
  {
  }

  /** `setMatched[i] = pop.call( results )` wherever nothing else claims the position, from the last one. */
  method Reintegrate(ghost ms: seq<Filter>, ghost seed: seq<Node>, ghost earlier: seq<Node>, stack: seq<Node>, t: Split)
    returns (results: seq<Node>, setMatched: seq<Option<Node>>)
    requires t.Valid() && |t.matched| == |seed| && OnlyMoves(StartOf(ms, seed), t)
    requires stack == earlier + ElementHits(ms, seed)
    ensures results == earlier && setMatched == Full(ms, seed, t.matched)
  {
    results, setMatched := stack, t.matched;
    var i := |t.matched|;
    assert seed[..i] == seed;
    while i > 0
      invariant 0 <= i <= |seed| == |setMatched|
      invariant results == earlier + ElementHits(ms, seed[..i])
      invariant forall k :: 0 <= k < |seed| ==> setMatched[k] == if k < i then t.matched[k]
                else Full(ms, seed, t.matched)[k]
    {
      i := i - 1;
      assert seed[..i + 1][..i] == seed[..i];
      if t.unmatched[i].None? && setMatched[i].None? {
        setMatched := setMatched[i := Some(results[|results| - 1])];
        results := results[..|results| - 1];
      }
    }
  }

  function Full(ms: seq<Filter>, seed: seq<Node>, moved: seq<Option<Node>>): seq<Option<Node>>
    requires |moved| == |seed|
  {
    seq(|seed|, i requires 0 <= i < |seed| => if ByElement(ms, seed[i]) then Some(seed[i]) else moved[i])
  }

  lemma {:induction false} HitsCount(ms: seq<Filter>, seed: seq<Node>)
    ensures |ElementHits(ms, seed)| <= |seed|
    ensures |ElementHits(ms, seed)| == |seed| <==> forall i :: 0 <= i < |seed| ==> ByElement(ms, seed[i])
    ensures |ElementHits(ms, seed)| == 0 <==> forall i :: 0 <= i < |seed| ==> !ByElement(ms, seed[i])
    decreases |seed|
  {
    if |seed| == 0 {
    } else {
      var init := seed[..|seed| - 1];
      HitsCount(ms, init);
      assert forall i :: 0 <= i < |init| ==> init[i] == seed[i];
    }
  }

  lemma NoHits(ms: seq<Filter>, seed: seq<Node>, moved: seq<Option<Node>>)
    requires |moved| == |seed| && |ElementHits(ms, seed)| == 0
    ensures Full(ms, seed, moved) == moved && ElementHits(ms, seed) == []
  {
    HitsCount(ms, seed);
  }

  /** Condensing the reintegrated array gives the kept elements in seed order. */
  lemma {:induction false} FullIsKept(ms: seq<Filter>, seed: seq<Node>, moved: seq<Option<Node>>)
    requires |moved| == |seed| && forall i :: 0 <= i < |seed| && moved[i].Some? ==> moved[i].value == seed[i]
    ensures Present(Full(ms, seed, moved)) == Kept(ms, seed, moved)
    decreases |seed|
  {
    if |seed| == 0 {
    } else {
      var k := |seed| - 1;
      FullIsKept(ms, seed[..k], moved[..k]);
      assert Full(ms, seed, moved)[..k] == Full(ms, seed[..k], moved[..k]);
    }
  }

  lemma {:induction false} KeptByElements(ms: seq<Filter>, seed: seq<Node>)
    ensures Kept(ms, seed, Nones(|seed|)) == ElementHits(ms, seed)
    decreases |seed|
  {
    if |seed| == 0 {
    } else {
      var k := |seed| - 1;
      KeptByElements(ms, seed[..k]);
      assert Nones(|seed|)[..k] == Nones(k);
    }
  }
}
