/**
 What the operations of a callback list do between passes: what is left of the list, and what the next fire call makes
 of it.
 */
module CallbackOutside {
  import opened Wrappers
  import opened Callbacks
  import opened CallbackPasses

  // ---------------------------------------------------------------- add

  ghost predicate Distinct<F>(s: seq<F>) { forall i, j :: 0 <= i < j < |s| ==> s[i] != s[j] }

  /** Without `unique` all functions are added; with it, each that is not there yet, once, in the order given. */
  lemma {:induction false} FreshMeans<F>(o: Options, list: seq<F>, fs: seq<F>)
    ensures !o.unique ==> Fresh(o, list, fs) == fs
    ensures o.unique ==> forall x :: x in Fresh(o, list, fs) <==> x in fs && x !in list
    ensures o.unique ==> Distinct(Fresh(o, list, fs))
    ensures Subsequence(Fresh(o, list, fs), fs)
    decreases |fs|
  {
    if |fs| == 0 {
    } else if o.unique && fs[0] in list {
      FreshMeans(o, list, fs[1..]);
      assert forall x :: x in fs <==> x == fs[0] || x in fs[1..];
    } else {
      var rest := Fresh(o, list + [fs[0]], fs[1..]);
      FreshMeans(o, list + [fs[0]], fs[1..]);
      assert ([fs[0]] + rest)[1..] == rest && fs == [fs[0]] + fs[1..];
      assert o.unique ==> fs[0] !in rest;
    }
  }

  /** On a list without remembered data `add` appends and calls nothing. */
  lemma AddOutside<F, D>(o: Options, s: Outcome<F, D>, fs: seq<F>)
    requires Idle(s.c) && s.c.list.Some? && s.c.memory.None?
    ensures var list := s.c.list.value;
            Outside(o, s, Add(fs)) == s.(c := s.c.(list := Some(list + Fresh(o, list, fs))))
  {
    ExtendIsFresh(o, s.c.list.value, fs);
  }

  // ---------------------------------------------------------------- remove

  lemma {:induction false} OthersStay<F>(s: seq<F>, f: F, g: F)
    requires g != f
    ensures multiset(Without(s, f))[g] == multiset(s)[g] && multiset(Without(s, f))[f] == 0
    decreases |s|
  {
    if |s| == 0 {
    } else {
      OthersStay(s[1..], f, g);
      HeadCounts(s, g);
      HeadCounts([s[0]] + Without(s[1..], f), g);
      assert ([s[0]] + Without(s[1..], f))[1..] == Without(s[1..], f);
    }
  }

  lemma {:induction false} NotIn<F>(s: seq<F>, f: F)
    ensures f !in Without(s, f)
    decreases |s|
  {
    if |s| == 0 {
    } else {
      NotIn(s[1..], f);
    }
  }

  /** Removal takes every occurrence of the function, leaves the others as they stand, and changes nothing else. */
  lemma RemoveOutside<F(!new), D>(o: Options, s: Outcome<F, D>, f: F)
    requires Idle(s.c) && s.c.list.Some?
    ensures var r := Outside(o, s, Remove(f));
            && r.c.list.Some? && r == s.(c := s.c.(list := r.c.list))
            && f !in r.c.list.value
            && (forall g :: g != f ==> multiset(r.c.list.value)[g] == multiset(s.c.list.value)[g])
            && Subsequence(r.c.list.value, s.c.list.value)
  {
    var list := s.c.list.value;
    NotIn(list, f);
    WithoutIsSubsequence(list, f);
    forall g | g != f ensures multiset(Without(list, f))[g] == multiset(list)[g] { OthersStay(list, f, g); }
  }

  ghost predicate ListIn<F, D>(c: Cb<F, D>, fs: set<F>) {
    c.list.Some? ==> forall x :: x in c.list.value ==> x in fs
  }

  lemma OpKeepsIn<F, D>(o: Options, c: Cb<F, D>, op: Op<F, D>, fs: set<F>)
    requires InCall(c) && c.firing && ListIn(c, fs) && (op.Add? ==> forall x :: x in op.fs ==> x in fs)
    ensures ListIn(Inside(o, c, op), fs)
  {
    if c.list.Some? {
      if op.Add? {
        ExtendIsFresh(o, c.list.value, op.fs);
        FreshIn(o, c.list.value, op.fs);
      } else if op.Remove? {
        StillIn(c.list.value, op.f);
      }
    }
  }

  lemma {:induction false} OpsKeepIn<F, D>(o: Options, c: Cb<F, D>, ops: seq<Op<F, D>>, fs: set<F>)
    requires InCall(c) && c.firing && ListIn(c, fs) && AddedOps(ops) <= fs
    ensures ListIn(InsideAll(o, c, ops), fs)
    decreases |ops|
  {
    if |ops| == 0 {
    } else {
      OpKeepsIn(o, c, ops[0], fs);
      OpsKeepIn(o, Inside(o, c, ops[0]), ops[1..], fs);
    }
  }

  /** A run calls only functions that are on the list at its start or are added during it. */
  lemma {:induction false} CallsListed<F, D>(o: Options, s: Outcome<F, D>, d: D, stopped: bool, fs: set<F>)
    requires AtTest(s.c, stopped) && |s.passes| > 0 && ListIn(s.c, fs) && Added(s.world) <= fs
    ensures var r := Run(o, s, d, stopped);
            s.log <= r.log && forall i :: |s.log| <= i < |r.log| ==> r.log[i].f in fs
    decreases |s.world|, Waiting(s.c), if stopped then 0 else 1, Ahead(s.c)
  {
    if stopped || !More(s.c) {
      var (c1, next) := End(s.c);
      if next.Some? {
        CallsListed(o, s.(c := Begin(o, c1, next.value), passes := s.passes + [next.value]), next.value, false, fs);
      }
    } else {
      OpsKeepIn(o, s.c, Now(s.world).ops, fs);
      var s1 := OneTurn(o, s, d);
      RunTurn(o, s, d);
      assert ListIn(s1.c, fs) && s.c.list.value[s.c.firingIndex] in fs;
      hide Run, OneTurn;
      CallsListed(o, s1, d, Stops(o, s.world), fs);
      EntryStays(s1.log, Run(o, s, d, false).log, |s.log|);
    }
  }

  /** A function that has been removed is not called by the next fire call, unless another one adds it again. */
  lemma RemovedIsNotCalled<F(!new), D>(o: Options, s: Outcome<F, D>, f: F, d: D)
    requires Idle(s.c) && s.c.list.Some? && f !in Added(s.world)
    ensures var r := Outside(o, Outside(o, s, Remove(f)), FireWith(d));
            s.log <= r.log && forall i :: |s.log| <= i < |r.log| ==> r.log[i].f != f
  {
    var r := Outside(o, s, Remove(f));
    RemoveOutside(o, s, f);
    var fs := (set x | x in r.c.list.value) + Added(s.world);
    if Hears(r.c) {
      CallsListed(o, r.(c := Begin(o, r.c, d), passes := r.passes + [d]), d, false, fs);
    }
  }

  // ---------------------------------------------------------------- lock, disable, empty

  /** After `lock` no fire call is heard. The list survives exactly if data are remembered, for late additions. */
  lemma LockOutside<F, D>(o: Options, s: Outcome<F, D>, d: D)
    requires Idle(s.c)
    ensures var r := Outside(o, s, Lock);
            && Outside(o, r, FireWith(d)) == r && r.log == s.log && r.passes == s.passes
            && (s.c.memory.Some? ==> r.c.list == s.c.list && r.c.memory == s.c.memory)
            && (s.c.memory.None? ==> r.c.list.None?)
  {
  }

  /** After `disable` every operation but `empty` leaves everything as it is. */
  lemma DisableOutside<F, D>(o: Options, s: Outcome<F, D>, op: Op<F, D>)
    requires Idle(s.c)
    ensures var r := Outside(o, s, Disable);
            && r.c.list.None? && r.log == s.log && r.passes == s.passes
            && (!op.Empty? ==> Outside(o, r, op) == r)
            && (op.Empty? ==> Outside(o, r, op).c.list.Some?)
  {
  }

  /** After `empty` a fire call calls nothing, and what was remembered or may be fired is as before. */
  lemma EmptyOutside<F, D>(o: Options, s: Outcome<F, D>, d: D)
    requires Idle(s.c)
    ensures var r := Outside(o, s, Empty);
            && r.c.list == Some([]) && r.c.stack == s.c.stack && r.c.memory == s.c.memory && r.c.fired == s.c.fired
            && r.log == s.log && r.passes == s.passes && r.world == s.world
            && Outside(o, r, FireWith(d)).log == s.log
  {
  }

  /** A list that is disabled and then emptied before it is fired takes functions and calls them again. */
  lemma EmptyRevives<F, D>(f: F, d: D)
    ensures var o := Options(false, false, false, false);
            var s: Outcome<F, D> := Outcome(Init(o), [], [], []);
            var dead := Outside(o, s, Disable);
            var r := Outside(o, Outside(o, dead, Empty), Add([f]));
            && Outside(o, Outside(o, dead, Add([f])), FireWith(d)).log == []
            && Idle(r.c) && Outside(o, r, FireWith(d)).log == [Call(f, d, 0)]
  {
    var o := Options(false, false, false, false);
    var s: Outcome<F, D> := Outcome(Init(o), [], [], []);
    var dead := Outside(o, s, Disable);
    DisableOutside(o, s, Add([f]));
    DisableOutside(o, s, FireWith(d));
    var r := Outside(o, Outside(o, dead, Empty), Add([f]));
    AddOutside(o, Outside(o, dead, Empty), [f]);
    FreshAlone(o, f);
    assert r.c.list == Some([f]) by { assert [] + [f] == [f]; }
    FireIsRounds(o, r, d);
    var w := Scheduled<F, D>([], [f], None, None);
    assert Worklist(o, w, []).ran == [f] by {
      assert Worklist(o, Turned(o, Taken(w), []), []).ran == [] && [f] + [] == [f];
    }
    OneCall(f, d, 0);
  }

  // ---------------------------------------------------------------- fire

  lemma {:induction false} StaysFired<F, D>(o: Options, s: Outcome<F, D>, d: D, stopped: bool)
    requires AtTest(s.c, stopped) && |s.passes| > 0 && s.c.stack.None?
    ensures var r := Run(o, s, d, stopped); r.c.fired && r.c.stack.None?
    decreases |s.world|, Waiting(s.c), if stopped then 0 else 1, Ahead(s.c)
  {
    if !stopped && More(s.c) {
      CallStaysClosed(o, s.c, Now(s.world).ops);
      RunTurn(o, s, d);
      hide Run, OneTurn;
      StaysFired(o, OneTurn(o, s, d), d, Stops(o, s.world));
    }
  }

  /** A list with `once`, or a locked one, hears one fire call at most. */
  lemma FiresOnce<F, D>(o: Options, s: Outcome<F, D>, d: D, e: D)
    requires Idle(s.c) && s.c.stack.None?
    ensures var r := Outside(o, s, FireWith(d));
            && Outside(o, r, FireWith(e)) == r
            && |r.passes| == |s.passes| + if s.c.list.Some? && !s.c.fired then 1 else 0
  {
    if Hears(s.c) {
      var s1 := s.(c := Begin(o, s.c, d), passes := s.passes + [d]);
      StaysFired(o, s1, d, false);
      FiresRunInOrder(o, s1, d, false);
    }
  }
}
