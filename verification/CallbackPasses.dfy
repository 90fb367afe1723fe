/**
 What a walk of a callback list amounts to, without indexes: the functions still to run form a worklist. `Run`, with
 its firing index and length, does exactly what the worklist does, for every behaviour of the functions.
 */
module CallbackPasses {
  import opened Wrappers
  import opened Callbacks

  /**
   One pass under way: the functions passed, those to come, how many places behind the list the walk is, whether there
   is a list, and the closure variables `stack` and `memory`. For the record: what was scheduled late, what was removed
   before its turn, and what was cut off.
   */
  datatype Work<F, D> = Work(
    before: seq<F>, todo: seq<F>, skip: nat, open: bool, queue: Option<seq<D>>, memory: Option<D>,
    added: seq<F>, dropped: seq<F>, cut: seq<F>)
  {
    ghost predicate Valid() { (skip > 0 ==> todo == []) && (!open ==> before == [] && todo == []) }
  }

  /** A finished pass, and what ran. */
  datatype Pass<F, D> = Pass(w: Work<F, D>, world: seq<Turn<F, D>>, ran: seq<F>)

  /** The functions that `add` really appends. */
  function Fresh<F(==)>(o: Options, list: seq<F>, fs: seq<F>): seq<F>
    decreases |fs|
  {
    if |fs| == 0 then []
    else if o.unique && fs[0] in list then Fresh(o, list, fs[1..])
    else [fs[0]] + Fresh(o, list + [fs[0]], fs[1..])
  }

  function Only<F(==)>(s: seq<F>, f: F): seq<F> {
    if |s| == 0 then [] else (if s[0] == f then [s[0]] else []) + Only(s[1..], f)
  }

  /** The list is emptied. The walk keeps its place, so the next functions added are passed already. */
  function Cleared<F, D>(w: Work<F, D>): Work<F, D> {
    w.(before := [], todo := [], skip := |w.before| + w.skip, cut := w.cut + w.todo)
  }

  /** The list is disabled. */
  function Shut<F, D>(w: Work<F, D>): Work<F, D> { Cleared(w).(open := false, queue := None, memory := None) }

  function Late<F, D>(w: Work<F, D>, late: seq<F>): Work<F, D> {
    var gap := if w.skip < |late| then w.skip else |late|;
    w.(before := w.before + late[..gap], todo := w.todo + late[gap..], skip := w.skip - gap,
       added := w.added + late[gap..])
  }

  function TurnedOne<F(==), D>(o: Options, w: Work<F, D>, op: Op<F, D>): Work<F, D> {
    match op
    case Add(fs) => if w.open then Late(w, Fresh(o, w.before + w.todo, fs)) else w
    case Remove(f) =>
      w.(before := Without(w.before, f), todo := Without(w.todo, f), dropped := w.dropped + Only(w.todo, f))
    case FireWith(d) => w.(queue := if w.queue.Some? then Some(w.queue.value + [d]) else None)
    case Lock => if w.memory.None? then Shut(w) else w.(queue := None)
    case Disable => Shut(w)
    case Empty => Cleared(w).(open := true)
  }

  function Turned<F(==), D>(o: Options, w: Work<F, D>, ops: seq<Op<F, D>>): Work<F, D>
    decreases |ops|
  {
    if |ops| == 0 then w else Turned(o, TurnedOne(o, w, ops[0]), ops[1..])
  }

  /** The first function has its turn. */
  function Taken<F, D>(w: Work<F, D>): Work<F, D>
    requires |w.todo| > 0
  {
    w.(before := w.before + [w.todo[0]], todo := w.todo[1..])
  }

  /** The walk is left. */
  function Left<F, D>(w: Work<F, D>): Work<F, D> {
    w.(before := w.before + w.todo, todo := [], memory := None, cut := w.cut + w.todo)
  }

  /** Take the first function of the worklist, run it, let it change the worklist, go on. */
  function Worklist<F(==), D>(o: Options, w: Work<F, D>, world: seq<Turn<F, D>>): (p: Pass<F, D>)
    ensures |p.world| <= |world| && p.w.todo == []
    ensures |p.world| == |world| ==> p.w.queue == w.queue && p.world == world
    decreases |world|, |w.todo|
  {
    if |w.todo| == 0 then Pass(w, world, [])
    else
      var v := Turned(o, Taken(w), Now(world).ops);
      if o.stopOnFalse && Now(world).returnsFalse then Pass(Left(v), Later(world), [w.todo[0]])
      else
        var p := Worklist(o, v, Later(world));
        p.(ran := [w.todo[0]] + p.ran)
  }

  function Calls<F, D>(fs: seq<F>, d: D, pass: nat): seq<Call<F, D>> {
    if |fs| == 0 then [] else [Call(fs[0], d, pass)] + Calls(fs[1..], d, pass)
  }

  // ---------------------------------------------------------------- the indexes do what the worklist does

  /** State `c` stands for the work `w`, with the index at `place`. */
  ghost predicate Stands<F, D>(c: Cb<F, D>, w: Work<F, D>, place: int) {
    && c.firing && InCall(c) && w.Valid()
    && c.list == (if w.open then Some(w.before + w.todo) else None)
    && c.stack == w.queue && c.memory == w.memory && c.firingIndex == place
  }

  /** Inside a call the index is on the last function passed. */
  ghost predicate During<F, D>(c: Cb<F, D>, w: Work<F, D>) { Stands(c, w, |w.before| + w.skip - 1) }

  /** The state in front of a walk over `w.todo`. */
  ghost predicate Ready<F, D>(c: Cb<F, D>, w: Work<F, D>) {
    AtTest(c, false) && Stands(c, w, |w.before| + w.skip)
  }

  lemma {:induction false} ExtendIsFresh<F>(o: Options, list: seq<F>, fs: seq<F>)
    ensures Extend(o, list, fs) == list + Fresh(o, list, fs)
    decreases |fs|
  {
    if |fs| == 0 {
    } else {
      if o.unique && fs[0] in list { ExtendIsFresh(o, list, fs[1..]); }
      else {
        ExtendIsFresh(o, list + [fs[0]], fs[1..]);
        assert list + ([fs[0]] + Fresh(o, list + [fs[0]], fs[1..]))
               == list + [fs[0]] + Fresh(o, list + [fs[0]], fs[1..]);
      }
    }
  }

  lemma LateStands<F, D>(w: Work<F, D>, late: seq<F>)
    requires w.Valid() && w.open
    ensures var r := Late(w, late);
            && r.Valid() && r.before + r.todo == w.before + w.todo + late
            && |r.before| + r.skip == |w.before| + w.skip
  {
    if w.skip == 0 { assert w.before + late[..0] == w.before && late[0..] == late; }
    else {
      var gap := if w.skip < |late| then w.skip else |late|;
      assert late == late[..gap] + late[gap..];
    }
  }

  lemma RemoveStands<F, D>(o: Options, c: Cb<F, D>, w: Work<F, D>, f: F)
    requires During(c, w)
    ensures During(RemoveOp(c, f), TurnedOne(o, w, Remove(f)))
  {
    if w.open {
      WithoutAppend(w.before, w.todo, f);
      var all := w.before + w.todo;
      assert all[..|w.before|] == w.before;
      assert w.todo == [] ==> all == w.before;
      assert Without(w.todo, f) == [] || w.todo != [];
    }
  }

  lemma InsideStands<F, D>(o: Options, c: Cb<F, D>, w: Work<F, D>, op: Op<F, D>)
    requires During(c, w)
    ensures During(Inside(o, c, op), TurnedOne(o, w, op))
  {
    match op
    case Add(fs) =>
      if w.open {
        ExtendIsFresh(o, w.before + w.todo, fs);
        LateStands(w, Fresh(o, w.before + w.todo, fs));
      }
    case Remove(f) => RemoveStands(o, c, w, f);
    case FireWith(d) =>
    case Lock =>
    case Disable =>
    case Empty => assert TurnedOne(o, w, op).before + TurnedOne(o, w, op).todo == [];
  }

  lemma {:induction false} InsideAllStands<F, D>(o: Options, c: Cb<F, D>, w: Work<F, D>, ops: seq<Op<F, D>>)
    requires During(c, w)
    ensures During(InsideAll(o, c, ops), Turned(o, w, ops))
    decreases |ops|
  {
    if |ops| == 0 {
    } else {
      InsideStands(o, c, w, ops[0]);
      InsideAllStands(o, Inside(o, c, ops[0]), TurnedOne(o, w, ops[0]), ops[1..]);
    }
  }

  /** At the end of a pass: the list, the waiting calls and the data remembered. */
  ghost predicate Ended<F, D>(c: Cb<F, D>, w: Work<F, D>) {
    && AtTest(c, true) && w.todo == []
    && c.list == (if w.open then Some(w.before) else None) && c.stack == w.queue && c.memory == w.memory
  }

  /** From the state `s` on, the run does what it does from the end of the pass `p`, reached in state `c`. */
  ghost predicate Reaches<F, D>(o: Options, s: Outcome<F, D>, d: D, c: Cb<F, D>, p: Pass<F, D>)
    requires AtTest(s.c, false) && |s.passes| > 0
  {
    && Ended(c, p.w)
    && Run(o, s, d, false) == Run(o, Outcome(c, p.world, s.log + Calls(p.ran, d, |s.passes| - 1), s.passes), d, true)
  }

  lemma PassOver<F, D>(o: Options, s: Outcome<F, D>, d: D, w: Work<F, D>)
    requires Ready(s.c, w) && |s.passes| > 0 && w.todo == []
    ensures Reaches(o, s, d, s.c, Pass(w, s.world, []))
  {
    assert w.before + w.todo == w.before && s.log + Calls<F, D>([], d, |s.passes| - 1) == s.log;
  }

  lemma PassStopped<F, D>(o: Options, s: Outcome<F, D>, d: D, s1: Outcome<F, D>, f: F, w: Work<F, D>)
    requires AtTest(s.c, false) && |s.passes| > 0 && Ended(s1.c, w)
    requires s1 == Outcome(s1.c, s1.world, s.log + [Call(f, d, |s.passes| - 1)], s.passes)
    requires Run(o, s, d, false) == Run(o, s1, d, true)
    ensures Reaches(o, s, d, s1.c, Pass(w, s1.world, [f]))
  {
    hide Run, Ended, AtTest;
    OneCall(f, d, |s.passes| - 1);
  }

  lemma OneCall<F, D>(f: F, d: D, pass: nat)
    ensures Calls([f], d, pass) == [Call(f, d, pass)]
  {
    assert [f][1..] == [];
  }

  lemma PassGoesOn<F, D>(o: Options, s: Outcome<F, D>, d: D, s1: Outcome<F, D>, f: F, c: Cb<F, D>, p: Pass<F, D>)
    requires AtTest(s.c, false) && |s.passes| > 0 && AtTest(s1.c, false)
    requires s1 == Outcome(s1.c, s1.world, s.log + [Call(f, d, |s.passes| - 1)], s.passes)
    requires Run(o, s, d, false) == Run(o, s1, d, false) && Reaches(o, s1, d, c, p)
    ensures Reaches(o, s, d, c, p.(ran := [f] + p.ran))
  {
    hide Run, Ended;
    OneMoreCall(s.log, f, p.ran, d, |s.passes| - 1);
  }

  /**
   One pass of `fire`, from the loop test to the end of the loop, is one pass of the worklist, whatever the functions
   do: add, remove, fire, lock, disable, empty, or stop the walk.
   */
  lemma {:induction false} PassRefines<F, D>(o: Options, s: Outcome<F, D>, d: D, w: Work<F, D>) returns (c: Cb<F, D>)
    requires Ready(s.c, w) && |s.passes| > 0
    ensures Reaches(o, s, d, c, Worklist(o, w, s.world))
    decreases |s.world|, |w.todo|
  {
    if |w.todo| == 0 {
      c := s.c;
      PassOver(o, s, d, w);
    } else {
      TurnRefines(o, s, d, w);
      RunTurn(o, s, d);
      var s1, v := OneTurn(o, s, d), Turned(o, Taken(w), Now(s.world).ops);
      hide Reaches, Run, Turned, Ended, Ready, OneTurn;
      if Stops(o, s.world) {
        c := s1.c;
        PassStopped(o, s, d, s1, w.todo[0], Left(v));
      } else {
        c := PassRefines(o, s1, d, v);
        PassGoesOn(o, s, d, s1, w.todo[0], c, Worklist(o, v, Later(s.world)));
      }
    }
  }

  predicate Stops<F, D>(o: Options, world: seq<Turn<F, D>>) { Now(world).returnsFalse && o.stopOnFalse }

  /** The run when the next function has run. */
  function OneTurn<F(==), D>(o: Options, s: Outcome<F, D>, d: D): (r: Outcome<F, D>)
    requires AtTest(s.c, false) && More(s.c) && |s.passes| > 0
    ensures AtTest(r.c, Stops(o, s.world)) && r.passes == s.passes
  {
    var c1 := InsideAll(o, s.c, Now(s.world).ops);
    Outcome(if Stops(o, s.world) then c1.(memory := None) else c1.(firingIndex := c1.firingIndex + 1),
            Later(s.world), s.log + [Call(s.c.list.value[s.c.firingIndex], d, |s.passes| - 1)], s.passes)
  }

  lemma RunTurn<F, D>(o: Options, s: Outcome<F, D>, d: D)
    requires AtTest(s.c, false) && More(s.c) && |s.passes| > 0
    ensures var r := OneTurn(o, s, d);
            && Run(o, s, d, false) == Run(o, r, d, Stops(o, s.world))
            && r.world == Later(s.world) && r.c.stack == InsideAll(o, s.c, Now(s.world).ops).stack
            && r.log == s.log + [Call(s.c.list.value[s.c.firingIndex], d, |s.passes| - 1)]
            && (|r.world| < |s.world|
                || (r.world == s.world && !Stops(o, s.world) && Waiting(r.c) == Waiting(s.c)
                    && Ahead(r.c) < Ahead(s.c)))
  {
  }

  lemma TurnRefines<F, D>(o: Options, s: Outcome<F, D>, d: D, w: Work<F, D>)
    requires Ready(s.c, w) && |s.passes| > 0 && |w.todo| > 0
    ensures More(s.c)
    ensures var s1, v := OneTurn(o, s, d), Turned(o, Taken(w), Now(s.world).ops);
            && s1.log == s.log + [Call(w.todo[0], d, |s.passes| - 1)]
            && if Stops(o, s.world) then Ended(s1.c, Left(v)) else Ready(s1.c, v)
  {
    assert (w.before + w.todo)[|w.before|] == w.todo[0];
    assert w.before + w.todo == (w.before + [w.todo[0]]) + w.todo[1..];
    InsideAllStands(o, s.c, Taken(w), Now(s.world).ops);
  }

  lemma OneMoreCall<F, D>(log: seq<Call<F, D>>, f: F, ran: seq<F>, d: D, pass: nat)
    ensures log + Calls([f] + ran, d, pass) == log + [Call(f, d, pass)] + Calls(ran, d, pass)
  {
    assert ([f] + ran)[1..] == ran;
  }

  // ---------------------------------------------------------------- every function present at its turn runs once

  /** `r` is `s` with some entries left out. */
  ghost predicate Subsequence<F>(r: seq<F>, s: seq<F>) {
    if |r| == 0 then true
    else if |s| == 0 then false
    else (r[0] == s[0] && Subsequence(r[1..], s[1..])) || Subsequence(r, s[1..])
  }

  lemma {:induction false} SubsequenceAppend<F>(r: seq<F>, s: seq<F>, t: seq<F>)
    requires Subsequence(r, s)
    ensures Subsequence(r, s + t)
    decreases |s|
  {
    if |r| == 0 {
    } else {
      assert (s + t)[1..] == s[1..] + t;
      if r[0] == s[0] && Subsequence(r[1..], s[1..]) { SubsequenceAppend(r[1..], s[1..], t); }
      else { SubsequenceAppend(r, s[1..], t); }
    }
  }

  lemma {:induction false} SubsequenceTrans<F>(q: seq<F>, r: seq<F>, s: seq<F>)
    requires Subsequence(q, r) && Subsequence(r, s)
    ensures Subsequence(q, s)
    decreases |s|
  {
    if |q| == 0 {
    } else {
      if r[0] == s[0] && Subsequence(r[1..], s[1..]) {
        if q[0] == r[0] && Subsequence(q[1..], r[1..]) { SubsequenceTrans(q[1..], r[1..], s[1..]); }
        else { SubsequenceTrans(q, r[1..], s[1..]); }
      } else {
        SubsequenceTrans(q, r, s[1..]);
      }
    }
  }

  lemma HeadCounts<F>(s: seq<F>, f: F)
    requires |s| > 0
    ensures multiset(s)[f] == multiset([s[0]])[f] + multiset(s[1..])[f]
  {
    assert s == [s[0]] + s[1..];
  }

  lemma {:induction false} WithoutParts<F>(s: seq<F>, f: F, g: F)
    ensures multiset(Without(s, f))[g] + multiset(Only(s, f))[g] == multiset(s)[g]
    decreases |s|
  {
    if |s| == 0 {
    } else {
      WithoutParts(s[1..], f, g);
      HeadCounts(s, g);
    }
  }

  lemma {:induction false} WithoutIsSubsequence<F>(s: seq<F>, f: F)
    ensures Subsequence(Without(s, f), s)
    decreases |s|
  {
    if |s| == 0 {
    } else {
      WithoutIsSubsequence(s[1..], f);
      if s[0] == f {
        assert [] + Without(s[1..], f) == Without(s[1..], f);
        Skip(Without(s[1..], f), s);
      } else {
        assert ([s[0]] + Without(s[1..], f))[1..] == Without(s[1..], f);
      }
    }
  }

  lemma Skip<F>(r: seq<F>, s: seq<F>)
    requires |s| > 0 && Subsequence(r, s[1..])
    ensures Subsequence(r, s)
  {
  }

  lemma {:induction false} SubsequenceSelf<F>(s: seq<F>)
    ensures Subsequence(s, s)
    decreases |s|
  {
    if |s| == 0 {
    } else {
      SubsequenceSelf(s[1..]);
    }
  }

  lemma {:induction false} SubsequenceBoth<F>(r: seq<F>, s: seq<F>, t: seq<F>)
    requires Subsequence(r, s)
    ensures Subsequence(r + t, s + t)
    decreases |s|
  {
    if |s| == 0 {
      assert r + t == t && s + t == t;
      SubsequenceSelf(t);
    } else {
      assert (s + t)[1..] == s[1..] + t;
      if |r| > 0 && r[0] == s[0] && Subsequence(r[1..], s[1..]) {
        assert (r + t)[1..] == r[1..] + t;
        SubsequenceBoth(r[1..], s[1..], t);
      } else {
        if |r| == 0 { assert Subsequence(r, s[1..]); }
        SubsequenceBoth(r, s[1..], t);
      }
    }
  }

  lemma AppendCounts<F>(s: seq<F>, t: seq<F>, f: F)
    ensures multiset(s + t)[f] == multiset(s)[f] + multiset(t)[f]
  {
  }

  /** What is scheduled, has run or is accounted for: removed before its turn, or cut off. */
  ghost predicate Balance<F, D>(w: Work<F, D>, r: Work<F, D>, ran: seq<F>, f: F) {
    multiset(ran)[f] + multiset(r.todo)[f] + multiset(r.dropped)[f] + multiset(r.cut)[f] + multiset(w.added)[f]
    == multiset(w.todo)[f] + multiset(w.dropped)[f] + multiset(w.cut)[f] + multiset(r.added)[f]
  }

  lemma OpCounts<F, D>(o: Options, w: Work<F, D>, op: Op<F, D>, f: F)
    ensures Balance(w, TurnedOne(o, w, op), [], f)
  {
    match op
    case Add(fs) =>
      if w.open {
        var late := Fresh(o, w.before + w.todo, fs);
        var gap := if w.skip < |late| then w.skip else |late|;
        AppendCounts(w.todo, late[gap..], f);
        AppendCounts(w.added, late[gap..], f);
      }
    case Remove(g) =>
      WithoutParts(w.todo, g, f);
      AppendCounts(w.dropped, Only(w.todo, g), f);
    case _ => AppendCounts(w.cut, w.todo, f);
  }

  lemma {:induction false} TurnCounts<F, D>(o: Options, w: Work<F, D>, ops: seq<Op<F, D>>, f: F)
    ensures Balance(w, Turned(o, w, ops), [], f)
    decreases |ops|
  {
    if |ops| == 0 {
    } else {
      OpCounts(o, w, ops[0], f);
      TurnCounts(o, TurnedOne(o, w, ops[0]), ops[1..], f);
    }
  }

  lemma {:induction false} PassCounts<F, D>(o: Options, w: Work<F, D>, world: seq<Turn<F, D>>, f: F)
    ensures var p := Worklist(o, w, world); Balance(w, p.w, p.ran, f)
    decreases |world|, |w.todo|
  {
    if |w.todo| == 0 {
    } else {
      var v := Turned(o, Taken(w), Now(world).ops);
      TurnCounts(o, Taken(w), Now(world).ops, f);
      HeadCounts(w.todo, f);
      if o.stopOnFalse && Now(world).returnsFalse {
        AppendCounts(v.cut, v.todo, f);
      } else {
        PassCounts(o, v, Later(world), f);
        AppendCounts([w.todo[0]], Worklist(o, v, Later(world)).ran, f);
      }
    }
  }

  /** What is waiting after a turn was waiting before or has been added, in that order. */
  ghost predicate InOrder<F, D>(w: Work<F, D>, r: Work<F, D>, later: seq<F>) {
    w.added <= r.added && Subsequence(later, w.todo + r.added[|w.added|..])
  }

  lemma OpOrder<F, D>(o: Options, w: Work<F, D>, op: Op<F, D>)
    ensures var r := TurnedOne(o, w, op); InOrder(w, r, r.todo)
  {
    var r := TurnedOne(o, w, op);
    SubsequenceSelf(w.todo);
    assert w.todo + w.added[|w.added|..] == w.todo;
    match op
    case Add(fs) => SubsequenceSelf(r.todo);
      if w.open {
        var late := Fresh(o, w.before + w.todo, fs);
        var gap := if w.skip < |late| then w.skip else |late|;
        assert (w.added + late[gap..])[|w.added|..] == late[gap..];
      }
    case Remove(f) => WithoutIsSubsequence(w.todo, f);
    case _ =>
  }

  lemma OrderTwice<F, D>(w: Work<F, D>, v: Work<F, D>, r: Work<F, D>, later: seq<F>)
    requires InOrder(w, v, v.todo) && InOrder(v, r, later)
    ensures InOrder(w, r, later)
  {
    var rest := r.added[|v.added|..];
    SubsequenceBoth(v.todo, w.todo + v.added[|w.added|..], rest);
    assert w.todo + v.added[|w.added|..] + rest == w.todo + r.added[|w.added|..];
    SubsequenceTrans(later, v.todo + rest, w.todo + r.added[|w.added|..]);
  }

  lemma {:induction false} TurnOrder<F, D>(o: Options, w: Work<F, D>, ops: seq<Op<F, D>>)
    ensures var r := Turned(o, w, ops); InOrder(w, r, r.todo)
    decreases |ops|
  {
    if |ops| == 0 {
      SubsequenceSelf(w.todo);
      assert w.todo + w.added[|w.added|..] == w.todo;
    } else {
      OpOrder(o, w, ops[0]);
      TurnOrder(o, TurnedOne(o, w, ops[0]), ops[1..]);
      OrderTwice(w, TurnedOne(o, w, ops[0]), Turned(o, w, ops), Turned(o, w, ops).todo);
    }
  }

  lemma {:induction false} PassKeepsOrder<F, D>(o: Options, w: Work<F, D>, world: seq<Turn<F, D>>)
    ensures var p := Worklist(o, w, world); InOrder(w, p.w, p.ran)
    decreases |world|, |w.todo|
  {
    if |w.todo| == 0 {
    } else {
      var v, p := Turned(o, Taken(w), Now(world).ops), Worklist(o, w, world);
      TurnOrder(o, Taken(w), Now(world).ops);
      if o.stopOnFalse && Now(world).returnsFalse {
        Consed(w.todo, p.w.added[|w.added|..], [], w.todo[1..] + p.w.added[|w.added|..]);
      } else {
        var rest := Worklist(o, v, Later(world));
        PassKeepsOrder(o, v, Later(world));
        OrderTwice(Taken(w), v, rest.w, rest.ran);
        Consed(w.todo, rest.w.added[|w.added|..], rest.ran, w.todo[1..] + rest.w.added[|w.added|..]);
      }
    }
  }

  lemma Consed<F>(todo: seq<F>, added: seq<F>, ran: seq<F>, s: seq<F>)
    requires |todo| > 0 && s == todo[1..] + added && Subsequence(ran, s)
    ensures Subsequence([todo[0]] + ran, todo + added)
  {
    var longer, all := [todo[0]] + ran, todo + added;
    assert longer[0] == all[0] && longer[1..] == ran && all[1..] == s;
  }

  /** A pass over `todo`, behind `before`. */
  function Scheduled<F, D>(before: seq<F>, todo: seq<F>, queue: Option<seq<D>>, memory: Option<D>): Work<F, D> {
    Work(before, todo, 0, true, queue, memory, [], [], [])
  }

  /** No turn stops the walk, locks, disables or empties the list. */
  ghost predicate Plain<F, D>(o: Options, world: seq<Turn<F, D>>) {
    forall i :: 0 <= i < |world| ==> PlainTurn(o, world[i])
  }

  ghost predicate PlainTurn<F, D>(o: Options, t: Turn<F, D>) {
    !(o.stopOnFalse && t.returnsFalse) && forall j :: 0 <= j < |t.ops| ==> PlainOp(t.ops[j])
  }

  predicate PlainOp<F, D>(op: Op<F, D>) { op.Add? || op.Remove? || op.FireWith? }

  lemma {:induction false} PlainCutsNothing<F, D>(o: Options, w: Work<F, D>, ops: seq<Op<F, D>>)
    requires forall j :: 0 <= j < |ops| ==> PlainOp(ops[j])
    ensures Turned(o, w, ops).cut == w.cut
    decreases |ops|
  {
    if |ops| == 0 {
    } else {
      PlainCutsNothing(o, TurnedOne(o, w, ops[0]), ops[1..]);
    }
  }

  lemma {:induction false} NothingCut<F, D>(o: Options, w: Work<F, D>, world: seq<Turn<F, D>>)
    requires Plain(o, world)
    ensures Worklist(o, w, world).w.cut == w.cut
    decreases |world|, |w.todo|
  {
    if |w.todo| == 0 {
    } else {
      PlainCutsNothing(o, Taken(w), Now(world).ops);
      NothingCut(o, Turned(o, Taken(w), Now(world).ops), Later(world));
    }
  }

  /**
   Over a whole pass, whatever the functions do: the functions scheduled at the start or added meanwhile either run,
   once for every time they were scheduled, or are removed before their turn, or are cut off; and they run in list
   order. Functions that only add, remove and fire cut nothing off.
   */
  lemma EveryTurnOnce<F(!new), D>(o: Options, before: seq<F>, todo: seq<F>, queue: Option<seq<D>>, memory: Option<D>,
      world: seq<Turn<F, D>>)
    ensures var p := Worklist(o, Scheduled(before, todo, queue, memory), world);
            && multiset(p.ran) + multiset(p.w.dropped) + multiset(p.w.cut) == multiset(todo) + multiset(p.w.added)
            && Subsequence(p.ran, todo + p.w.added)
            && (Plain(o, world) ==> p.w.cut == [])
  {
    var w := Scheduled(before, todo, queue, memory);
    var p := Worklist(o, w, world);
    PassKeepsOrder(o, w, world);
    assert p.w.added[0..] == p.w.added;
    if Plain(o, world) { NothingCut(o, w, world); }
    var all, due := multiset(p.ran) + multiset(p.w.dropped) + multiset(p.w.cut), multiset(todo) + multiset(p.w.added);
    forall f ensures all[f] == due[f] {
      PassCounts(o, w, world, f);
    }
  }

  /** What is added during a call has its turn exactly if the walk is not behind the end of the list. */
  lemma LateExactly<F, D>(o: Options, c: Cb<F, D>, w: Work<F, D>, fs: seq<F>)
    requires During(c, w) && w.open && Fresh(o, c.list.value, fs) != []
    ensures TurnedOne(o, w, Add(fs)).added == w.added + Fresh(o, c.list.value, fs)
            <==> c.firingIndex < |c.list.value|
  {
    var late := Fresh(o, c.list.value, fs);
    if w.skip == 0 {
      assert late[0..] == late;
    } else {
      assert |TurnedOne(o, w, Add(fs)).added| < |w.added + late|;
    }
  }

  // ---------------------------------------------------------------- walks that are cut short

  /** The turn without what closes the list or stops the walk. */
  function Opened<F, D>(t: Turn<F, D>): Turn<F, D> { Turn(OpenedOps(t.ops), false) }

  function OpenedOps<F, D>(ops: seq<Op<F, D>>): seq<Op<F, D>>
    decreases |ops|
  {
    if |ops| == 0 then []
    else (if ops[0].Lock? || ops[0].Disable? then [] else [ops[0]]) + OpenedOps(ops[1..])
  }

  function AllOpened<F, D>(world: seq<Turn<F, D>>): (r: seq<Turn<F, D>>)
    ensures |r| == |world| && forall i :: 0 <= i < |world| ==> r[i] == Opened(world[i])
  {
    if |world| == 0 then [] else [Opened(world[0])] + AllOpened(world[1..])
  }

  /** Nobody empties the list. */
  ghost predicate NeverEmptied<F, D>(world: seq<Turn<F, D>>) {
    forall i :: 0 <= i < |world| ==> NoEmpty(world[i].ops)
  }

  ghost predicate NoEmpty<F, D>(ops: seq<Op<F, D>>) { forall j :: 0 <= j < |ops| ==> !ops[j].Empty? }

  /** The two works are at the same place of the same list, or the first is over. */
  ghost predicate Alike<F, D>(w: Work<F, D>, v: Work<F, D>) {
    if w.open then v.open && w.before == v.before && w.todo == v.todo && w.skip == v.skip
    else w.before == [] && w.todo == []
  }

  lemma {:induction false} TurnAlike<F, D>(o: Options, w: Work<F, D>, v: Work<F, D>, ops: seq<Op<F, D>>)
    requires Alike(w, v) && NoEmpty(ops)
    ensures Alike(Turned(o, w, ops), Turned(o, v, OpenedOps(ops)))
    decreases |ops|
  {
    if |ops| == 0 {
    } else {
      var w1, rest := TurnedOne(o, w, ops[0]), OpenedOps(ops[1..]);
      if ops[0].Lock? || ops[0].Disable? {
        assert [] + rest == rest;
        TurnAlike(o, w1, v, ops[1..]);
      } else {
        assert ([ops[0]] + rest)[1..] == rest;
        TurnAlike(o, w1, TurnedOne(o, v, ops[0]), ops[1..]);
      }
    }
  }

  /** A walk that is stopped, or whose list is locked or disabled, runs a prefix of what would have run otherwise. */
  lemma {:induction false} CutShort<F, D>(o: Options, w: Work<F, D>, v: Work<F, D>, world: seq<Turn<F, D>>)
    requires Alike(w, v) && NeverEmptied(world)
    ensures Worklist(o, w, world).ran <= Worklist(o, v, AllOpened(world)).ran
    decreases |world|, |w.todo|
  {
    if |w.todo| > 0 {
      var ops := Now(world).ops;
      assert Now(AllOpened(world)) == Opened(Now(world)) && Later(AllOpened(world)) == AllOpened(Later(world));
      TurnAlike(o, Taken(w), Taken(v), ops);
      var w1, v1 := Turned(o, Taken(w), ops), Turned(o, Taken(v), OpenedOps(ops));
      if !(o.stopOnFalse && Now(world).returnsFalse) { CutShort(o, w1, v1, Later(world)); }
    }
  }

  // ---------------------------------------------------------------- the order of the passes

  /** What a run leaves of the list, and its record. */
  datatype After<F, D> = After(
    list: Option<seq<F>>, queue: Option<seq<D>>, memory: Option<D>,
    world: seq<Turn<F, D>>, log: seq<Call<F, D>>, passes: seq<D>)

  /**
   One worklist pass after the other, each with the data fired next, over the whole list. A list that cannot be fired
   again is emptied at the end, or disabled when nothing is remembered.
   */
  function Rounds<F(==), D>(o: Options, w: Work<F, D>, d: D, world: seq<Turn<F, D>>, log: seq<Call<F, D>>,
      passes: seq<D>): After<F, D>
    requires |passes| > 0
    decreases |world|, if w.queue.Some? then |w.queue.value| else 0
  {
    var p := Worklist(o, w, world);
    var log1 := log + Calls(p.ran, d, |passes| - 1);
    if p.w.open && p.w.queue.Some? then
      var queue := p.w.queue.value;
      if |queue| == 0 then After(Some(p.w.before), Some([]), p.w.memory, p.world, log1, passes)
      else Rounds(o, Again(o, p.w, queue), queue[0], p.world, log1, passes + [queue[0]])
    else if p.w.open && p.w.memory.Some? then After(Some([]), None, p.w.memory, p.world, log1, passes)
    else After(None, None, None, p.world, log1, passes)
  }

  /** The next pass, over the whole list, for the call that waits longest. */
  function Again<F, D>(o: Options, w: Work<F, D>, queue: seq<D>): Work<F, D>
    requires |queue| > 0
  {
    Scheduled([], w.before, Some(queue[1..]), if o.memory then Some(queue[0]) else None)
  }

  ghost predicate Leaves<F, D>(s: Outcome<F, D>, r: After<F, D>) {
    && s.c.list == r.list && s.c.stack == r.queue && s.c.memory == r.memory
    && s.world == r.world && s.log == r.log && s.passes == r.passes
  }

  /** `fire`, whatever its functions do, is `Rounds`. */
  lemma {:induction false} RunIsRounds<F, D>(o: Options, s: Outcome<F, D>, d: D, w: Work<F, D>)
    requires Ready(s.c, w) && |s.passes| > 0
    ensures Leaves(Run(o, s, d, false), Rounds(o, w, d, s.world, s.log, s.passes))
    decreases |s.world|, if w.queue.Some? then |w.queue.value| else 0
  {
    var p := Worklist(o, w, s.world);
    var c := PassRefines(o, s, d, w);
    var ended := Outcome(c, p.world, s.log + Calls(p.ran, d, |s.passes| - 1), s.passes);
    if p.w.queue.Some? && |p.w.queue.value| > 0 {
      NextPass(o, ended, d, p.w);
      var e := p.w.queue.value[0];
      RunIsRounds(o, ended.(c := Begin(o, End(c).0, e), passes := s.passes + [e]), e, Again(o, p.w, p.w.queue.value));
    }
  }

  /** At the end of a pass the call that waits longest gets the next one, over the whole list. */
  lemma NextPass<F, D>(o: Options, s: Outcome<F, D>, d: D, w: Work<F, D>)
    requires Ended(s.c, w) && |s.passes| > 0 && w.queue.Some? && |w.queue.value| > 0
    ensures var e := w.queue.value[0];
            var c := Begin(o, End(s.c).0, e);
            && w.open && Ready(c, Again(o, w, w.queue.value))
            && Run(o, s, d, true) == Run(o, s.(c := c, passes := s.passes + [e]), e, false)
  {
    assert [] + w.before == w.before;
  }

  /** A call of `fire` from outside, on a list that hears it. */
  lemma FireIsRounds<F, D>(o: Options, s: Outcome<F, D>, d: D)
    requires Idle(s.c) && Hears(s.c)
    ensures var w := Scheduled([], s.c.list.value, s.c.stack, if o.memory then Some(d) else None);
            Leaves(Outside(o, s, FireWith(d)), Rounds(o, w, d, s.world, s.log, s.passes + [d]))
  {
    var w := Scheduled([], s.c.list.value, s.c.stack, if o.memory then Some(d) else None);
    assert [] + s.c.list.value == s.c.list.value;
    RunIsRounds(o, s.(c := Begin(o, s.c, d), passes := s.passes + [d]), d, w);
  }

  /** A function empties the list and adds another one: that one is not called, for the walk is past its place. */
  lemma EmptyHidesAdds<F, D>(f: F, g: F, d: D)
    ensures var o := Options(false, false, false, false);
            var s := Outcome(Init(o).(list := Some([f])), [Turn([Empty, Add([g])], false)], [], []);
            var r := Outside(o, s, FireWith(d));
            r.log == [Call(f, d, 0)] && r.c.list == Some([g])
  {
    var o := Options(false, false, false, false);
    var s: Outcome<F, D> := Outcome(Init(o).(list := Some([f])), [Turn([Empty, Add([g])], false)], [], []);
    var w := Scheduled<F, D>([], [f], Some([]), None);
    FireIsRounds(o, s, d);
    var u := Taken(w);
    assert u.before == [f] && u.todo == [];
    var v := Cleared(u).(open := true);
    assert v.before + v.todo == [] && v.skip == 1;
    var late := Fresh(o, v.before + v.todo, [g]);
    assert late == [g] by { FreshAlone(o, g); }
    assert [g][..1] == [g] && [g][1..] == [];
    TwoOps(o, u, Empty, Add([g]));
    var x, p := Turned(o, u, [Empty, Add([g])]), Worklist(o, w, s.world);
    assert x == Late(v, late) && x.todo == [] && x.before == [g];
    assert Worklist(o, x, Later(s.world)) == Pass(x, [], []);
    assert p.w == x && p.ran == [f] by { assert [f] + [] == [f]; }
    OneCall(f, d, 0);
  }

  lemma FreshAlone<F>(o: Options, g: F)
    ensures Fresh(o, [], [g]) == [g]
  {
    assert [g][1..] == [];
    assert [g] + Fresh(o, [] + [g], []) == [g];
  }

  lemma TwoOps<F, D>(o: Options, w: Work<F, D>, a: Op<F, D>, b: Op<F, D>)
    ensures Turned(o, w, [a, b]) == TurnedOne(o, TurnedOne(o, w, a), b)
  {
    var v := TurnedOne(o, w, a);
    assert [a, b][1..] == [b] && [b][1..] == [];
    assert Turned(o, v, [b]) == Turned(o, TurnedOne(o, v, b), []);
  }

  /** The data of the fire calls in the first turns of `world`. */
  function Fired<F, D>(world: seq<Turn<F, D>>): seq<D> {
    if |world| == 0 then [] else FiredOps(world[0].ops) + Fired(world[1..])
  }

  function FiredOps<F, D>(ops: seq<Op<F, D>>): seq<D>
    decreases |ops|
  {
    if |ops| == 0 then [] else (if ops[0].FireWith? then [ops[0].d] else []) + FiredOps(ops[1..])
  }

  /** The first turn that locks or disables the list, or the number of turns. */
  function Closing<F, D>(world: seq<Turn<F, D>>): nat {
    if |world| == 0 || !OpenOps(world[0].ops) then 0 else 1 + Closing(world[1..])
  }

  predicate OpenOps<F, D>(ops: seq<Op<F, D>>) {
    forall j :: 0 <= j < |ops| ==> !ops[j].Lock? && !ops[j].Disable?
  }

  lemma OpQueues<F, D>(o: Options, c: Cb<F, D>, op: Op<F, D>)
    requires InCall(c) && c.firing && c.list.Some? && c.stack.Some? && !op.Lock? && !op.Disable?
    ensures var r := Inside(o, c, op);
            r.list.Some? && r.stack == Some(c.stack.value + if op.FireWith? then [op.d] else [])
  {
    assert c.stack.value + [] == c.stack.value;
  }

  /** Inside a call of a repeatable list, exactly the fire calls are queued, in order. */
  lemma {:induction false} CallQueues<F, D>(o: Options, c: Cb<F, D>, ops: seq<Op<F, D>>)
    requires InCall(c) && c.firing && c.list.Some? && c.stack.Some? && OpenOps(ops)
    ensures var r := InsideAll(o, c, ops); r.list.Some? && r.stack == Some(c.stack.value + FiredOps(ops))
    decreases |ops|
  {
    if |ops| == 0 {
      assert c.stack.value + [] == c.stack.value;
    } else {
      OpQueues(o, c, ops[0]);
      CallQueues(o, Inside(o, c, ops[0]), ops[1..]);
      Regroup(c.stack.value, if ops[0].FireWith? then [ops[0].d] else [], FiredOps(ops[1..]));
    }
  }

  /** Once closed, a list hears no call any more. */
  lemma {:induction false} CallStaysClosed<F, D>(o: Options, c: Cb<F, D>, ops: seq<Op<F, D>>)
    requires InCall(c) && c.firing
    ensures c.stack.None? || !OpenOps(ops) ==> InsideAll(o, c, ops).stack.None?
    decreases |ops|
  {
    if |ops| == 0 {
    } else {
      CallStaysClosed(o, Inside(o, c, ops[0]), ops[1..]);
    }
  }

  lemma {:induction false} NoQueue<F, D>(o: Options, w: Work<F, D>, world: seq<Turn<F, D>>)
    requires w.queue.None?
    ensures Worklist(o, w, world).w.queue.None?
    decreases |world|, |w.todo|
  {
    if |w.todo| == 0 {
    } else {
      TurnNoQueue(o, Taken(w), Now(world).ops);
      if !(o.stopOnFalse && Now(world).returnsFalse) {
        NoQueue(o, Turned(o, Taken(w), Now(world).ops), Later(world));
      }
    }
  }

  lemma {:induction false} TurnNoQueue<F, D>(o: Options, w: Work<F, D>, ops: seq<Op<F, D>>)
    requires w.queue.None?
    ensures Turned(o, w, ops).queue.None?
    decreases |ops|
  {
    if |ops| == 0 {
    } else {
      TurnNoQueue(o, TurnedOne(o, w, ops[0]), ops[1..]);
    }
  }

  lemma OneQueue<F, D>(o: Options, w: Work<F, D>, op: Op<F, D>)
    requires w.queue.Some?
    ensures TurnedOne(o, w, op).queue
         == if op.Lock? || op.Disable? then None else Some(w.queue.value + if op.FireWith? then [op.d] else [])
  {
    assert w.queue.value + [] == w.queue.value;
  }

  lemma {:induction false} TurnQueue<F, D>(o: Options, w: Work<F, D>, ops: seq<Op<F, D>>)
    requires w.queue.Some?
    ensures Turned(o, w, ops).queue == if OpenOps(ops) then Some(w.queue.value + FiredOps(ops)) else None
    decreases |ops|
  {
    if |ops| == 0 {
      assert w.queue.value + [] == w.queue.value;
    } else {
      var v := TurnedOne(o, w, ops[0]);
      OneQueue(o, w, ops[0]);
      hide TurnedOne;
      if v.queue.Some? {
        TurnQueue(o, v, ops[1..]);
        Regroup(w.queue.value, if ops[0].FireWith? then [ops[0].d] else [], FiredOps(ops[1..]));
      } else {
        TurnNoQueue(o, v, ops[1..]);
      }
    }
  }

  lemma FiredOnce<F, D>(world: seq<Turn<F, D>>)
    ensures Fired(world[..|world| - |Later(world)|]) == FiredOps(Now(world).ops)
  {
    if |world| > 0 {
      assert world[..1] == [world[0]] && [world[0]][1..] == [];
      assert FiredOps(world[0].ops) + [] == FiredOps(world[0].ops);
    } else {
      assert world[..0] == [];
    }
  }

  lemma FirstTurnFired<F, D>(queue: seq<D>, world: seq<Turn<F, D>>, k: nat)
    requires 0 < k <= |world|
    ensures queue + Fired(world[..k]) == queue + FiredOps(world[0].ops) + Fired(world[1..][..k - 1])
  {
    assert world[..k][1..] == world[1..][..k - 1] && world[..k][0] == world[0];
  }

  /**
   During a pass, fire calls queue up in the order they are made, until the list is locked or disabled; the turns used
   are a prefix of `world`.
   */
  lemma {:induction false} QueueStays<F, D>(o: Options, w: Work<F, D>, world: seq<Turn<F, D>>)
    requires w.queue.Some?
    ensures var p := Worklist(o, w, world);
            var used := |world| - |p.world|;
            && p.world == world[used..]
            && p.w.queue == if used <= Closing(world) then Some(w.queue.value + Fired(world[..used])) else None
    decreases |world|, |w.todo|
  {
    var p := Worklist(o, w, world);
    if |w.todo| == 0 {
      assert world[..0] == [] && w.queue.value + [] == w.queue.value;
    } else {
      var v := Turned(o, Taken(w), Now(world).ops);
      TurnQueue(o, Taken(w), Now(world).ops);
      if o.stopOnFalse && Now(world).returnsFalse {
        assert Fired(world[..|world| - |p.world|]) == FiredOps(Now(world).ops) by { FiredOnce(world); }
      } else if v.queue.Some? {
        QueueStays(o, v, Later(world));
        if |world| > 0 { FirstTurnFired(w.queue.value, world, |world| - |p.world|); }
      } else {
        NoQueue(o, v, Later(world));
        WorldIsSuffix(o, v, Later(world));
      }
    }
  }

  lemma {:induction false} WorldIsSuffix<F, D>(o: Options, w: Work<F, D>, world: seq<Turn<F, D>>)
    ensures var p := Worklist(o, w, world); p.world == world[|world| - |p.world|..]
    decreases |world|, |w.todo|
  {
    if |w.todo| > 0 && !(o.stopOnFalse && Now(world).returnsFalse) {
      WorldIsSuffix(o, Turned(o, Taken(w), Now(world).ops), Later(world));
    }
  }

  /** The passes before the run, the calls that waited, and those made in the turns that `r` has used. */
  function Due<F, D>(s: Outcome<F, D>, r: Outcome<F, D>): seq<D>
    requires s.c.stack.Some? && |r.world| <= |s.world|
  {
    s.passes + s.c.stack.value + Fired(s.world[..|s.world| - |r.world|])
  }

  /** The fire calls heard: those waiting and those made in the turns used, or a prefix if the list is closed. */
  ghost predicate Heard<F, D>(s: Outcome<F, D>, r: Outcome<F, D>) {
    && |r.world| <= |s.world| && r.world == s.world[|s.world| - |r.world|..]
    && if s.c.stack.None? then r.passes == s.passes
       else
         var closing := Closing(s.world);
         if |s.world| - |r.world| <= closing then r.passes == Due(s, r)
         else
           && r.passes <= Due(s, r)
           && |s.log| + closing < |r.log| && r.log[|s.log| + closing].pass == |r.passes| - 1
  }

  /**
   Whatever the options and whatever the functions do: every fire call made during the run gets one pass, in call
   order, after those that were waiting, unless a function locks or disables the list; then the pass it is called in is
   the last one.
   */
  lemma {:induction false} FiresRunInOrder<F, D>(o: Options, s: Outcome<F, D>, d: D, stopped: bool)
    requires AtTest(s.c, stopped) && |s.passes| > 0
    ensures Heard(s, Run(o, s, d, stopped))
    decreases |s.world|, Waiting(s.c), if stopped then 0 else 1, Ahead(s.c)
  {
    var c, r := s.c, Run(o, s, d, stopped);
    if stopped || !More(c) {
      var (c1, next) := End(c);
      if next.None? {
        NothingHeard(s, r);
      } else {
        var s1 := s.(c := Begin(o, c1, next.value), passes := s.passes + [next.value]);
        FiresRunInOrder(o, s1, next.value, false);
        hide Heard;
        AfterPass(s, s1, r);
      }
    } else {
      var s1 := OneTurn(o, s, d);
      RunTurn(o, s, d);
      hide Run, OneTurn;
      FiresRunInOrder(o, s1, d, Stops(o, s.world));
      LogGrows(o, s1, d, Stops(o, s.world));
      EntryStays(s1.log, r.log, |s.log|);
      TurnHeard(o, s, s1, r);
    }
  }

  lemma TurnHeard<F, D>(o: Options, s: Outcome<F, D>, s1: Outcome<F, D>, r: Outcome<F, D>)
    requires AtTest(s.c, false) && s1.world == Later(s.world) && s1.passes == s.passes && |s1.log| == |s.log| + 1
    requires s1.c.stack == InsideAll(o, s.c, Now(s.world).ops).stack
    requires |s.log| < |r.log| && r.log[|s.log|].pass == |s.passes| - 1 && Heard(s1, r)
    ensures Heard(s, r)
  {
    CallStaysClosed(o, s.c, Now(s.world).ops);
    if s.c.stack.Some? && OpenOps(Now(s.world).ops) {
      CallQueues(o, s.c, Now(s.world).ops);
      hide Heard;
      AfterTurn(s, s1, r);
    } else {
      StaysDeaf(s, s1, r);
      hide Heard;
      if s.c.stack.Some? { AfterClosing(s, r); }
    }
  }

  lemma NothingHeard<F, D>(s: Outcome<F, D>, r: Outcome<F, D>)
    requires s.c.stack == None || s.c.stack == Some([])
    requires r.world == s.world && r.passes == s.passes
    ensures Heard(s, r)
  {
    assert s.world[..0] == [];
    if s.c.stack.Some? { assert s.passes + [] + [] == s.passes; }
  }

  /** The accounts of the next pass and of the rest make up the whole. */
  lemma AfterPass<F, D>(s: Outcome<F, D>, s1: Outcome<F, D>, r: Outcome<F, D>)
    requires s.c.stack.Some? && |s.c.stack.value| > 0 && s1.c.stack == Some(s.c.stack.value[1..])
    requires s1.world == s.world && s1.passes == s.passes + [s.c.stack.value[0]] && s1.log == s.log && Heard(s1, r)
    ensures Heard(s, r)
  {
    assert s.passes + [s.c.stack.value[0]] + s.c.stack.value[1..] == s.passes + s.c.stack.value;
  }

  /** The accounts of one turn and of the rest make up the whole. */
  lemma AfterTurn<F, D>(s: Outcome<F, D>, s1: Outcome<F, D>, r: Outcome<F, D>)
    requires s.c.stack.Some? && s1.world == Later(s.world) && s1.passes == s.passes && |s1.log| == |s.log| + 1
    requires OpenOps(Now(s.world).ops)
    requires s1.c.stack == Some(s.c.stack.value + FiredOps(Now(s.world).ops)) && Heard(s1, r)
    ensures Heard(s, r)
  {
    if |s.world| > 0 {
      MoreTurns(s.passes, s.c.stack.value, s.world[0].ops, s.world, |s.world| - |r.world|);
    } else {
      assert s.c.stack.value + [] == s.c.stack.value;
    }
  }

  lemma LaterSuffix<F, D>(world: seq<Turn<F, D>>, rest: seq<Turn<F, D>>)
    requires |rest| <= |Later(world)| && rest == Later(world)[|Later(world)| - |rest|..]
    ensures rest == world[|world| - |rest|..]
  {
  }

  /** Nothing is heard on a list that is closed. */
  lemma StaysDeaf<F, D>(s: Outcome<F, D>, s1: Outcome<F, D>, r: Outcome<F, D>)
    requires s1.c.stack.None? && s1.world == Later(s.world) && s1.passes == s.passes && Heard(s1, r)
    ensures |r.world| <= |Later(s.world)| && r.world == s.world[|s.world| - |r.world|..] && r.passes == s.passes
    ensures s.c.stack.None? ==> Heard(s, r)
  {
    LaterSuffix(s.world, r.world);
  }

  /** The list is closed in the first turn. */
  lemma AfterClosing<F, D>(s: Outcome<F, D>, r: Outcome<F, D>)
    requires s.c.stack.Some? && |s.world| > 0 && !OpenOps(s.world[0].ops)
    requires |r.world| < |s.world| && r.world == s.world[|s.world| - |r.world|..] && r.passes == s.passes
    requires |s.log| < |r.log| && r.log[|s.log|].pass == |s.passes| - 1
    ensures Heard(s, r)
  {
    DueStarts(s, r);
    hide Due;
    assert Closing(s.world) == 0;
  }

  lemma DueStarts<F, D>(s: Outcome<F, D>, r: Outcome<F, D>)
    requires s.c.stack.Some? && |r.world| <= |s.world|
    ensures s.passes <= Due(s, r)
  {
    Prefixed(s.passes, s.c.stack.value, Fired(s.world[..|s.world| - |r.world|]));
  }

  lemma Prefixed<D>(a: seq<D>, b: seq<D>, c: seq<D>)
    ensures a <= a + b + c
  {
    Regroup(a, b, c);
  }

  lemma EntryStays<T>(a: seq<T>, b: seq<T>, i: nat)
    requires a <= b && i < |a|
    ensures b[i] == a[i]
  {
  }

  /** The data of the passes, when some turns have been used and the rest of the run uses more. */
  lemma MoreTurns<F, D>(a: seq<D>, queue: seq<D>, ops: seq<Op<F, D>>, world: seq<Turn<F, D>>, k: nat)
    requires 0 < k <= |world| && world[0].ops == ops
    ensures a + (queue + FiredOps(ops)) + Fired(world[1..][..k - 1]) == a + queue + Fired(world[..k])
  {
    assert world[..k][1..] == world[1..][..k - 1] && world[..k][0] == world[0];
  }

  /** Calls logged by a run belong to the pass under way or to later ones. */
  lemma {:induction false} LogGrows<F, D>(o: Options, s: Outcome<F, D>, d: D, stopped: bool)
    requires AtTest(s.c, stopped) && |s.passes| > 0
    ensures var r := Run(o, s, d, stopped);
            && s.log <= r.log && s.passes <= r.passes
            && forall i :: |s.log| <= i < |r.log| ==> r.log[i].pass >= |s.passes| - 1
    decreases |s.world|, Waiting(s.c), if stopped then 0 else 1, Ahead(s.c)
  {
    var c := s.c;
    if stopped || !More(c) {
      var (c1, next) := End(c);
      if next.Some? {
        LogGrows(o, s.(c := Begin(o, c1, next.value), passes := s.passes + [next.value]), next.value, false);
      }
    } else {
      RunTurn(o, s, d);
      hide Run, OneTurn;
      LogGrows(o, OneTurn(o, s, d), d, Stops(o, s.world));
    }
  }

  /** The log is in pass order, and the data of every call is the data of its pass. */
  ghost predicate PassOrder<F, D>(log: seq<Call<F, D>>, passes: seq<D>) {
    && (forall i :: 0 <= i < |log| ==> log[i].pass < |passes| && log[i].d == passes[log[i].pass])
    && (forall i, j :: 0 <= i < j < |log| ==> log[i].pass <= log[j].pass)
  }

  lemma {:induction false} CallsFacts<F, D>(fs: seq<F>, d: D, pass: nat)
    ensures |Calls(fs, d, pass)| == |fs|
    ensures forall i :: 0 <= i < |fs| ==> Calls(fs, d, pass)[i] == Call(fs[i], d, pass)
    decreases |fs|
  {
    if |fs| == 0 {
    } else {
      CallsFacts(fs[1..], d, pass);
    }
  }

  /** For every list and every behaviour, calls of different passes never interleave. */
  lemma {:induction false} NeverInterleaved<F, D>(o: Options, s: Outcome<F, D>, d: D, stopped: bool)
    requires AtTest(s.c, stopped) && |s.passes| > 0 && d == s.passes[|s.passes| - 1]
    requires PassOrder(s.log, s.passes)
    ensures var r := Run(o, s, d, stopped); PassOrder(r.log, r.passes)
    decreases |s.world|, Waiting(s.c), if stopped then 0 else 1, Ahead(s.c)
  {
    var c := s.c;
    if stopped || !More(c) {
      var (c1, next) := End(c);
      if next.Some? {
        NeverInterleaved(o, s.(c := Begin(o, c1, next.value), passes := s.passes + [next.value]), next.value, false);
      }
    } else {
      RunTurn(o, s, d);
      hide Run, OneTurn;
      NeverInterleaved(o, OneTurn(o, s, d), d, Stops(o, s.world));
    }
  }

  // ---------------------------------------------------------------- late registrations

  /**
   Adding to a list that has fired and remembers its data: a pass over the newly added functions alone, with the
   remembered data, and then those fired meanwhile, whatever the functions do.
   */
  lemma LateAdd<F, D>(o: Options, s: Outcome<F, D>, fs: seq<F>)
    requires Idle(s.c) && AddFires(s.c)
    ensures var list, d := s.c.list.value, s.c.memory.value;
            var w := Scheduled(list, Fresh(o, list, fs), s.c.stack, if o.memory then Some(d) else None);
            Leaves(Outside(o, s, Add(fs)), Rounds(o, w, d, s.world, s.log, s.passes + [d]))
  {
    var list, d := s.c.list.value, s.c.memory.value;
    var w := Scheduled(list, Fresh(o, list, fs), s.c.stack, if o.memory then Some(d) else None);
    ExtendIsFresh(o, list, fs);
    RunIsRounds(o, s.(c := Begin(o, AddOp(o, s.c, fs), d), passes := s.passes + [d]), d, w);
  }

  /** On a list that cannot be fired again (`once`, or locked) the one pass is all there is. */
  lemma LateAddOnce<F, D>(o: Options, s: Outcome<F, D>, fs: seq<F>)
    requires Idle(s.c) && AddFires(s.c) && s.c.stack.None?
    ensures var list, d := s.c.list.value, s.c.memory.value;
            var w := Scheduled(list, Fresh(o, list, fs), None, if o.memory then Some(d) else None);
            var r, p := Outside(o, s, Add(fs)), Worklist(o, w, s.world);
            r.log == s.log + Calls(p.ran, d, |s.passes|) && r.passes == s.passes + [d] && r.world == p.world
  {
    LateAdd(o, s, fs);
    var list, d := s.c.list.value, s.c.memory.value;
    NoQueue(o, Scheduled(list, Fresh(o, list, fs), None, if o.memory then Some(d) else None), s.world);
  }

  /** All functions that some turn adds. */
  function AddedOps<F(==), D>(ops: seq<Op<F, D>>): set<F>
    decreases |ops|
  {
    if |ops| == 0 then {} else (if ops[0].Add? then set f | f in ops[0].fs else {}) + AddedOps(ops[1..])
  }

  function Added<F(==), D>(world: seq<Turn<F, D>>): set<F> {
    if |world| == 0 then {} else AddedOps(world[0].ops) + Added(world[1..])
  }

  /** The entries of the list from position `from` on are among `fs`. */
  ghost predicate TailIn<F, D>(c: Cb<F, D>, from: int, fs: set<F>) {
    c.list.Some? ==> forall i :: 0 <= i < |c.list.value| && from <= i ==> c.list.value[i] in fs
  }

  lemma WithoutTail<F>(a: seq<F>, b: seq<F>, f: F, fs: set<F>)
    requires forall x :: x in b ==> x in fs
    ensures var r := Without(a + b, f); forall i :: |Without(a, f)| <= i < |r| ==> r[i] in fs
  {
    WithoutAppend(a, b, f);
    StillIn(b, f);
  }

  lemma {:induction false} StillIn<F>(s: seq<F>, f: F)
    ensures forall x :: x in Without(s, f) ==> x in s
    decreases |s|
  {
    if |s| == 0 {
    } else {
      StillIn(s[1..], f);
    }
  }

  lemma {:induction false} FreshIn<F>(o: Options, list: seq<F>, fs: seq<F>)
    ensures forall x :: x in Fresh(o, list, fs) ==> x in fs
    decreases |fs|
  {
    if |fs| == 0 {
    } else {
      FreshIn(o, if o.unique && fs[0] in list then list else list + [fs[0]], fs[1..]);
    }
  }

  lemma AddKeepsTail<F, D>(o: Options, c: Cb<F, D>, added: seq<F>, fs: set<F>)
    requires InCall(c) && c.firing && c.list.Some? && TailIn(c, c.firingIndex + 1, fs)
             && forall f :: f in added ==> f in fs
    ensures var r := AddOp(o, c, added); TailIn(r, r.firingIndex + 1, fs)
  {
    var late := Fresh(o, c.list.value, added);
    ExtendIsFresh(o, c.list.value, added);
    FreshIn(o, c.list.value, added);
    assert forall i :: 0 <= i < |late| ==> late[i] in late;
  }

  lemma RemoveKeepsTail<F, D>(c: Cb<F, D>, f: F, fs: set<F>)
    requires InCall(c) && c.firing && c.list.Some? && TailIn(c, c.firingIndex + 1, fs)
    ensures var r := RemoveOp(c, f); TailIn(r, r.firingIndex + 1, fs)
  {
    var passed := Passed(c);
    var rest := c.list.value[|passed|..];
    assert passed + rest == c.list.value;
    assert forall i :: 0 <= i < |rest| ==> rest[i] == c.list.value[|passed| + i];
    WithoutTail(passed, rest, f, fs);
    var r := RemoveOp(c, f);
    assert r.list == Some(Without(passed + rest, f)) && r.firingIndex + 1 >= |Without(passed, f)|;
    forall i | 0 <= i < |r.list.value| && r.firingIndex + 1 <= i ensures r.list.value[i] in fs {
      assert Without(passed + rest, f)[i] in fs;
    }
  }

  /** No operation puts an old function behind the firing index. */
  lemma OpKeepsTail<F, D>(o: Options, c: Cb<F, D>, op: Op<F, D>, fs: set<F>)
    requires InCall(c) && c.firing && TailIn(c, c.firingIndex + 1, fs)
    requires op.Add? ==> forall f :: f in op.fs ==> f in fs
    ensures var r := Inside(o, c, op); TailIn(r, r.firingIndex + 1, fs)
  {
    if c.list.Some? {
      if op.Add? { AddKeepsTail(o, c, op.fs, fs); }
      if op.Remove? { RemoveKeepsTail(c, op.f, fs); }
    }
  }

  lemma {:induction false} CallKeepsTail<F, D>(o: Options, c: Cb<F, D>, ops: seq<Op<F, D>>, fs: set<F>)
    requires InCall(c) && c.firing && TailIn(c, c.firingIndex + 1, fs) && AddedOps(ops) <= fs
    ensures var r := InsideAll(o, c, ops); TailIn(r, r.firingIndex + 1, fs)
    decreases |ops|
  {
    if |ops| == 0 {
    } else {
      OpKeepsTail(o, c, ops[0], fs);
      CallKeepsTail(o, Inside(o, c, ops[0]), ops[1..], fs);
    }
  }

  /** The calls a log has gained in one pass are of functions among `fs`, with the data `d`. */
  ghost predicate PassOnly<F, D>(log: seq<Call<F, D>>, from: nat, pass: int, fs: set<F>, d: D) {
    forall i :: from <= i < |log| && log[i].pass == pass ==> log[i].f in fs && log[i].d == d
  }

  lemma {:induction false} RunsTailOnly<F, D>(o: Options, s: Outcome<F, D>, d: D, stopped: bool, fs: set<F>)
    requires AtTest(s.c, stopped) && |s.passes| > 0 && Added(s.world) <= fs
    requires !stopped ==> TailIn(s.c, s.c.firingIndex, fs)
    ensures PassOnly(Run(o, s, d, stopped).log, |s.log|, |s.passes| - 1, fs, d)
    decreases |s.world|, Waiting(s.c), if stopped then 0 else 1, Ahead(s.c)
  {
    var c := s.c;
    if stopped || !More(c) {
      var (c1, next) := End(c);
      if next.Some? {
        LogGrows(o, s.(c := Begin(o, c1, next.value), passes := s.passes + [next.value]), next.value, false);
      }
    } else {
      CallKeepsTail(o, c, Now(s.world).ops, fs);
      var s1, stops := OneTurn(o, s, d), Stops(o, s.world);
      RunTurn(o, s, d);
      assert !stops ==> TailIn(s1.c, s1.c.firingIndex, fs);
      hide Run, OneTurn;
      RunsTailOnly(o, s1, d, stops, fs);
      LogGrows(o, s1, d, stops);
      EntryStays(s1.log, Run(o, s1, d, stops).log, |s.log|);
    }
  }

  /**
   A late `add` on any list with memory, whatever its functions do meanwhile: the pass it starts runs newly added
   functions only, those of this `add` or of one made during the run, and all with the remembered data.
   */
  lemma LateAddRunsNewOnly<F, D>(o: Options, s: Outcome<F, D>, fs: seq<F>)
    requires Idle(s.c) && AddFires(s.c)
    ensures var r := Outside(o, s, Add(fs));
            && |r.passes| > |s.passes| && r.passes[|s.passes|] == s.c.memory.value
            && PassOnly(r.log, |s.log|, |s.passes|, (set f | f in Fresh(o, s.c.list.value, fs)) + Added(s.world),
               s.c.memory.value)
  {
    var d, late := s.c.memory.value, Fresh(o, s.c.list.value, fs);
    ExtendIsFresh(o, s.c.list.value, fs);
    var s1 := s.(c := Begin(o, AddOp(o, s.c, fs), d), passes := s.passes + [d]);
    RunsTailOnly(o, s1, d, false, (set f | f in late) + Added(s.world));
    LogGrows(o, s1, d, false);
  }
}
