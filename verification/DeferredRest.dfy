/**
 Nothing gets stuck: from every state that a run can reach, the library alone, with handlers that return, brings every
 walk to its end. So every handler of the outcome runs, and `when` answers.
 */
module DeferredRest {
  import opened Wrappers
  import opened Callbacks
  import opened D = Deferreds

  // ---------------------------------------------------------------- one deferred

  /** What happens next when user code does nothing but return. */
  function Auto(c: Config): D.Step { if c.UserTurn() then Return else Walk }

  /** Notifications that wait. */
  function AllWaiting(c: Config): nat { Waiting(c.done) + Waiting(c.fail) + Waiting(c.progress) }

  function Pace(l: List): nat { if l.firing then 2 * Ahead(l) + 2 else 0 }

  /** Entries of the walks under way that are still to be passed. */
  function AllAhead(c: Config): nat {
    Pace(c.done) + Pace(c.fail) + Pace(c.progress) + Turn(c)
  }

  ghost predicate Nearer(c: Config, r: Config) {
    AllWaiting(r) < AllWaiting(c) || (AllWaiting(r) == AllWaiting(c) && AllAhead(r) < AllAhead(c))
  }

  function Turn(c: Config): nat { if c.UserTurn() then 0 else 1 }

  /** No list has more waiting than before. */
  ghost predicate NoMoreWaiting(c: Config, r: Config) {
    forall v: Which :: Waiting(r.Get(v)) <= Waiting(c.Get(v))
  }

  /** The walk of list `w` has come nearer to its end, and the others are where they were. */
  lemma OneNearer(c: Config, r: Config, w: Which)
    requires NoMoreWaiting(c, r) && Pace(r.Get(w)) + Turn(r) < Pace(c.Get(w)) + Turn(c)
    requires forall v: Which :: v != w ==> Pace(r.Get(v)) == Pace(c.Get(v))
    ensures Nearer(c, r)
  {
    assert Waiting(r.Get(Done)) <= Waiting(c.Get(Done)) && Waiting(r.Get(Fail)) <= Waiting(c.Get(Fail));
    assert Waiting(r.Get(Progress)) <= Waiting(c.Get(Progress));
  }

  lemma ReturnNearer(c: Config)
    requires FramesFit(c) && |c.frames| > 0 && c.UserTurn()
    ensures Nearer(c, DoReturn(c))
  {
    var f := c.frames[|c.frames| - 1];
    TopFrame(c);
    assert Linked(c, f.which);
    assert More(c.Get(f.which));
    OneNearer(c, DoReturn(c), f.which);
  }

  lemma CallNearer(c: Config, e: Event)
    requires |c.frames| > 0 && !c.UserTurn()
    ensures Nearer(c, c.(log := c.log + [e]).Top(c.frames[|c.frames| - 1].(inHandler := true)))
  {
    var r := c.(log := c.log + [e]).Top(c.frames[|c.frames| - 1].(inHandler := true));
    assert r.UserTurn();
    OneNearer(c, r, Done);
  }

  /** A list passes an entry, while another one may be disabled or locked. */
  lemma BuiltinNearer(c: Config, r: Config, w: Which, v: Which, l: List)
    requires c.Get(w).firing && More(c.Get(w)) && v != w && r.frames == c.frames
    requires r == c.Put(v, l).Put(w, Advanced(c.Get(w)))
    requires l in {c.Get(v), DisableOp(c.Get(v)), LockOp(c.Get(v))}
    ensures Nearer(c, r)
  {
    assert Pace(l) == Pace(c.Get(v)) && Waiting(l) <= Waiting(c.Get(v));
    OneNearer(c, r, w);
  }

  /** The winning list is a done or a fail list. */
  lemma BuiltinOf(c: Config)
    requires FramesFit(c) && |c.frames| > 0
    requires var l := c.Get(c.frames[|c.frames| - 1].which); More(l) && 0 <= l.firingIndex
    requires var l := c.Get(c.frames[|c.frames| - 1].which); !l.list.value[l.firingIndex].User?
    ensures c.frames[|c.frames| - 1].which != Progress
  {
    var f := c.frames[|c.frames| - 1];
    assert Linked(c, f.which);
    assert c.Get(f.which).list.value[c.Get(f.which).firingIndex] in c.Get(f.which).list.value;
  }

  /** The entry the walk on top has come to. */
  lemma EntryNearer(c: Config)
    requires FramesFit(c) && |c.frames| > 0 && !c.UserTurn() && More(c.Get(c.frames[|c.frames| - 1].which))
    ensures Nearer(c, DoWalk(c))
  {
    TopFrame(c);
    var f := c.frames[|c.frames| - 1];
    var l := c.Get(f.which);
    assert Linked(c, f.which) && 0 <= l.firingIndex;
    var entry := l.list.value[l.firingIndex];
    if entry.User? {
      CallNearer(c, Event(f.which, entry.id, f.data));
    } else {
      BuiltinOf(c);
      var r := DoWalk(c);
      hide FramesFit, Linked, Nearer;
      match entry
      case SetState =>
        BuiltinNearer(c, r.(state := c.state), f.which, Progress, c.progress);
        SameButState(c, r);
      case DisableOther => BuiltinNearer(c, r, f.which, Other(f.which), DisableOp(c.Get(Other(f.which))));
      case LockProgress => BuiltinNearer(c, r, f.which, Progress, LockOp(c.progress));
      case User(_) =>
    }
  }

  lemma SameButState(c: Config, r: Config)
    requires Nearer(c, r.(state := c.state))
    ensures Nearer(c, r)
  {
  }

  lemma EndNearer(c: Config)
    requires FramesFit(c) && |c.frames| > 0 && !c.UserTurn() && !More(c.Get(c.frames[|c.frames| - 1].which))
    ensures Nearer(c, DoWalk(c))
  {
    TopFrame(c);
    var f := c.frames[|c.frames| - 1];
    var (l, next) := End(c.Get(f.which));
    match next
    case None => PopNearer(c, f.which, l);
    case Some(e) => NextNearer(c, DoWalk(c), f.which);
  }

  lemma PopNearer(c: Config, w: Which, l: List)
    requires |c.frames| > 0 && !c.UserTurn() && c.Get(w).firing && !l.firing && Waiting(l) <= Waiting(c.Get(w))
    requires forall i :: 0 <= i < |c.frames| - 1 ==> c.frames[i].inHandler
    ensures Nearer(c, c.Put(w, l).Pop())
  {
    assert c.Put(w, l).Pop().UserTurn();
    OneNearer(c, c.Put(w, l).Pop(), w);
  }

  /** One of the notifications that waited has its walk. */
  lemma NextNearer(c: Config, r: Config, w: Which)
    requires Waiting(r.Get(w)) < Waiting(c.Get(w)) && forall v: Which :: v != w ==> r.Get(v) == c.Get(v)
    ensures Nearer(c, r)
  {
    assert (w == Done || r.Get(Done) == c.Get(Done)) && (w == Fail || r.Get(Fail) == c.Get(Fail));
    assert w == Progress || r.Get(Progress) == c.Get(Progress);
  }

  lemma AutoNearer(c: Config)
    requires D.Inv(c) && |c.frames| > 0
    ensures D.Inv(D.Next(c, Auto(c))) && Nearer(c, D.Next(c, Auto(c)))
  {
    StepInv(c, Auto(c));
    assert FramesFit(c);
    hide D.Inv, FramesFit, DoWalk, DoReturn, Nearer;
    if c.UserTurn() { ReturnNearer(c); }
    else if More(c.Get(c.frames[|c.frames| - 1].which)) { EntryNearer(c); }
    else { EndNearer(c); }
  }

  /** User code only returns. */
  predicate Quiet(steps: seq<D.Step>) { forall s :: s in steps ==> s.Return? || s.Walk? }

  /** From every moment of every run all walks come to an end by themselves. */
  lemma {:induction false} Unwinds(steps: seq<D.Step>) returns (more: seq<D.Step>)
    ensures Quiet(more) && |After(steps + more).frames| == 0
    decreases AllWaiting(After(steps)), AllAhead(After(steps))
  {
    hide D.Inv, FramesFit, D.Next, After, AllWaiting, AllAhead;
    var c := After(steps);
    if |c.frames| == 0 {
      more := [];
      assert steps + [] == steps;
    } else {
      var s := Auto(c);
      AutoNearer(c);
      AfterSnoc(steps, s);
      var rest := Unwinds(steps + [s]);
      more := [s] + rest;
      assert steps + more == steps + [s] + rest;
    }
  }

  /** What is settled and what is registered is the same. */
  ghost predicate SameCase(c: Config, r: Config) {
    Verdict(r) == Verdict(c) && forall w: Which :: r.Regs(w) == c.Regs(w)
  }

  lemma QuietStep(c: Config, s: D.Step)
    requires D.Inv(c) && (s.Return? || s.Walk?)
    ensures SameCase(c, D.Next(c, s))
  {
    VerdictStays(c, s);
    StepShape(c, s);
  }

  lemma {:induction false} QuietKeeps(steps: seq<D.Step>, more: seq<D.Step>)
    requires Quiet(more)
    ensures SameCase(After(steps), After(steps + more))
    decreases |more|
  {
    if |more| == 0 {
      assert steps + more == steps;
    } else {
      hide D.Inv, FramesFit, D.Next, After, Verdict;
      var init, last := more[..|more| - 1], more[|more| - 1];
      assert more == init + [last] && steps + more == (steps + init) + [last];
      QuietKeeps(steps, init);
      AfterSnoc(steps + init, last);
      QuietStep(After(steps + init), last);
    }
  }

  /**
   A deferred that has been resolved or rejected, at whatever moment, calls every handler registered for the outcome by
   itself, once for each time it was registered and in this order, and reaches the state that says so.
   */
  lemma EveryHandlerRuns(steps: seq<D.Step>)
    requires Verdict(After(steps)).Some?
    ensures exists more :: Quiet(more) && Delivered(After(steps + more), After(steps))
  {
    var more := Unwinds(steps);
    var c, r := After(steps), After(steps + more);
    QuietKeeps(steps, more);
    VerdictAtRest(r);
    VerdictMeans(r);
    AllRan(r, Verdict(c).value.0);
    WinnerFacts(r, Verdict(c).value.0, Verdict(c).value.1);
    assert Delivered(r, c);
  }

  /** Deferred `r` has told everybody what `c` was settled with. */
  ghost predicate Delivered(r: Config, c: Config) {
    Verdict(c).Some? &&
    var (w, d) := Verdict(c).value;
    && w != Progress && r.state == Won(w) && |r.frames| == 0
    && CallsOf(r.log, w) == c.Regs(w) && CallsOf(r.log, Other(w)) == [] && DataIs(r.log, w, d)
  }
}
