/**
 `notify` and `progress`: as long as a deferred is not settled, every notification is heard and every progress
 handler is called for it; one registered later is called with the last one. And `when` passes notifications on.
 */
module DeferredProgress {
  import opened Wrappers
  import opened Callbacks
  import opened D = Deferreds
  import W = WhenDeferreds

  predicate Open(l: List) { l.list.Some? && l.stack.Some? }

  /** Until the deferred is settled its progress list is open and repeatable. */
  predicate Listening(c: Config) { Verdict(c).None? ==> Open(c.progress) }

  lemma StepListens(c: Config, s: D.Step)
    requires D.Inv(c) && Listening(c)
    ensures Listening(D.Next(c, s))
  {
    VerdictStays(c, s);
    VerdictMeans(c);
    hide D.Inv, AllPending, DoRegister, DoFire, DoReturn, DoWalk;
    if Verdict(c).None? {
      match s
      case Register(w, ids) => RegisterListens(c, w, ids);
      case Fire(w, d) => FireListens(c, w, d);
      case Return => if |c.frames| > 0 { ReturnListens(c); }
      case Walk => if |c.frames| > 0 && !c.UserTurn() { WalkListens(c); }
    }
  }

  lemma RegisterListens(c: Config, w: Which, ids: seq<nat>)
    requires Open(c.progress)
    ensures Open(DoRegister(c, w, ids).progress)
  {
  }

  lemma FireListens(c: Config, w: Which, d: Data)
    requires AllPending(c) && Open(c.progress)
    ensures Open(DoFire(c, w, d).progress)
  {
  }

  lemma ReturnListens(c: Config)
    requires |c.frames| > 0 && Open(c.progress)
    ensures Open(DoReturn(c).progress)
  {
  }

  lemma WalkListens(c: Config)
    requires AllPending(c) && |c.frames| > 0 && !c.UserTurn() && Open(c.progress)
    ensures Open(DoWalk(c).progress)
  {
    TopFrame(c);
    assert c.frames[|c.frames| - 1].which == Progress;
    if More(c.progress) { ProgressEntry(c); }
  }

  lemma {:induction false} AlwaysListening(steps: seq<D.Step>)
    ensures Listening(D.After(steps))
    decreases |steps|
  {
    if |steps| == 0 {
    } else {
      AlwaysListening(steps[..|steps| - 1]);
      StepListens(D.After(steps[..|steps| - 1]), steps[|steps| - 1]);
    }
  }

  /** A notification: it waits for the walk under way, or starts one over the whole list. */
  ghost predicate Notified(c: Config, r: Config, d: Data) {
    if c.progress.firing then
      && c.progress.stack.Some? && r.progress.stack == Some(c.progress.stack.value + [d])
      && r.frames == c.frames && r.progress.list == c.progress.list
    else
      && r.frames == c.frames + [Frame(Progress, d, false)] && r.progress.firing && r.progress.firingIndex == 0
      && r.progress.list == c.progress.list && r.progress.memory == Some(d)
  }

  lemma NotifyHeard(c: Config, d: Data)
    requires D.Inv(c) && Listening(c) && Verdict(c).None? && c.UserTurn()
    ensures Notified(c, D.Next(c, Fire(Progress, d)), d)
  {
    assert Linked(c, Progress);
  }

  /** In every run, at every moment before the deferred is settled, however many notifications there have been. */
  lemma NotifyIsHeard(steps: seq<D.Step>, d: Data)
    ensures var c := D.After(steps);
            Verdict(c).None? && c.UserTurn() ==> Notified(c, D.Next(c, Fire(Progress, d)), d)
  {
    AlwaysListening(steps);
    var c := D.After(steps);
    if Verdict(c).None? && c.UserTurn() { NotifyHeard(c, d); }
  }

  /** The walk calls the handler at its index with the data of the notification. */
  lemma ProgressCalls(c: Config)
    requires D.Inv(c) && |c.frames| > 0 && c.frames[|c.frames| - 1].which == Progress && !c.UserTurn()
    requires More(c.progress)
    ensures var f, l, r := c.frames[|c.frames| - 1], c.progress, D.Next(c, Walk);
            && 0 <= l.firingIndex < |l.list.value| && l.list.value[l.firingIndex].User?
            && r.log == c.log + [Event(Progress, l.list.value[l.firingIndex].id, f.data)]
            && r.frames == c.frames[..|c.frames| - 1] + [f.(inHandler := true)] && r.progress == l
  {
    TopFrame(c);
    ProgressEntry(c);
  }

  /** When a handler returns, its walk goes on with the next one. */
  lemma HandlerReturns(c: Config)
    requires |c.frames| > 0
    ensures var f, r := c.frames[|c.frames| - 1], DoReturn(c);
            && r.Get(f.which).firingIndex == c.Get(f.which).firingIndex + 1
            && r.Get(f.which).list == c.Get(f.which).list && r.log == c.log
            && r.frames == c.frames[..|c.frames| - 1] + [f.(inHandler := false)]
  {
  }

  /** At the end of the walk the notification that waits longest has its walk, over the whole list. */
  lemma ProgressEnds(c: Config)
    requires D.Inv(c) && |c.frames| > 0 && c.frames[|c.frames| - 1].which == Progress && !c.UserTurn()
    requires !More(c.progress) && c.progress.stack.Some?
    ensures var r, waiting := D.Next(c, Walk), c.progress.stack.value;
            if waiting == [] then r.frames == c.frames[..|c.frames| - 1] && !r.progress.firing
            else
              && r.frames == c.frames[..|c.frames| - 1] + [Frame(Progress, waiting[0], false)]
              && r.progress.stack == Some(waiting[1..]) && r.progress.firingIndex == 0
              && r.progress.list == c.progress.list
  {
    TopFrame(c);
  }

  /**
   Registering progress handlers: they join the list and, if there has been a notification and none is being walked,
   are called with the last one.
   */
  lemma ProgressRegisters(steps: seq<D.Step>, ids: seq<nat>)
    ensures var c := D.After(steps);
            var r := D.Next(c, Register(Progress, ids));
            Verdict(c).None? && c.UserTurn() ==>
              && c.progress.list.Some? && r.progress.list == Some(c.progress.list.value + Users(ids))
              && (c.progress.memory.Some? && !c.progress.firing ==>
                    && r.frames == c.frames + [Frame(Progress, c.progress.memory.value, false)]
                    && r.progress.firingIndex == |c.progress.list.value|)
              && (c.progress.memory.None? || c.progress.firing ==> r.frames == c.frames)
  {
    AlwaysListening(steps);
    var c := D.After(steps);
    if Verdict(c).None? && c.UserTurn() {
      assert Linked(c, Progress);
      AddAppends(Progress, c.progress, ids);
    }
  }

  // ---------------------------------------------------------------- when

  /** `b` is `a` or one step of a deferred further. */
  ghost predicate Moved(a: Config, b: Config) {
    b == a || (FramesFit(a) && exists t :: b == D.Next(a, t))
  }

  lemma MasterMoves(g: W.Sys, s: W.Step)
    requires W.AllFit(g)
    ensures Moved(g.master, W.Next(g, s).master)
  {
    assert FramesFit(g.master) && forall j :: 0 <= j < |g.subs| ==> FramesFit(g.subs[j]);
    hide D.Inv, D.Next, FramesFit;
    match s
    case Scan =>
    case Finish => assert W.Next(g, s).master in {g.master, D.Next(g.master, Fire(Done, 0))};
    case OnMaster(t) => assert W.Next(g, s).master in {g.master, D.Next(g.master, t)};
    case OnSub(j, t) =>
      if j < |g.subs| && W.Free(g, j) && W.OfUser(g, t) { SubMovesMaster(g, j, D.Next(g.subs[j], t)); }
  }

  lemma SubMovesMaster(g: W.Sys, j: nat, c: Config)
    requires W.AllFit(g) && j < |g.subs|
    ensures Moved(g.master, W.Heard(g, j, c).master)
  {
    assert D.Inv(g.master) && |g.resolveValues| == |g.args|;
    hide W.AllFit, W.Handled, Moved, D.Inv, D.Next, FramesFit;
    if |c.log| > |g.subs[j].log| { HandlerMovesMaster(g.(subs := g.subs[j := c]), c.log[|c.log| - 1]); }
    else { Unmoved(g.master); }
  }

  lemma Unmoved(a: Config)
    ensures Moved(a, a)
  {
  }

  lemma HandlerMovesMaster(g: W.Sys, e: Event)
    requires |g.resolveValues| == |g.args| && D.Inv(g.master)
    ensures Moved(g.master, W.Handled(g, e).master)
  {
    assert FramesFit(g.master);
    hide D.Inv, D.Next, FramesFit;
    assert W.Handled(g, e).master in
      {g.master, D.Next(g.master, Fire(Done, 0)), D.Next(g.master, Fire(e.which, e.data))};
  }

  lemma MasterListens(g: W.Sys, s: W.Step)
    requires W.Inv(g) && Listening(g.master)
    ensures Listening(W.Next(g, s).master)
  {
    MasterMoves(g, s);
    hide W.Next, W.Inv, Listening, D.Next, D.Inv;
    if W.Next(g, s).master != g.master {
      var t :| W.Next(g, s).master == D.Next(g.master, t);
      StepListens(g.master, t);
    }
  }

  lemma {:induction false} MasterAlwaysListens(args: seq<W.A.Arg>, n: nat, steps: seq<W.Step>)
    requires W.Fits(args, n)
    ensures Listening(W.After(args, n, steps).master)
    decreases |steps|
  {
    if |steps| == 0 {
    } else {
      MasterAlwaysListens(args, n, steps[..|steps| - 1]);
      MasterListens(W.After(args, n, steps[..|steps| - 1]), steps[|steps| - 1]);
    }
  }

  /**
   When a deferred calls a progress handler of `when`, a master that is not settled is notified. The data stand for the
   array whose entry they are.
   */
  lemma ProgressIsPassedOn(args: seq<W.A.Arg>, n: nat, steps: seq<W.Step>, j: nat, s: D.Step, e: Event)
    requires W.Fits(args, n) && j < n && e.which == Progress && e.id < |args|
    requires var g := W.After(args, n, steps);
             && W.Free(g, j) && W.OfUser(g, s) && D.Next(g.subs[j], s).log == g.subs[j].log + [e]
    ensures var g := W.After(args, n, steps);
            Verdict(g.master).None? ==> Notified(g.master, W.Next(g, W.OnSub(j, s)).master, e.data)
  {
    var g := W.After(args, n, steps);
    MasterAlwaysListens(args, n, steps);
    if Verdict(g.master).None? {
      PassedOn(g, j, s, e);
      NotifyHeard(g.master, e.data);
    }
  }

  lemma PassedOn(g: W.Sys, j: nat, s: D.Step, e: Event)
    requires W.AllFit(g) && j < |g.subs| && e.which == Progress && e.id < |g.args|
    requires W.Free(g, j) && W.OfUser(g, s) && D.Next(g.subs[j], s).log == g.subs[j].log + [e]
    ensures W.Next(g, W.OnSub(j, s)).master == D.Next(g.master, Fire(Progress, e.data))
  {
    hide D.Inv, D.Next;
  }
}
