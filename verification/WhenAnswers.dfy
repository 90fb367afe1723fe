/**
 `jQuery.when` answers: from every state of every run the library alone, with handlers that return, comes to rest with
 the master settled as its promises are.
 */
module WhenAnswers {
  import opened Wrappers
  import D = Deferreds
  import R = DeferredRest
  import opened W = WhenDeferreds

  // ---------------------------------------------------------------- somebody can go on

  /** At most one deferred is between handlers, counting the master as the last one. */
  ghost predicate SomeFree(g: Sys) { exists x: int :: -1 <= x <= |g.subs| && Free(g, x) }

  /** A call leaves user code running. */
  lemma CallIsUserTurn(c: D.Config, s: D.Step)
    requires D.FramesFit(c) && |D.Next(c, s).log| > |c.log|
    ensures D.Next(c, s).UserTurn()
  {
    if |c.frames| > 0 { D.TopFrame(c); }
  }

  /** What a step of a deferred does to the others, and to what `when` has to do. */
  lemma HeardScan(g: Sys, j: nat, c: D.Config)
    requires AllFit(g) && j < |g.subs|
    ensures var r := Heard(g, j, c);
            && r.subs == g.subs[j := c] && r.args == g.args
            && r.i == g.i && r.left == g.left && r.finished == g.finished
            && (|c.log| <= |g.subs[j].log| ==> r.master == g.master)
  {
    hide D.Inv, D.Next, D.FramesFit;
  }

  lemma HeardFree(g: Sys, j: nat, c: D.Config)
    requires AllFit(g) && j < |g.subs| && Free(g, j) && (|c.log| > |g.subs[j].log| ==> c.UserTurn())
    ensures SomeFree(Heard(g, j, c))
  {
    var r := Heard(g, j, c);
    HeardScan(g, j, c);
    hide AllFit, Heard;
    if |c.log| > |g.subs[j].log| { assert Free(r, |r.subs|); } else { assert Free(r, j); }
  }

  lemma ScanFree(g: Sys)
    requires AllFit(g) && Free(g, -1)
    ensures SomeFree(Scanned(g))
  {
    hide D.Inv, D.Next, D.FramesFit;
    var r := Scanned(g);
    if g.left != [] { assert Free(r, g.args[g.i - 1].id); }
    else if g.i < |g.args| && g.args[g.i].Promise? { assert Free(r, g.args[g.i].id); }
    else { assert Free(r, -1); }
  }

  lemma SubFree(g: Sys, j: nat, t: D.Step)
    requires AllFit(g) && j < |g.subs| && Free(g, j)
    ensures SomeFree(Moved(g, j, t))
  {
    assert D.FramesFit(g.subs[j]);
    if |D.Next(g.subs[j], t).log| > |g.subs[j].log| { CallIsUserTurn(g.subs[j], t); }
    HeardFree(g, j, D.Next(g.subs[j], t));
    hide SomeFree, D.Inv, D.Next, D.FramesFit;
  }

  lemma StepFree(g: Sys, s: Step)
    requires AllFit(g) && SomeFree(g)
    ensures SomeFree(Next(g, s))
  {
    hide D.Inv, D.Next, D.FramesFit, Scanned, Moved;
    var r := Next(g, s);
    match s
    case Scan => if Free(g, -1) { ScanFree(g); }
    case Finish => if r != g { assert Free(r, |r.subs|); }
    case OnSub(j, t) => if j < |g.subs| && Free(g, j) && OfUser(g, t) { SubFree(g, j, t); }
    case OnMaster(t) => if r != g { assert Free(r, |r.subs|); }
  }

  lemma {:induction false} AlwaysFree(args: seq<A.Arg>, n: nat, steps: seq<Step>)
    requires Fits(args, n)
    ensures SomeFree(After(args, n, steps))
    decreases |steps|
  {
    if |steps| == 0 {
      assert Free(After(args, n, steps), -1);
    } else {
      AlwaysFree(args, n, steps[..|steps| - 1]);
      StepFree(After(args, n, steps[..|steps| - 1]), steps[|steps| - 1]);
    }
  }

  // ---------------------------------------------------------------- the walks come to an end

  function Sum<T>(f: T -> nat, s: seq<T>): nat { if |s| == 0 then 0 else Sum(f, s[..|s| - 1]) + f(s[|s| - 1]) }

  lemma {:induction false} SumUpdate<T>(f: T -> nat, s: seq<T>, j: nat, x: T)
    requires j < |s|
    ensures Sum(f, s[j := x]) + f(s[j]) == Sum(f, s) + f(x)
    decreases |s|
  {
    var n := |s| - 1;
    if j < n {
      assert s[j := x][..n] == s[..n][j := x];
      SumUpdate(f, s[..n], j, x);
    } else {
      assert s[j := x][..n] == s[..n];
    }
  }

  function SubsWaiting(g: Sys): nat { Sum(R.AllWaiting, g.subs) }

  function SubsAhead(g: Sys): nat { Sum(R.AllAhead, g.subs) }

  ghost predicate SubsNearer(g: Sys, r: Sys) {
    SubsWaiting(r) < SubsWaiting(g) || (SubsWaiting(r) == SubsWaiting(g) && SubsAhead(r) < SubsAhead(g))
  }

  /** The walks of the subordinates are nearer to their end, or else those of the master. */
  ghost predicate Nearer(g: Sys, r: Sys) {
    SubsNearer(g, r) || (r.subs == g.subs && R.Nearer(g.master, r.master))
  }

  /** Handlers return, and walks go on. */
  predicate Alone(s: Step) { (s.OnSub? || s.OnMaster?) && (s.s.Return? || s.s.Walk?) }

  ghost predicate Still(g: Sys) {
    |g.master.frames| == 0 && forall j :: 0 <= j < |g.subs| ==> |g.subs[j].frames| == 0
  }

  /** What the scan has left to do, and who is who. */
  ghost predicate SameScan(g: Sys, r: Sys) {
    && r.i == g.i && r.left == g.left && r.finished == g.finished && r.args == g.args && |r.subs| == |g.subs|
    && forall j :: 0 <= j < |g.subs| ==> D.Verdict(r.subs[j]) == D.Verdict(g.subs[j])
  }

  lemma SubsNearerBy(g: Sys, r: Sys, j: nat, next: D.Config)
    requires j < |g.subs| && r.subs == g.subs[j := next] && R.Nearer(g.subs[j], next)
    ensures SubsNearer(g, r)
  {
    SumUpdate(R.AllWaiting, g.subs, j, next);
    SumUpdate(R.AllAhead, g.subs, j, next);
    hide Sum, R.AllWaiting, R.AllAhead;
  }

  lemma SubGoesOn(g: Sys, j: nat)
    requires AllFit(g) && j < |g.subs| && Free(g, j) && |g.subs[j].frames| > 0
    ensures var r := Next(g, OnSub(j, R.Auto(g.subs[j]))); Nearer(g, r) && SameScan(g, r)
  {
    var c := g.subs[j];
    var t := R.Auto(c);
    var next := D.Next(c, t);
    R.AutoNearer(c);
    R.QuietStep(c, t);
    HeardScan(g, j, next);
    var r := Heard(g, j, next);
    SubsNearerBy(g, r, j, next);
    SubMoves(g, j, t);
    hide AllFit, D.Inv, D.Next, D.FramesFit, Sum, Heard, D.Verdict, Next, SubsNearer, R.Nearer;
    forall x | 0 <= x < |g.subs| ensures D.Verdict(r.subs[x]) == D.Verdict(g.subs[x]) {
      if x != j { assert r.subs[x] == g.subs[x]; }
    }
  }

  lemma SubMoves(g: Sys, j: nat, t: D.Step)
    requires AllFit(g) && j < |g.subs| && Free(g, j) && !t.Register?
    ensures Next(g, OnSub(j, t)) == Heard(g, j, D.Next(g.subs[j], t))
  {
    hide D.Inv, D.Next, D.FramesFit, Heard;
  }

  lemma MasterMoves(g: Sys, t: D.Step)
    requires AllFit(g) && Free(g, |g.subs|) && !t.Fire?
    ensures Next(g, OnMaster(t)) == g.(master := D.Next(g.master, t))
  {
    hide D.Inv, D.Next, D.FramesFit;
  }

  lemma MasterGoesOn(g: Sys)
    requires AllFit(g) && Free(g, |g.subs|) && |g.master.frames| > 0
    ensures var r := Next(g, OnMaster(R.Auto(g.master))); Nearer(g, r) && SameScan(g, r)
  {
    R.AutoNearer(g.master);
    MasterMoves(g, R.Auto(g.master));
    hide AllFit, Next, D.Inv, D.Next, D.FramesFit, SubsNearer, R.Nearer, D.Verdict;
  }

  /** As long as a walk is under way, one of them can go on. */
  lemma SomebodyGoesOn(g: Sys) returns (s: Step)
    requires AllFit(g) && SomeFree(g) && !Still(g)
    ensures Alone(s) && Nearer(g, Next(g, s)) && SameScan(g, Next(g, s))
  {
    var x: int :| -1 <= x <= |g.subs| && Free(g, x);
    if !g.master.UserTurn() || (x == |g.subs| && |g.master.frames| > 0) {
      MasterGoesOn(g);
      s := OnMaster(R.Auto(g.master));
    } else if j :| 0 <= j < |g.subs| && !g.subs[j].UserTurn() {
      SubGoesOn(g, j);
      s := OnSub(j, R.Auto(g.subs[j]));
    } else if j :| 0 <= j < |g.subs| && |g.subs[j].frames| > 0 {
      SubGoesOn(g, j);
      s := OnSub(j, R.Auto(g.subs[j]));
    } else {
      MasterGoesOn(g);
      s := OnMaster(R.Auto(g.master));
    }
  }

  lemma AfterSnoc(args: seq<A.Arg>, n: nat, steps: seq<Step>, s: Step)
    requires Fits(args, n)
    ensures After(args, n, steps + [s]) == Next(After(args, n, steps), s)
  {
    assert (steps + [s])[..|steps|] == steps;
  }

  ghost predicate AllAlone(steps: seq<Step>) { forall s :: s in steps ==> Alone(s) }

  lemma {:induction false} Settles(args: seq<A.Arg>, n: nat, steps: seq<Step>, g: Sys) returns (more: seq<Step>)
    requires Fits(args, n) && g == After(args, n, steps)
    ensures AllAlone(more) && Still(After(args, n, steps + more)) && SameScan(g, After(args, n, steps + more))
    decreases SubsWaiting(g), SubsAhead(g), R.AllWaiting(g.master), R.AllAhead(g.master)
  {
    hide W.Inv, AllFit, Next, After, Sum, R.AllWaiting, R.AllAhead, SomeFree, D.Verdict, Still, SameScan, Alone;
    if Still(g) {
      more := [];
      assert steps + [] == steps;
      Itself(g);
    } else {
      AlwaysFree(args, n, steps);
      Fit(args, n, steps);
      var s := SomebodyGoesOn(g);
      AfterSnoc(args, n, steps, s);
      var rest := Settles(args, n, steps + [s], Next(g, s));
      more := [s] + rest;
      assert steps + more == steps + [s] + rest;
      ScanTwice(g, Next(g, s), After(args, n, steps + more));
    }
  }

  lemma Fit(args: seq<A.Arg>, n: nat, steps: seq<Step>)
    requires Fits(args, n)
    ensures AllFit(After(args, n, steps))
  {
  }

  lemma Itself(g: Sys)
    ensures SameScan(g, g)
  {
  }

  lemma ScanTwice(g: Sys, r: Sys, t: Sys)
    requires SameScan(g, r) && SameScan(r, t)
    ensures SameScan(g, t)
  {
  }

  // ---------------------------------------------------------------- and so does the scan

  predicate Library(s: Step) { s.Scan? || s.Finish? || Alone(s) }

  ghost predicate AllLibrary(steps: seq<Step>) { forall s :: s in steps ==> Library(s) }

  /** The promises are settled as they were. */
  ghost predicate SameVerdicts(g: Sys, r: Sys) {
    |r.subs| == |g.subs| && forall j :: 0 <= j < |g.subs| ==> D.Verdict(r.subs[j]) == D.Verdict(g.subs[j])
  }

  lemma StillIsFree(g: Sys)
    requires Still(g)
    ensures Free(g, -1)
  {
  }

  /** Handlers are attached without consequences for the promises. */
  lemma AttachKeeps(g: Sys, j: nat, w: D.Which, k: nat)
    requires j < |g.subs| && D.Inv(g.subs[j])
    ensures var r := Attach(g, j, w, k); r == g.(subs := r.subs) && SameVerdicts(g, r)
  {
    D.VerdictStays(g.subs[j], D.Register(w, [k]));
    hide D.Inv, D.Next, D.FramesFit, D.Verdict;
  }

  /** The scan has taken a step. */
  ghost predicate Scanning(g: Sys, r: Sys) {
    && SameVerdicts(g, r) && r.finished == g.finished && r.args == g.args
    && (r.i > g.i || (r.i == g.i && |r.left| < |g.left|))
  }

  lemma AttachesMore(g: Sys)
    requires AllFit(g) && g.left != []
    ensures g.args[g.i - 1].id < |g.subs| && D.Inv(g.subs[g.args[g.i - 1].id])
    ensures Scanned(g) == Attach(g.(left := g.left[1..]), g.args[g.i - 1].id, g.left[0], g.i - 1)
  {
    hide D.Inv, Attach;
  }

  lemma MoreAttached(g: Sys)
    requires AllFit(g) && g.left != []
    ensures Scanning(g, Scanned(g))
  {
    hide D.Inv, D.Verdict, Attach, Scanned, Scanning, SameVerdicts;
    AttachesMore(g);
    var u, j := g.(left := g.left[1..]), g.args[g.i - 1].id;
    AttachKeeps(u, j, g.left[0], g.i - 1);
    Rescanned(g, Attach(u, j, g.left[0], g.i - 1));
  }

  lemma Rescanned(g: Sys, r: Sys)
    requires g.left != [] && r == g.(left := g.left[1..], subs := r.subs) && SameVerdicts(g.(left := g.left[1..]), r)
    ensures Scanning(g, r)
  {
    hide D.Verdict;
  }

  lemma OneScanned(g: Sys)
    requires AllFit(g) && g.left == [] && g.i < |g.args|
    ensures Scanning(g, Scanned(g))
  {
    if g.args[g.i].Promise? {
      var u := g.(i := g.i + 1, left := [D.Fail, D.Progress]);
      AttachKeeps(u, g.args[g.i].id, D.Done, g.i);
    }
    hide D.Inv, D.Verdict, Attach;
  }

  /** When nothing else is going on the scan takes its next step. */
  lemma ScanGoesOn(g: Sys)
    requires AllFit(g) && Free(g, -1) && (g.left != [] || g.i < |g.args|)
    ensures Scanning(g, Next(g, Scan))
  {
    hide Scanning, Scanned;
    if g.left != [] { MoreAttached(g); } else { OneScanned(g); }
  }

  lemma FinishGoesOn(g: Sys)
    requires AllFit(g) && Free(g, -1) && g.left == [] && g.i == |g.args| && !g.finished
    ensures var r := Next(g, Finish); r.finished && r.subs == g.subs && r.args == g.args
  {
    hide D.Inv, D.Next, D.FramesFit;
  }

  /** What is left of the scan. */
  function ScanLeft(g: Sys): nat { if g.i <= |g.args| then |g.args| - g.i else 0 }

  /** Scanning or finishing, whichever is due. */
  lemma WhenGoesOn(g: Sys) returns (s: Step)
    requires W.Inv(g) && Still(g) && !g.finished
    ensures Library(s) && SameVerdicts(g, Next(g, s)) && (Next(g, s).finished || Next(g, s).finished == g.finished)
    ensures var r := Next(g, s);
            r.finished || ScanLeft(r) < ScanLeft(g) || (ScanLeft(r) == ScanLeft(g) && |r.left| < |g.left|)
  {
    StillIsFree(g);
    assert AllFit(g) && Pending(g) && g.i <= |g.args|;
    ScanStays(g);
    hide W.Inv, AllFit, Next, D.Verdict, Free;
    if g.left != [] || g.i < |g.args| {
      ScanGoesOn(g);
      s := Scan;
    } else {
      FinishGoesOn(g);
      s := Finish;
    }
  }

  lemma ScanStays(g: Sys)
    requires W.Inv(g)
    ensures Next(g, Scan).i <= |g.args|
  {
    StepRefines(g, Scan);
    ArgsStay(g, Scan);
    assert A.Inv(Abs(Next(g, Scan)));
  }

  lemma {:induction false} ComesToRest(args: seq<A.Arg>, n: nat, steps: seq<Step>, g: Sys) returns (more: seq<Step>)
    requires Fits(args, n) && g == After(args, n, steps)
    ensures AllLibrary(more) && AtRest(After(args, n, steps + more)) && SameVerdicts(g, After(args, n, steps + more))
    decreases !g.finished, ScanLeft(g), |g.left|
  {
    hide W.Inv, AllFit, Next, After, D.Verdict, Free, Still, SameScan, SameVerdicts, AtRest, AllLibrary, AllAlone;
    var quiet := Settles(args, n, steps, g);
    var now := steps + quiet;
    var h := After(args, n, now);
    ScanSays(g, h);
    AllOfThem(quiet);
    if h.finished {
      more := quiet;
      StillFinished(h);
    } else {
      Fit(args, n, now);
      var s := WhenGoesOn(h);
      AfterSnoc(args, n, now, s);
      var rest := ComesToRest(args, n, now + [s], Next(h, s));
      more := quiet + [s] + rest;
      Joined(steps, quiet, s, rest);
      VerdictsTwice(g, h, Next(h, s));
      VerdictsTwice(g, Next(h, s), After(args, n, steps + more));
    }
  }

  lemma AllOfThem(quiet: seq<Step>)
    requires AllAlone(quiet)
    ensures AllLibrary(quiet)
  {
  }

  lemma Joined(steps: seq<Step>, a: seq<Step>, s: Step, b: seq<Step>)
    requires AllLibrary(a) && Library(s) && AllLibrary(b)
    ensures AllLibrary(a + [s] + b) && steps + (a + [s] + b) == steps + a + [s] + b
  {
  }

  lemma StillFinished(g: Sys)
    requires Still(g) && g.finished
    ensures AtRest(g)
  {
  }

  lemma ScanSays(g: Sys, r: Sys)
    requires SameScan(g, r)
    ensures SameVerdicts(g, r) && r.finished == g.finished && ScanLeft(r) == ScanLeft(g) && r.left == g.left
  {
  }

  lemma VerdictsTwice(g: Sys, r: Sys, t: Sys)
    requires SameVerdicts(g, r) && SameVerdicts(r, t)
    ensures SameVerdicts(g, t)
  {
  }

  function StateNamed(verdict: Option<(D.Which, D.Data)>): D.State {
    match verdict
    case None => D.Pending
    case Some(p) => D.Won(p.0)
  }

  /** What the promise at `k` has been settled as, whether or not its handlers have run yet. */
  function Fixed(g: Sys, k: nat): D.State
    requires k < |g.args| && g.args[k].Promise? && g.args[k].id < |g.subs|
  {
    StateNamed(D.Verdict(g.subs[g.args[k].id]))
  }

  /** The master of `r` stands as the promises of `g` have been settled. */
  ghost predicate Answered(g: Sys, r: Sys)
    requires Fits(g.args, |g.subs|)
  {
    && (r.master.state == D.Resolved <==>
          forall k :: 0 <= k < |g.args| && g.args[k].Promise? ==> Fixed(g, k) == D.Resolved)
    && (r.master.state == D.Rejected <==>
          exists k :: 0 <= k < |g.args| && g.args[k].Promise? && Fixed(g, k) == D.Rejected)
  }

  /** At rest the state of a promise is what it was settled with. */
  lemma RestStates(g: Sys, r: Sys, k: nat)
    requires W.Inv(r) && AtRest(r) && SameVerdicts(g, r) && r.args == g.args && k < |r.args| && r.args[k].Promise?
    ensures StateOf(r, k) == Fixed(g, k)
  {
    D.VerdictAtRest(r.subs[r.args[k].id]);
  }

  lemma AnsweredAtRest(g: Sys, r: Sys)
    requires W.Inv(r) && AtRest(r) && SameVerdicts(g, r) && r.args == g.args
    requires Fits(g.args, |g.subs|)
    ensures Answered(g, r)
  {
    RestFollows(r);
    forall k | 0 <= k < |r.args| && r.args[k].Promise? ensures StateOf(r, k) == Fixed(g, k) { RestStates(g, r, k); }
    hide W.Inv, AtRest, SameVerdicts, StateOf, Fixed;
  }

  /**
   `when` answers: at whatever moment, with no more than handlers that return, the master resolves if all promises among
   the arguments have been resolved, and is rejected if one of them has been rejected.
   */
  lemma WhenAnswers(args: seq<A.Arg>, n: nat, steps: seq<Step>)
    requires Fits(args, n)
    ensures exists more :: AllLibrary(more) && Answered(After(args, n, steps), After(args, n, steps + more))
  {
    hide W.Inv, AtRest, SameVerdicts, Answered, AllLibrary, After;
    var g := After(args, n, steps);
    var more := ComesToRest(args, n, steps, g);
    AnsweredAtRest(g, After(args, n, steps + more));
  }
}
