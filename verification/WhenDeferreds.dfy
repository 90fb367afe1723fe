/**
 `jQuery.when` at work on deferreds: the subordinates and the master are the state machines of module `Deferreds`, and
 user code registers, settles and walks meanwhile. Every run is a run of the machine of module `WhenAll`.
 */
module WhenDeferreds {
  import opened Wrappers
  import A = WhenAll
  import D = Deferreds

  /**
   The closure variables of `when`, the deferreds, and for the record what `when` has been told. `left` are the lists
   of the argument scanned last on which nothing is registered yet; `sent` is the array copied by the first
   `resolveWith`.
   */
  datatype Sys = Sys(
    args: seq<A.Arg>,
    i: nat,
    left: seq<D.Which>,
    finished: bool,
    remaining: int,
    resolveValues: seq<A.Value>,
    subs: seq<D.Config>,
    master: D.Config,
    sent: Option<seq<A.Value>>,
    settled: map<nat, A.Outcome>,
    firstBroken: Option<nat>)

  /** A promise among the arguments is the number of a deferred; the same one may occur twice. */
  predicate Fits(args: seq<A.Arg>, n: nat) {
    forall k :: 0 <= k < |args| && args[k].Promise? ==> args[k].id < n
  }

  function Start(args: seq<A.Arg>, n: nat): Sys {
    Sys(args, 0, [], false, |args|, seq(|args|, i requires 0 <= i < |args| => A.Given(args[i])),
        seq(n, _ => D.Start()), D.Start(), None, map[], None)
  }

  // ---------------------------------------------------------------- steps

  /** `when` goes on, or user code acts on a deferred. Only `when` settles the master. */
  datatype Step = Scan | Finish | OnSub(j: nat, s: D.Step) | OnMaster(s: D.Step)

  /** No walk but perhaps that of deferred `x` is between handlers; the master counts as the last one. */
  predicate Free(g: Sys, x: int) {
    && (forall j :: 0 <= j < |g.subs| && j != x ==> g.subs[j].UserTurn())
    && (x != |g.subs| ==> g.master.UserTurn())
  }

  ghost predicate AllFit(g: Sys) {
    && |g.resolveValues| == |g.args| && Fits(g.args, |g.subs|) && (g.left != [] ==> 0 < g.i <= |g.args|)
    && (g.left != [] ==> g.args[g.i - 1].Promise?)
    && (forall j :: 0 <= j < |g.subs| ==> D.Inv(g.subs[j])) && D.Inv(g.master)
  }

  /** The handlers of `when` bear the numbers of their arguments, those of users larger ones. */
  predicate OfUser(g: Sys, s: D.Step) {
    s.Register? ==> forall x :: x in s.ids ==> x >= |g.args|
  }

  function Next(g: Sys, s: Step): Sys
    requires AllFit(g)
  {
    match s
    case Scan => if Free(g, -1) then Scanned(g) else g
    case Finish =>
      if Free(g, -1) && g.i == |g.args| && g.left == [] && !g.finished then
        var f := g.(finished := true);
        if f.remaining == 0 then ResolveMaster(f) else f
      else g
    case OnSub(j, s) => if j < |g.subs| && Free(g, j) && OfUser(g, s) then Moved(g, j, s) else g
    case OnMaster(s) => if Free(g, |g.subs|) && !s.Fire? then g.(master := D.Next(g.master, s)) else g
  }

  /** `.done( updateFunc ).fail( deferred.reject ).progress( updateFunc )`, or `--remaining`. */
  function Scanned(g: Sys): Sys
    requires AllFit(g)
  {
    if g.left != [] then Attach(g.(left := g.left[1..]), g.args[g.i - 1].id, g.left[0], g.i - 1)
    else if g.i >= |g.args| then g
    else if g.args[g.i].Plain? then g.(i := g.i + 1, remaining := g.remaining - 1)
    else Attach(g.(i := g.i + 1, left := [D.Fail, D.Progress]), g.args[g.i].id, D.Done, g.i)
  }

  function Attach(g: Sys, j: nat, w: D.Which, k: nat): Sys
    requires j < |g.subs| && D.Inv(g.subs[j])
  {
    g.(subs := g.subs[j := D.Next(g.subs[j], D.Register(w, [k]))])
  }

  /** A deferred takes a step. When that calls a handler of `when`, the handler runs. */
  function Moved(g: Sys, j: nat, s: D.Step): Sys
    requires AllFit(g) && j < |g.subs|
  {
    Heard(g, j, D.Next(g.subs[j], s))
  }

  function Heard(g: Sys, j: nat, c: D.Config): Sys
    requires AllFit(g) && j < |g.subs|
  {
    var u := g.(subs := g.subs[j := c]);
    if |c.log| > |g.subs[j].log| then Handled(u, c.log[|c.log| - 1]) else u
  }

  function Handled(g: Sys, e: D.Event): Sys
    requires |g.resolveValues| == |g.args| && D.Inv(g.master)
  {
    if e.id >= |g.args| then g
    else match e.which
      case Done => OnDone(g, e.id, e.data)
      case Fail => OnFail(g, e.id, e.data)
      case Progress => FireMaster(g, D.Progress, e.data)
  }

  function FireMaster(g: Sys, w: D.Which, d: D.Data): Sys
    requires D.Inv(g.master)
  {
    g.(master := D.Next(g.master, D.Fire(w, d)))
  }

  function ResolveMaster(g: Sys): Sys
    requires D.Inv(g.master)
  {
    FireMaster(g, D.Done, 0).(sent := if g.sent.None? then Some(g.resolveValues) else g.sent)
  }

  /** `updateFunc( k, resolveContexts, resolveValues )` */
  function OnDone(g: Sys, k: nat, v: nat): Sys
    requires k < |g.resolveValues| && D.Inv(g.master)
  {
    var u := g.(resolveValues := g.resolveValues[k := A.Got(v)], remaining := g.remaining - 1,
                settled := g.settled[k := A.Kept(v)]);
    if u.remaining == 0 then ResolveMaster(u) else u
  }

  function OnFail(g: Sys, k: nat, e: nat): Sys
    requires D.Inv(g.master)
  {
    FireMaster(g, D.Fail, e).(settled := g.settled[k := A.Broken(e)],
                              firstBroken := if g.firstBroken.None? then Some(e) else g.firstBroken)
  }

  // ---------------------------------------------------------------- the machine of the closure variables

  /** What the real master has been settled with. */
  function MasterOf(g: Sys): A.Master {
    match D.Verdict(g.master)
    case None => A.Waiting
    case Some(p) => if p.0 == D.Done then A.Resolved(if g.sent.Some? then g.sent.value else []) else A.Rejected(p.1)
  }

  function Abs(g: Sys): A.W {
    A.W(g.args, g.i, g.finished, g.remaining, g.resolveValues, MasterOf(g), g.settled, g.firstBroken)
  }

  // ---------------------------------------------------------------- invariant

  predicate Attached(g: Sys, j: nat, k: nat) { k < g.i && k < |g.args| && g.args[k] == A.Promise(j) }

  predicate FailAttached(g: Sys, j: nat, k: nat) { Attached(g, j, k) && !(k == g.i - 1 && D.Fail in g.left) }

  /** What deferred `c`, the `j`-th, knows of argument `k`: one handler on each list, called when `settled` says so. */
  ghost predicate SubFits(g: Sys, c: D.Config, j: nat, k: nat) {
    && multiset(c.doneRegs)[k] == (if Attached(g, j, k) then 1 else 0)
    && multiset(c.failRegs)[k] == (if FailAttached(g, j, k) then 1 else 0)
    && (forall v :: D.Event(D.Done, k, v) in c.log <==>
                    Attached(g, j, k) && k in g.settled && g.settled[k] == A.Kept(v))
    && (forall e :: D.Event(D.Fail, k, e) in c.log <==>
                    Attached(g, j, k) && k in g.settled && g.settled[k] == A.Broken(e))
  }

  ghost predicate SubsFit(g: Sys) {
    forall j, k :: 0 <= j < |g.subs| && 0 <= k < |g.args| ==> SubFits(g, g.subs[j], j, k)
  }

  ghost predicate MasterFits(g: Sys) {
    && (g.sent.Some? ==> D.Verdict(g.master).Some?)
    && (D.Verdict(g.master).Some? && D.Verdict(g.master).value.0 == D.Done ==> g.sent.Some?)
  }

  /** The lists that wait are those of the promise scanned last. */
  predicate Pending(g: Sys) {
    && (g.left == [] || g.left == [D.Progress] || g.left == [D.Fail, D.Progress])
    && (g.left != [] ==> 0 < g.i <= |g.args| && g.args[g.i - 1].Promise?)
    && (g.finished ==> g.left == [])
  }

  ghost predicate Inv(g: Sys) {
    AllFit(g) && MasterFits(g) && A.Inv(Abs(g)) && SubsFit(g) && Pending(g)
  }

  /** A step of the system is a step of the abstract machine, or none. */
  ghost predicate Simulates(a: A.W, b: A.W)
    requires |a.resolveValues| == |a.args|
  {
    b == a || exists e :: A.Enabled(a, e) && b == A.Next(a, e)
  }

  // ---------------------------------------------------------------- the master

  lemma MasterFired(g: Sys, w: D.Which, d: D.Data)
    requires D.Inv(g.master) && g.master.UserTurn()
    ensures D.Inv(FireMaster(g, w, d).master)
    ensures D.Verdict(FireMaster(g, w, d).master)
         == if D.Verdict(g.master).None? && w != D.Progress then Some((w, d)) else D.Verdict(g.master)
  {
    D.StepInv(g.master, D.Fire(w, d));
    D.VerdictStays(g.master, D.Fire(w, d));
  }

  lemma ResolveAbs(g: Sys)
    requires D.Inv(g.master) && g.master.UserTurn() && MasterFits(g)
    ensures D.Inv(ResolveMaster(g).master) && MasterFits(ResolveMaster(g))
    ensures Abs(ResolveMaster(g)) == A.Resolve(Abs(g))
  {
    MasterFired(g, D.Done, 0);
  }

  lemma DoneAbs(g: Sys, k: nat, v: nat)
    requires D.Inv(g.master) && g.master.UserTurn() && MasterFits(g)
    requires |g.resolveValues| == |g.args| && A.Enabled(Abs(g), A.Done(k, v))
    ensures D.Inv(OnDone(g, k, v).master) && MasterFits(OnDone(g, k, v))
    ensures Abs(OnDone(g, k, v)) == A.Next(Abs(g), A.Done(k, v))
  {
    var u := g.(resolveValues := g.resolveValues[k := A.Got(v)], remaining := g.remaining - 1,
                settled := g.settled[k := A.Kept(v)]);
    if u.remaining == 0 { ResolveAbs(u); }
  }

  lemma FailAbs(g: Sys, k: nat, e: nat)
    requires D.Inv(g.master) && g.master.UserTurn() && MasterFits(g)
    requires |g.resolveValues| == |g.args| && A.Enabled(Abs(g), A.Fail(k, e))
    ensures D.Inv(OnFail(g, k, e).master) && MasterFits(OnFail(g, k, e))
    ensures Abs(OnFail(g, k, e)) == A.Next(Abs(g), A.Fail(k, e))
  {
    MasterFired(g, D.Fail, e);
  }

  // ---------------------------------------------------------------- a deferred takes a step

  lemma CountAppend(s: seq<nat>, t: seq<nat>, k: nat)
    ensures multiset(s + t)[k] == multiset(s)[k] + multiset(t)[k]
  {
  }

  /** A step that calls no handler of `when`. */
  lemma PlainMove(g: Sys, j: nat, s: D.Step, k: nat)
    requires Inv(g) && j < |g.subs| && OfUser(g, s) && k < |g.args|
    requires var c, r := g.subs[j], D.Next(g.subs[j], s);
             |r.log| > |c.log| ==> r.log[|r.log| - 1].id != k || r.log[|r.log| - 1].which == D.Progress
    ensures var r := D.Next(g.subs[j], s);
            && (forall w: D.Which :: w != D.Progress ==> multiset(r.Regs(w))[k] == multiset(g.subs[j].Regs(w))[k])
            && (forall w: D.Which, d :: w != D.Progress ==>
                  (D.Event(w, k, d) in r.log <==> D.Event(w, k, d) in g.subs[j].log))
  {
    var c, r := g.subs[j], D.Next(g.subs[j], s);
    D.StepShape(c, s);
    if s.Register? {
      D.RegisterShape(c, s.which, s.ids);
      CountAppend(c.Regs(s.which), s.ids, k);
      assert k !in s.ids;
    }
  }

  /** What a handler of `when` may rely on: it was registered once, and its promise has not called before. */
  ghost predicate NewCall(g: Sys, c: D.Config, r: D.Config, j: nat, e: D.Event) {
    && D.Inv(r) && r.log == c.log + [e] && r.doneRegs == c.doneRegs && r.failRegs == c.failRegs
    && Attached(g, j, e.id) && e.id !in g.settled
    && forall d :: D.Event(D.Done, e.id, d) !in c.log && D.Event(D.Fail, e.id, d) !in c.log
  }

  lemma CallIsNew(g: Sys, j: nat, s: D.Step, e: D.Event)
    requires Inv(g) && j < |g.subs| && e.id < |g.args| && e.which != D.Progress
    requires D.Next(g.subs[j], s).log == g.subs[j].log + [e]
    ensures NewCall(g, g.subs[j], D.Next(g.subs[j], s), j, e)
  {
    var c, r := g.subs[j], D.Next(g.subs[j], s);
    assert SubFits(g, c, j, e.id);
    D.StepInv(c, s);
    D.StepShape(c, s);
    hide D.Inv, D.Next, A.Inv, SubFits, SubsFit, MasterFits;
    assert r.log != c.log;
    assert r.Regs(D.Done) == c.Regs(D.Done) && r.Regs(D.Fail) == c.Regs(D.Fail);
    OnceAttached(g, c, j, e.id);
    FirstCall(c, r, e);
  }

  lemma OnceAttached(g: Sys, c: D.Config, j: nat, k: nat)
    requires SubFits(g, c, j, k)
    ensures multiset(c.doneRegs)[k] <= 1 && multiset(c.failRegs)[k] <= 1
    ensures multiset(c.doneRegs)[k] == 1 || multiset(c.failRegs)[k] == 1 ==> Attached(g, j, k)
    ensures Attached(g, j, k) && k in g.settled ==>
              exists d :: D.Event(D.Done, k, d) in c.log || D.Event(D.Fail, k, d) in c.log
  {
    if Attached(g, j, k) && k in g.settled {
      match g.settled[k]
      case Kept(v) => assert D.Event(D.Done, k, v) in c.log;
      case Broken(e) => assert D.Event(D.Fail, k, e) in c.log;
    }
  }

  lemma FirstCall(c: D.Config, r: D.Config, e: D.Event)
    requires D.Inv(r) && r.log == c.log + [e] && e.which != D.Progress
    requires multiset(r.Regs(e.which))[e.id] <= 1
    ensures multiset(r.Regs(e.which))[e.id] == 1
    ensures forall d :: D.Event(D.Done, e.id, d) !in c.log && D.Event(D.Fail, e.id, d) !in c.log
  {
    var w := e.which;
    D.CallsOfOne(c.log, e, w);
    D.CalledWon(r, w);
    D.AllRan(r, w);
    PrefixCount(D.CallsOf(c.log, w), r.Regs(w), e.id);
    D.CalledHas(c.log, w, e.id);
    D.CalledHas(r.log, D.Other(w), e.id);
  }

  lemma PrefixCount(a: seq<nat>, b: seq<nat>, k: nat)
    requires a + [k] <= b && multiset(b)[k] <= 1
    ensures k !in a && multiset(b)[k] == 1
  {
    assert b == a + [k] + b[|a| + 1..];
  }

  /** One more promise has settled, and told `when`. */
  lemma SettledFits(g: Sys, r: Sys, j: nat, e: D.Event)
    requires SubsFit(g) && j < |g.subs| && e.id < |g.args| && e.which != D.Progress && Attached(g, j, e.id)
    requires r.args == g.args && r.i == g.i && r.left == g.left && |r.subs| == |g.subs|
    requires r.settled == g.settled[e.id := if e.which == D.Done then A.Kept(e.data) else A.Broken(e.data)]
    requires forall x :: 0 <= x < |g.subs| && x != j ==> r.subs[x] == g.subs[x]
    requires r.subs[j].log == g.subs[j].log + [e]
    requires r.subs[j].doneRegs == g.subs[j].doneRegs && r.subs[j].failRegs == g.subs[j].failRegs
    requires forall d :: D.Event(D.Done, e.id, d) !in g.subs[j].log && D.Event(D.Fail, e.id, d) !in g.subs[j].log
    ensures SubsFit(r)
  {
    forall x, k | 0 <= x < |r.subs| && 0 <= k < |r.args| ensures SubFits(r, r.subs[x], x, k) {
      assert SubFits(g, g.subs[x], x, k);
    }
  }

  /** The call that reaches `when` is an event of its machine. */
  function EventOf(e: D.Event): A.Event {
    if e.which == D.Done then A.Done(e.id, e.data) else A.Fail(e.id, e.data)
  }

  lemma CallAbs(g: Sys, u: Sys, e: D.Event)
    requires AllFit(g) && MasterFits(g) && g.master.UserTurn() && u == g.(subs := u.subs)
    requires e.which != D.Progress && e.id < |g.args| && A.CanSettle(Abs(g), e.id)
    ensures var r := Handled(u, e);
            && A.Enabled(Abs(g), EventOf(e)) && Abs(r) == A.Next(Abs(g), EventOf(e))
            && D.Inv(r.master) && MasterFits(r) && r.subs == u.subs && r.left == g.left
            && r.settled == g.settled[e.id := if e.which == D.Done then A.Kept(e.data) else A.Broken(e.data)]
  {
    if e.which == D.Done { DoneAbs(u, e.id, e.data); } else { FailAbs(u, e.id, e.data); }
  }

  lemma CallMove(g: Sys, j: nat, c: D.Config, e: D.Event)
    requires Inv(g) && j < |g.subs| && g.master.UserTurn()
    requires NewCall(g, g.subs[j], c, j, e) && e.id < |g.args| && e.which != D.Progress
    ensures var r := Handled(g.(subs := g.subs[j := c]), e); Inv(r) && Simulates(Abs(g), Abs(r))
  {
    hide D.Inv, A.Inv, A.Next, SubsFit, MasterFits;
    var u := g.(subs := g.subs[j := c]);
    var r := Handled(u, e);
    assert A.CanSettle(Abs(g), e.id);
    CallAbs(g, u, e);
    A.StepInv(Abs(g), EventOf(e));
    SettledFits(g, r, j, e);
    Reached(g, r);
  }

  /** What is left of the invariant when its parts are known. */
  lemma Reached(g: Sys, r: Sys)
    requires Inv(g) && MasterFits(r) && SubsFit(r) && A.Inv(Abs(r)) && D.Inv(r.master)
    requires r.args == g.args && |r.subs| == |g.subs| && Pending(r)
    requires forall x :: 0 <= x < |r.subs| ==> D.Inv(r.subs[x])
    ensures Inv(r)
  {
    hide A.Inv, D.Inv, MasterFits, SubsFit;
    assert |Abs(r).resolveValues| == |Abs(r).args| by { Collects(Abs(r)); }
  }

  lemma Collects(w: A.W)
    requires A.Inv(w)
    ensures |w.resolveValues| == |w.args|
  {
  }

  /** A handler of `when` is called that counts. */
  predicate Tells(g: Sys, before: seq<D.Event>, after: seq<D.Event>) {
    |after| > |before| && after[|after| - 1].id < |g.args| && after[|after| - 1].which != D.Progress
  }

  /** A deferred has taken a step of which `when` hears nothing. */
  lemma PlainSubs(g: Sys, j: nat, s: D.Step)
    requires Inv(g) && j < |g.subs| && OfUser(g, s)
    requires !Tells(g, g.subs[j].log, D.Next(g.subs[j], s).log)
    ensures SubsFit(g.(subs := g.subs[j := D.Next(g.subs[j], s)]))
  {
    var r := D.Next(g.subs[j], s);
    var u := g.(subs := g.subs[j := r]);
    forall x, k | 0 <= x < |u.subs| && 0 <= k < |u.args| ensures SubFits(u, u.subs[x], x, k) {
      assert SubFits(g, g.subs[x], x, k);
      if x == j {
        PlainMove(g, j, s, k);
        assert r.Regs(D.Done) == r.doneRegs && r.Regs(D.Fail) == r.failRegs;
      }
    }
  }

  lemma SubStep(g: Sys, j: nat, s: D.Step)
    requires Inv(g) && j < |g.subs| && Free(g, j) && OfUser(g, s)
    ensures Inv(Moved(g, j, s)) && Simulates(Abs(g), Abs(Moved(g, j, s)))
  {
    D.StepShape(g.subs[j], s);
    D.StepInv(g.subs[j], s);
    hide D.Inv, D.Next, A.Inv, A.Next, SubsFit;
    var c := D.Next(g.subs[j], s);
    if Tells(g, g.subs[j].log, c.log) {
      CallIsNew(g, j, s, c.log[|c.log| - 1]);
      CallMove(g, j, c, c.log[|c.log| - 1]);
    } else {
      PlainSubs(g, j, s);
      QuietMove(g, j, c);
    }
  }

  lemma QuietMove(g: Sys, j: nat, c: D.Config)
    requires Inv(g) && j < |g.subs| && g.master.UserTurn() && !Tells(g, g.subs[j].log, c.log)
    requires D.Inv(c) && SubsFit(g.(subs := g.subs[j := c]))
    ensures Inv(Heard(g, j, c)) && Abs(Heard(g, j, c)) == Abs(g)
  {
    hide D.Inv, A.Inv, SubsFit, Handled;
    var u := g.(subs := g.subs[j := c]);
    if |c.log| > |g.subs[j].log| { Overheard(g, u, c.log[|c.log| - 1]); } else { Unheard(g, u, u); }
  }

  /** A call that `when` has nothing to do with, or passes on to the handlers of progress. */
  lemma Overheard(g: Sys, u: Sys, e: D.Event)
    requires Inv(g) && g.master.UserTurn() && u == g.(subs := u.subs) && |u.subs| == |g.subs| && SubsFit(u)
    requires forall x :: 0 <= x < |u.subs| ==> D.Inv(u.subs[x])
    requires e.id >= |g.args| || e.which == D.Progress
    ensures Inv(Handled(u, e)) && Abs(Handled(u, e)) == Abs(g)
  {
    if e.id < |g.args| { MasterFired(u, D.Progress, e.data); }
    hide D.Inv, A.Inv, SubsFit;
    Unheard(g, u, Handled(u, e));
  }

  /** `when` hears nothing of a step of the others. */
  lemma Unheard(g: Sys, u: Sys, r: Sys)
    requires Inv(g) && u == g.(subs := u.subs) && |u.subs| == |g.subs| && SubsFit(u)
    requires r == u.(master := r.master) && D.Inv(r.master) && D.Verdict(r.master) == D.Verdict(g.master)
    requires forall x :: 0 <= x < |u.subs| ==> D.Inv(u.subs[x])
    ensures Inv(r) && Abs(r) == Abs(g)
  {
    hide D.Inv, A.Inv, SubsFit;
    SameSubs(u, r);
  }

  lemma SameSubs(u: Sys, r: Sys)
    requires SubsFit(u) && r.subs == u.subs && r.args == u.args && r.i == u.i && r.left == u.left
             && r.settled == u.settled
    ensures SubsFit(r)
  {
    forall j, k | 0 <= j < |r.subs| && 0 <= k < |r.args| ensures SubFits(r, r.subs[j], j, k) {
      assert SubFits(u, u.subs[j], j, k);
    }
  }

  lemma MasterStep(g: Sys, s: D.Step)
    requires Inv(g) && !s.Fire?
    ensures var r := g.(master := D.Next(g.master, s)); Inv(r) && Abs(r) == Abs(g)
  {
    D.StepInv(g.master, s);
    D.VerdictStays(g.master, s);
    Unheard(g, g, g.(master := D.Next(g.master, s)));
  }

  // ---------------------------------------------------------------- `when` takes a step

  lemma RegisterOne(c: D.Config, w: D.Which, k: nat)
    requires D.Inv(c) && c.UserTurn()
    ensures var r := D.Next(c, D.Register(w, [k]));
            && D.Inv(r) && r.log == c.log
            && r.doneRegs == (if w == D.Done then c.doneRegs + [k] else c.doneRegs)
            && r.failRegs == (if w == D.Fail then c.failRegs + [k] else c.failRegs)
  {
    D.StepInv(c, D.Register(w, [k]));
    D.RegisterShape(c, w, [k]);
    var r := D.DoRegister(c, w, [k]);
    assert r.Regs(D.Done) == r.doneRegs && r.Regs(D.Fail) == r.failRegs;
  }

  /** The next handler is registered for argument `k`, a promise that is deferred `j`. */
  ghost predicate Attaches(g: Sys, r: Sys, j: nat, w: D.Which, k: nat) {
    && r.args == g.args && r.settled == g.settled && r.i == k + 1 && k < |g.args| && g.args[k] == A.Promise(j)
    && match w
       case Done => g.i == k && g.left == [] && r.left == [D.Fail, D.Progress] && k !in g.settled
       case Fail => g.i == k + 1 && g.left == [D.Fail, D.Progress] && r.left == [D.Progress]
       case Progress => g.i == k + 1 && g.left == [D.Progress] && r.left == []
  }

  lemma AttachOne(g: Sys, r: Sys, j: nat, w: D.Which, k: nat, c: D.Config, d: D.Config, x: nat, m: nat)
    requires Attaches(g, r, j, w, k) && SubFits(g, c, x, m) && d.log == c.log
    requires d.doneRegs == (if w == D.Done && x == j then c.doneRegs + [k] else c.doneRegs)
    requires d.failRegs == (if w == D.Fail && x == j then c.failRegs + [k] else c.failRegs)
    ensures SubFits(r, d, x, m)
  {
    CountAppend(c.doneRegs, [k], m);
    CountAppend(c.failRegs, [k], m);
    if m == k && x == j {
      assert Attached(r, j, k) && (Attached(g, j, k) <==> w != D.Done);
      assert FailAttached(r, j, k) <==> w != D.Done;
      assert FailAttached(g, j, k) <==> w == D.Progress;
    } else {
      assert Attached(r, x, m) <==> Attached(g, x, m);
      assert FailAttached(r, x, m) <==> FailAttached(g, x, m);
    }
  }

  lemma AttachFits(g: Sys, r: Sys, j: nat, w: D.Which, k: nat)
    requires SubsFit(g) && Attaches(g, r, j, w, k) && j < |g.subs| && |r.subs| == |g.subs|
    requires forall x :: 0 <= x < |g.subs| && x != j ==> r.subs[x] == g.subs[x]
    requires r.subs[j].log == g.subs[j].log
    requires r.subs[j].doneRegs == (if w == D.Done then g.subs[j].doneRegs + [k] else g.subs[j].doneRegs)
    requires r.subs[j].failRegs == (if w == D.Fail then g.subs[j].failRegs + [k] else g.subs[j].failRegs)
    ensures SubsFit(r)
  {
    hide SubFits, Attaches;
    assert r.args == g.args by { AttachesArgs(g, r, j, w, k); }
    forall x, m | 0 <= x < |r.subs| && 0 <= m < |r.args| ensures SubFits(r, r.subs[x], x, m) {
      assert SubFits(g, g.subs[x], x, m);
      AttachOne(g, r, j, w, k, g.subs[x], r.subs[x], x, m);
    }
  }

  lemma AttachesArgs(g: Sys, r: Sys, j: nat, w: D.Which, k: nat)
    requires Attaches(g, r, j, w, k)
    ensures r.args == g.args
  {
  }

  lemma AttachStep(g: Sys, r: Sys, j: nat, w: D.Which, k: nat)
    requires Inv(g) && Free(g, -1) && Attaches(g, r, j, w, k)
    requires r == Attach(g.(i := r.i, left := r.left), j, w, k)
    ensures SubsFit(r) && forall x :: 0 <= x < |r.subs| ==> D.Inv(r.subs[x])
  {
    RegisterOne(g.subs[j], w, k);
    hide D.Inv, D.Next, A.Inv, SubsFit, MasterFits;
    AttachFits(g, r, j, w, k);
  }

  /** The argument scanned counts down only if it is no promise. */
  lemma ScanAbs(g: Sys, r: Sys)
    requires |g.resolveValues| == |g.args| && g.i < |g.args|
             && r == g.(i := g.i + 1, left := r.left, subs := r.subs, remaining := r.remaining)
    requires r.remaining == if g.args[g.i].Promise? then g.remaining else g.remaining - 1
    ensures A.Enabled(Abs(g), A.Scan) && Abs(r) == A.Next(Abs(g), A.Scan)
  {
  }

  lemma PlainFits(g: Sys, r: Sys)
    requires SubsFit(g) && g.left == [] && g.i < |g.args| && g.args[g.i].Plain?
    requires r == g.(i := g.i + 1, remaining := r.remaining)
    ensures SubsFit(r)
  {
    forall j, k | 0 <= j < |r.subs| && 0 <= k < |r.args| ensures SubFits(r, r.subs[j], j, k) {
      assert SubFits(g, g.subs[j], j, k);
    }
  }

  lemma NotYetSettled(w: A.W)
    requires A.Inv(w) && w.i < |w.args|
    ensures w.i !in w.settled && !w.finished
  {
  }

  lemma ScanOne(g: Sys)
    requires Inv(g) && Free(g, -1) && g.left == [] && g.i < |g.args|
    ensures Inv(Scanned(g)) && Simulates(Abs(g), Abs(Scanned(g)))
  {
    hide D.Inv, A.Inv, A.Next, SubsFit;
    var r := Scanned(g);
    NotYetSettled(Abs(g));
    ScanAbs(g, r);
    A.StepInv(Abs(g), A.Scan);
    if g.args[g.i].Plain? { PlainFits(g, r); } else { AttachStep(g, r, g.args[g.i].id, D.Done, g.i); }
    Reached(g, r);
  }

  lemma ScanMore(g: Sys)
    requires Inv(g) && Free(g, -1) && g.left != []
    ensures Inv(Scanned(g)) && Abs(Scanned(g)) == Abs(g)
  {
    hide D.Inv, A.Inv, SubsFit;
    AttachStep(g, Scanned(g), g.args[g.i - 1].id, g.left[0], g.i - 1);
    Reached(g, Scanned(g));
  }

  lemma FinishStep(g: Sys)
    requires Inv(g) && Free(g, -1) && g.i == |g.args| && g.left == [] && !g.finished
    ensures Inv(Next(g, Finish)) && Abs(Next(g, Finish)) == A.Next(Abs(g), A.Finish)
  {
    var f := g.(finished := true);
    if f.remaining == 0 { ResolveAbs(f); }
    A.StepInv(Abs(g), A.Finish);
    SameSubs(g, Next(g, Finish));
    hide D.Inv, A.Inv, SubsFit;
    Reached(g, Next(g, Finish));
  }

  /** Every step keeps the invariant, and is a step of the machine of the closure variables or none. */
  lemma StepRefines(g: Sys, s: Step)
    requires Inv(g)
    ensures Inv(Next(g, s)) && Simulates(Abs(g), Abs(Next(g, s)))
  {
    hide D.Inv, A.Inv, A.Next, SubsFit, Moved, Scanned;
    match s
    case Scan =>
      if Free(g, -1) {
        if g.left != [] { ScanMore(g); }
        else if g.i >= |g.args| { ScanOver(g); }
        else { ScanOne(g); }
      }
    case Finish => if Free(g, -1) && g.i == |g.args| && g.left == [] && !g.finished { FinishStep(g); }
    case OnSub(j, t) => if j < |g.subs| && Free(g, j) && OfUser(g, t) { SubStep(g, j, t); }
    case OnMaster(t) => if Free(g, |g.subs|) && !t.Fire? { MasterStep(g, t); }
  }

  lemma ScanOver(g: Sys)
    requires AllFit(g) && g.left == [] && g.i >= |g.args|
    ensures Scanned(g) == g
  {
  }

  // ---------------------------------------------------------------- all runs

  lemma StartInv(args: seq<A.Arg>, n: nat)
    requires Fits(args, n)
    ensures Inv(Start(args, n)) && Abs(Start(args, n)) == A.Start(args)
  {
    A.StartInv(args);
    D.StartInv();
  }

  lemma ArgsStay(g: Sys, s: Step)
    requires Inv(g)
    ensures Next(g, s).args == g.args && |Next(g, s).subs| == |g.subs|
  {
    hide D.Inv, A.Inv, D.Next, SubsFit, MasterFits;
  }

  ghost function After(args: seq<A.Arg>, n: nat, steps: seq<Step>): (g: Sys)
    requires Fits(args, n)
    ensures Inv(g) && g.args == args && |g.subs| == n
    decreases |steps|
  {
    if |steps| == 0 then
      StartInv(args, n);
      Start(args, n)
    else
      var before := After(args, n, steps[..|steps| - 1]);
      StepRefines(before, steps[|steps| - 1]);
      ArgsStay(before, steps[|steps| - 1]);
      Next(before, steps[|steps| - 1])
  }

  /** Every run of the system is, for the closure variables and the real master, a run of their machine. */
  lemma {:induction false} RunsRefine(args: seq<A.Arg>, n: nat, steps: seq<Step>) returns (es: seq<A.Event>)
    requires Fits(args, n)
    ensures Abs(After(args, n, steps)) == A.After(args, es)
    decreases |steps|
  {
    if |steps| == 0 {
      StartInv(args, n);
      es := [];
    } else {
      var before := After(args, n, steps[..|steps| - 1]);
      es := RunsRefine(args, n, steps[..|steps| - 1]);
      StepRefines(before, steps[|steps| - 1]);
      var after := Next(before, steps[|steps| - 1]);
      if Abs(after) != Abs(before) {
        var e :| A.Enabled(Abs(before), e) && Abs(after) == A.Next(Abs(before), e);
        assert (es + [e])[..|es|] == es;
        es := es + [e];
      }
    }
  }

  /** A promise that has told `when` is settled so. */
  lemma ToldTruly(g: Sys, j: nat, k: nat)
    requires Inv(g) && j < |g.subs| && Attached(g, j, k) && k in g.settled
    ensures D.Verdict(g.subs[j]) == Some(match g.settled[k] case Kept(v) => (D.Done, v) case Broken(e) => (D.Fail, e))
  {
    var c := g.subs[j];
    assert SubFits(g, c, j, k);
    var (w, d) := match g.settled[k] case Kept(v) => (D.Done, v) case Broken(e) => (D.Fail, e);
    assert D.Event(w, k, d) in c.log;
    D.CalledHas(c.log, w, k);
    D.CalledWon(c, w);
    CalledWith(c, w, D.Event(w, k, d));
  }

  lemma CalledWith(c: D.Config, w: D.Which, e: D.Event)
    requires D.Inv(c) && w != D.Progress && c.state == D.Won(w) && e in c.log && e.which == w
    ensures D.Verdict(c) == Some((w, e.data))
  {
    D.VerdictMeans(c);
    var p := D.Verdict(c).value;
    D.WinnerFacts(c, p.0, p.1);
  }

  lemma StateIsVerdict(c: D.Config, w: D.Which)
    requires D.Inv(c) && w != D.Progress && c.state == D.Won(w)
    ensures D.Verdict(c).Some? && D.Verdict(c).value.0 == w
  {
    D.VerdictMeans(c);
    if D.Verdict(c).Some? { D.WinnerFacts(c, D.Verdict(c).value.0, D.Verdict(c).value.1); }
  }

  /** The list of `c` that was fired first is `w`, with these data. */
  predicate Settles(c: D.Config, w: D.Which, d: D.Data) { D.Verdict(c) == Some((w, d)) }

  /** The array has what the promises resolved with, each at its place, and the other arguments as they are. */
  ghost predicate Gathered(g: Sys, values: seq<A.Value>) {
    && |values| == |g.args|
    && forall k :: 0 <= k < |g.args| ==>
         match g.args[k]
         case Plain(_) => values[k] == A.Given(g.args[k])
         case Promise(j) => j < |g.subs| && values[k].Got? && Settles(g.subs[j], D.Done, values[k].v)
  }

  ghost predicate SomeRejects(g: Sys, e: D.Data) {
    exists k :: 0 <= k < |g.args| && g.args[k].Promise? && g.args[k].id < |g.subs|
        && Settles(g.subs[g.args[k].id], D.Fail, e)
  }

  /** The rejection a step tells `when`: a deferred calls a fail handler of `when`. */
  function Told(g: Sys, s: Step): Option<D.Data>
    requires AllFit(g)
  {
    if s.OnSub? && s.j < |g.subs| && Free(g, s.j) && OfUser(g, s.s) then
      var log, was := D.Next(g.subs[s.j], s.s).log, g.subs[s.j].log;
      if |log| > |was| && log[|log| - 1].which == D.Fail && log[|log| - 1].id < |g.args| then Some(log[|log| - 1].data)
      else None
    else None
  }

  /** The first rejection of a run that `when` is told. */
  ghost function FirstTold(args: seq<A.Arg>, n: nat, steps: seq<Step>): Option<D.Data>
    requires Fits(args, n)
    decreases |steps|
  {
    if |steps| == 0 then None
    else
      var before := steps[..|steps| - 1];
      var first := FirstTold(args, n, before);
      if first.Some? then first else Told(After(args, n, before), steps[|steps| - 1])
  }

  lemma BrokenStep(g: Sys, s: Step)
    requires Inv(g)
    ensures Next(g, s).firstBroken == if g.firstBroken.Some? then g.firstBroken else Told(g, s)
  {
    hide D.Inv, A.Inv, D.Next, SubsFit, MasterFits;
  }

  lemma {:induction false} FirstBrokenIsFirst(args: seq<A.Arg>, n: nat, steps: seq<Step>)
    requires Fits(args, n)
    ensures After(args, n, steps).firstBroken == FirstTold(args, n, steps)
    decreases |steps|
  {
    if |steps| == 0 {
    } else {
      var before := steps[..|steps| - 1];
      FirstBrokenIsFirst(args, n, before);
      BrokenStep(After(args, n, before), steps[|steps| - 1]);
    }
  }

  /** The first rejection that `when` is told settles the master, and nothing else rejects it. */
  lemma FirstRejectionCounts(args: seq<A.Arg>, n: nat, steps: seq<Step>, e: D.Data)
    requires Fits(args, n)
    ensures Settles(After(args, n, steps).master, D.Fail, e) <==> FirstTold(args, n, steps) == Some(e)
  {
    var g := After(args, n, steps);
    FirstBrokenIsFirst(args, n, steps);
    hide Inv, After;
    BrokenSettles(g, e);
  }

  lemma BrokenSettles(g: Sys, e: D.Data)
    requires Inv(g)
    ensures Settles(g.master, D.Fail, e) <==> g.firstBroken == Some(e)
  {
    var w := Abs(g);
    assert A.Inv(w) && w.master == MasterOf(g);
    hide D.Inv;
  }

  ghost predicate RejectedWith(g: Sys, e: Option<D.Data>) {
    e.Some? && Settles(g.master, D.Fail, e.value) && SomeRejects(g, e.value)
  }

  /**
   At every moment of every run: the master has resolved only if every promise among the arguments has, and then with
   all their values; it has been rejected only if some promise has, with what that one was rejected with, and that is
   the first rejection told.
   */
  lemma MasterIsRight(args: seq<A.Arg>, n: nat, steps: seq<Step>)
    requires Fits(args, n)
    ensures var g := After(args, n, steps);
            && (g.master.state == D.Resolved ==> g.sent.Some? && Gathered(g, g.sent.value))
            && (g.master.state == D.Rejected ==> RejectedWith(g, FirstTold(args, n, steps)))
  {
    var g := After(args, n, steps);
    A.MasterMeans(Abs(g));
    if g.master.state == D.Resolved {
      StateIsVerdict(g.master, D.Done);
      GatheredWhenKept(g, g.sent.value);
    } else if g.master.state == D.Rejected {
      StateIsVerdict(g.master, D.Fail);
      var e := D.Verdict(g.master).value.1;
      var k :| k in g.settled && g.settled[k] == A.Broken(e);
      ToldTruly(g, g.args[k].id, k);
      FirstRejectionCounts(args, n, steps, e);
      assert Settles(g.master, D.Fail, e) && SomeRejects(g, e);
    }
  }

  lemma GatheredWhenKept(g: Sys, values: seq<A.Value>)
    requires Inv(g) && A.AllKept(Abs(g)) && values == A.Collected(g.args, g.settled)
    ensures Gathered(g, values)
  {
    forall k | 0 <= k < |g.args| && g.args[k].Promise?
      ensures values[k].Got? && Settles(g.subs[g.args[k].id], D.Done, values[k].v)
    {
      ToldTruly(g, g.args[k].id, k);
    }
  }

  ghost predicate AtRest(g: Sys) {
    g.finished && |g.master.frames| == 0 && forall j :: 0 <= j < |g.subs| ==> |g.subs[j].frames| == 0
  }

  /** A deferred at rest has told `when` if it is settled. */
  lemma AllTold(g: Sys, k: nat, w: D.Which)
    requires Inv(g) && AtRest(g) && k < |g.args| && g.args[k].Promise? && w != D.Progress
    requires g.subs[g.args[k].id].state == D.Won(w)
    ensures k in g.settled && (g.settled[k].Kept? <==> w == D.Done)
  {
    var j := g.args[k].id;
    var c := g.subs[j];
    assert SubFits(g, c, j, k);
    assert Attached(g, j, k) && FailAttached(g, j, k);
    D.AllRan(c, w);
    assert c.Regs(w) == if w == D.Done then c.doneRegs else c.failRegs;
    assert k in c.Regs(w);
    D.CalledHas(c.log, w, k);
    var d :| D.Event(w, k, d) in c.log;
  }

  /** When the scan is over and no walk is under way, the master has settled as its promises say. */
  lemma MasterAtRest(args: seq<A.Arg>, n: nat, steps: seq<Step>)
    requires Fits(args, n)
    ensures var g := After(args, n, steps);
            AtRest(g) ==>
              && (g.master.state == D.Resolved <==>
                    forall k :: 0 <= k < |args| && args[k].Promise? ==> StateOf(g, k) == D.Resolved)
              && (g.master.state == D.Rejected <==>
                    exists k :: 0 <= k < |args| && args[k].Promise? && StateOf(g, k) == D.Rejected)
  {
    var g := After(args, n, steps);
    hide Inv, After;
    if AtRest(g) { RestFollows(g); }
  }

  lemma RestFollows(g: Sys)
    requires Inv(g) && AtRest(g)
    ensures g.master.state == D.Resolved <==>
              forall k :: 0 <= k < |g.args| && g.args[k].Promise? ==> StateOf(g, k) == D.Resolved
    ensures g.master.state == D.Rejected <==>
              exists k :: 0 <= k < |g.args| && g.args[k].Promise? && StateOf(g, k) == D.Rejected
  {
    assert Fits(g.args, |g.subs|);
    assert A.Inv(Abs(g));
    hide Inv, AtRest, A.Inv;
    MasterState(g);
    KeysArePromises(Abs(g));
    forall k | 0 <= k < |g.args| && g.args[k].Promise?
      ensures StateOf(g, k) == D.Resolved <==> k in g.settled && g.settled[k].Kept?
      ensures StateOf(g, k) == D.Rejected <==> k in g.settled && g.settled[k].Broken?
    {
      StateTold(g, k);
    }
    if k :| k in g.settled && g.settled[k].Broken? { assert StateOf(g, k) == D.Rejected; }
    if k :| 0 <= k < |g.args| && g.args[k].Promise? && StateOf(g, k) == D.Rejected { assert g.settled[k].Broken?; }
  }

  function StateOf(g: Sys, k: nat): D.State
    requires k < |g.args| && g.args[k].Promise? && g.args[k].id < |g.subs|
  {
    g.subs[g.args[k].id].state
  }

  lemma KeysArePromises(w: A.W)
    requires A.Inv(w)
    ensures forall k :: k in w.settled ==> k < |w.args| && w.args[k].Promise?
  {
  }

  lemma MasterState(g: Sys)
    requires Inv(g) && AtRest(g)
    ensures g.i == |g.args| && (g.master.state == D.Resolved <==> A.AllKept(Abs(g)))
    ensures g.master.state == D.Rejected <==> A.SomeBroken(g.settled)
  {
    A.MasterMeans(Abs(g));
    D.VerdictAtRest(g.master);
    assert Abs(g).finished;
  }

  lemma StateTold(g: Sys, k: nat)
    requires Inv(g) && AtRest(g) && k < |g.args| && g.args[k].Promise?
    ensures StateOf(g, k) == D.Resolved <==> k in g.settled && g.settled[k].Kept?
    ensures StateOf(g, k) == D.Rejected <==> k in g.settled && g.settled[k].Broken?
  {
    var c := g.subs[g.args[k].id];
    if c.state == D.Resolved { AllTold(g, k, D.Done); }
    if c.state == D.Rejected { AllTold(g, k, D.Fail); }
    if k in g.settled {
      ToldTruly(g, g.args[k].id, k);
      D.VerdictAtRest(c);
    }
  }
}
