/**
 `jQuery.when` with two or more arguments. The arguments are scanned in order; a promise settles at most once, at any
 time after its handlers are attached, also while later arguments are still being scanned.
 Module `WhenDeferreds` shows that real deferreds keep to that.
 */
module WhenAll {
  import opened Wrappers

  datatype Arg = Plain(v: nat) | Promise(id: nat)

  /** An entry of `resolveValues`: at first the argument itself, then what the promise resolved with. */
  datatype Value = Given(arg: Arg) | Got(v: nat)

  datatype Outcome = Kept(v: nat) | Broken(e: nat)

  datatype Master = Waiting | Resolved(values: seq<Value>) | Rejected(e: nat)

  /** The closure variables, how far the scan is, and (for the record) how each promise has settled. */
  datatype W = W(
    args: seq<Arg>,
    i: nat,
    finished: bool,
    remaining: int,
    resolveValues: seq<Value>,
    master: Master,
    settled: map<nat, Outcome>,
    firstBroken: Option<nat>)

  datatype Event = Scan | Finish | Done(k: nat, v: nat) | Fail(k: nat, e: nat)

  predicate CanSettle(w: W, k: nat) {
    k < w.i && k < |w.args| && w.args[k].Promise? && k !in w.settled
  }

  predicate Enabled(w: W, e: Event) {
    match e
    case Scan => w.i < |w.args|
    case Finish => w.i == |w.args| && !w.finished
    case Done(k, _) => CanSettle(w, k)
    case Fail(k, _) => CanSettle(w, k)
  }

  function Start(args: seq<Arg>): W {
    W(args, 0, false, |args|, seq(|args|, i requires 0 <= i < |args| => Given(args[i])), Waiting, map[], None)
  }

  /** A settled master stays as it is. */
  function Resolve(w: W): W { if w.master == Waiting then w.(master := Resolved(w.resolveValues)) else w }

  function Reject(w: W, e: nat): W { if w.master == Waiting then w.(master := Rejected(e)) else w }

  function Next(w: W, e: Event): W
    requires |w.resolveValues| == |w.args|
  {
    if !Enabled(w, e) then w
    else match e
      case Scan => w.(i := w.i + 1, remaining := if w.args[w.i].Promise? then w.remaining else w.remaining - 1)
      case Finish =>
        var f := w.(finished := true);
        if f.remaining == 0 then Resolve(f) else f
      case Done(k, v) =>
        var u := w.(resolveValues := w.resolveValues[k := Got(v)], settled := w.settled[k := Kept(v)],
                    remaining := w.remaining - 1);
        if u.remaining == 0 then Resolve(u) else u
      case Fail(k, x) =>
        Reject(w.(settled := w.settled[k := Broken(x)],
                  firstBroken := if w.firstBroken.None? then Some(x) else w.firstBroken), x)
  }

  // ---------------------------------------------------------------- invariant

  /** How many of the first `n` arguments are promises that have not resolved. */
  function Open(args: seq<Arg>, n: nat, settled: map<nat, Outcome>): nat
    requires n <= |args|
  {
    if n == 0 then 0
    else
      Open(args, n - 1, settled)
      + if args[n - 1].Promise? && !(n - 1 in settled && settled[n - 1].Kept?) then 1 else 0
  }

  /** Each value at its own position. */
  function Collected(args: seq<Arg>, settled: map<nat, Outcome>): seq<Value> {
    seq(|args|, k requires 0 <= k < |args| =>
      if k in settled && settled[k].Kept? then Got(settled[k].v) else Given(args[k]))
  }

  ghost predicate SomeBroken(settled: map<nat, Outcome>) {
    exists k :: k in settled && settled[k].Broken?
  }

  ghost predicate BrokenWith(settled: map<nat, Outcome>, e: nat) {
    exists k :: k in settled && settled[k] == Broken(e)
  }

  ghost predicate Inv(w: W) {
    && w.i <= |w.args|
    && (forall k :: k in w.settled ==> k < w.i && w.args[k].Promise?)
    && w.remaining == Open(w.args, w.i, w.settled) + (|w.args| - w.i)
    && w.resolveValues == Collected(w.args, w.settled)
    && (w.finished ==> w.i == |w.args|)
    && (w.firstBroken.Some? <==> SomeBroken(w.settled))
    && (w.firstBroken.Some? ==> BrokenWith(w.settled, w.firstBroken.value))
    && (w.master.Rejected? <==> w.firstBroken.Some?)
    && (w.master.Rejected? ==> w.firstBroken == Some(w.master.e))
    && (w.master.Resolved? ==> w.remaining == 0 && w.master.values == w.resolveValues)
    && (w.finished && w.remaining == 0 ==> w.master.Resolved?)
  }

  lemma {:induction false} OpenSettled(args: seq<Arg>, n: nat, settled: map<nat, Outcome>, k: nat, o: Outcome)
    requires n <= |args| && k < n && args[k].Promise? && k !in settled
    ensures Open(args, n, settled[k := o]) == Open(args, n, settled) - if o.Kept? then 1 else 0
    decreases n
  {
    if k < n - 1 { OpenSettled(args, n - 1, settled, k, o); } else { OpenOther(args, n - 1, settled, k, o); }
  }

  lemma {:induction false} OpenOther(args: seq<Arg>, n: nat, settled: map<nat, Outcome>, k: nat, o: Outcome)
    requires n <= |args| && k >= n
    ensures Open(args, n, settled[k := o]) == Open(args, n, settled)
    decreases n
  {
    if n == 0 {
    } else {
      OpenOther(args, n - 1, settled, k, o);
    }
  }

  /** A broken promise is never resolved, so the count cannot reach zero. */
  lemma {:induction false} OpenBroken(args: seq<Arg>, n: nat, settled: map<nat, Outcome>, k: nat)
    requires n <= |args| && k < n && args[k].Promise? && k in settled && settled[k].Broken?
    ensures Open(args, n, settled) > 0
    decreases n
  {
    if k < n - 1 { OpenBroken(args, n - 1, settled, k); }
  }

  lemma {:induction false} OpenZero(args: seq<Arg>, n: nat, settled: map<nat, Outcome>)
    requires n <= |args|
    ensures Open(args, n, settled) == 0
       <==> forall k :: 0 <= k < n && args[k].Promise? ==> k in settled && settled[k].Kept?
    decreases n
  {
    if n == 0 {
    } else {
      OpenZero(args, n - 1, settled);
    }
  }

  lemma ScanKeeps(w: W)
    requires Inv(w) && Enabled(w, Scan)
    ensures Inv(Next(w, Scan))
  {
  }

  lemma FinishKeeps(w: W)
    requires Inv(w) && Enabled(w, Finish)
    ensures Inv(Next(w, Finish))
  {
    if k :| k in w.settled && w.settled[k].Broken? { OpenBroken(w.args, w.i, w.settled, k); }
  }

  /** The record when one more promise has settled. */
  lemma SettledMore(w: W, k: nat, o: Outcome)
    requires Inv(w) && CanSettle(w, k)
    ensures var settled := w.settled[k := o];
            && Open(w.args, w.i, settled) == Open(w.args, w.i, w.settled) - (if o.Kept? then 1 else 0)
            && Collected(w.args, settled) == (if o.Kept? then w.resolveValues[k := Got(o.v)] else w.resolveValues)
            && (SomeBroken(settled) <==> o.Broken? || SomeBroken(w.settled))
            && (SomeBroken(settled) ==> Open(w.args, w.i, settled) > 0)
            && (o.Broken? ==> BrokenWith(settled, o.e))
            && (w.firstBroken.Some? ==> BrokenWith(settled, w.firstBroken.value))
  {
    OpenSettled(w.args, w.i, w.settled, k, o);
    var settled := w.settled[k := o];
    if o.Broken? { assert settled[k].Broken?; }
    if j :| j in w.settled && w.settled[j].Broken? { assert settled[j].Broken?; }
    if j :| j in settled && settled[j].Broken? { OpenBroken(w.args, w.i, settled, j); }
    if w.firstBroken.Some? {
      var j :| j in w.settled && w.settled[j] == Broken(w.firstBroken.value);
      assert settled[j] == w.settled[j];
    }
  }

  lemma DoneKeeps(w: W, k: nat, v: nat)
    requires Inv(w) && CanSettle(w, k)
    ensures Inv(Next(w, Done(k, v)))
  {
    SettledMore(w, k, Kept(v));
  }

  lemma FailKeeps(w: W, k: nat, e: nat)
    requires Inv(w) && CanSettle(w, k)
    ensures Inv(Next(w, Fail(k, e)))
  {
    SettledMore(w, k, Broken(e));
  }

  lemma StepInv(w: W, e: Event)
    requires Inv(w)
    ensures Inv(Next(w, e))
  {
    hide Inv, Next;
    if !Enabled(w, e) { Disabled(w, e); }
    else {
      match e
      case Scan => ScanKeeps(w);
      case Finish => FinishKeeps(w);
      case Done(k, v) => DoneKeeps(w, k, v);
      case Fail(k, x) => FailKeeps(w, k, x);
    }
  }

  lemma Disabled(w: W, e: Event)
    requires Inv(w) && !Enabled(w, e)
    ensures Next(w, e) == w
  {
  }

  lemma StartInv(args: seq<Arg>)
    ensures Inv(Start(args))
  {
    assert Start(args).resolveValues == Collected(args, map[]);
  }

  // ---------------------------------------------------------------- all interleavings

  ghost function After(args: seq<Arg>, es: seq<Event>): (w: W)
    ensures Inv(w) && w.args == args
    decreases |es|
  {
    if |es| == 0 then
      StartInv(args);
      Start(args)
    else
      var before := After(args, es[..|es| - 1]);
      StepInv(before, es[|es| - 1]);
      assert |before.resolveValues| == |before.args|;
      hide Inv;
      Next(before, es[|es| - 1])
  }

  /**
   Whatever the order of settlements: once the scan is over, the master is resolved exactly when every promise has
   resolved, with each value at its own position; it is rejected exactly when some promise has been rejected, with
   the first rejection; otherwise it waits. `remaining` counts the promises not yet resolved and the arguments not
   yet scanned.
   */
  lemma MasterFollows(args: seq<Arg>, es: seq<Event>)
    ensures var w := After(args, es);
            && w.remaining == Open(args, w.i, w.settled) + (|args| - w.i)
            && (w.master.Resolved? ==> AllKept(w) && w.master.values == Collected(args, w.settled))
            && (w.finished && AllKept(w) ==> w.master.Resolved?)
            && (w.master.Rejected? <==> SomeBroken(w.settled))
            && (w.master.Rejected? ==> w.firstBroken == Some(w.master.e) && BrokenWith(w.settled, w.master.e))
  {
    MasterMeans(After(args, es));
  }

  /** The scan is over, and every promise has resolved. */
  ghost predicate AllKept(w: W) {
    w.i == |w.args| && forall k :: 0 <= k < |w.args| && w.args[k].Promise? ==> k in w.settled && w.settled[k].Kept?
  }

  lemma MasterMeans(w: W)
    requires Inv(w)
    ensures w.master.Resolved? ==> AllKept(w) && w.master.values == Collected(w.args, w.settled)
    ensures w.finished && AllKept(w) ==> w.master.Resolved?
    ensures w.master.Rejected? <==> SomeBroken(w.settled)
    ensures w.master.Rejected? ==> BrokenWith(w.settled, w.master.e)
  {
    OpenZero(w.args, w.i, w.settled);
  }

  /** The outcome is final, and the first rejection is the one that counts. */
  lemma MasterSettlesOnce(args: seq<Arg>, es: seq<Event>, e: Event)
    ensures var w := After(args, es);
            && (w.master != Waiting ==> Next(w, e).master == w.master)
            && (w.firstBroken.Some? ==> Next(w, e).firstBroken == w.firstBroken)
            && (w.firstBroken.None? && Enabled(w, e) && e.Fail? ==> Next(w, e).master == Rejected(e.e))
  {
    var w := After(args, es);
    StepInv(w, e);
    if w.master.Resolved? && Enabled(w, e) && (e.Done? || e.Fail?) {
      OpenZero(args, w.i, w.settled);
    }
  }

  // ---------------------------------------------------------------- the closure variables

  class WhenCall {
    const args: seq<Arg>
    var i: nat
    var finished: bool
    var remaining: int
    var resolveValues: seq<Value>
    var master: Master
    ghost var settled: map<nat, Outcome>
    ghost var firstBroken: Option<nat>

    ghost function State(): W
      reads this
    {
      W(args, i, finished, remaining, resolveValues, master, settled, firstBroken)
    }

    constructor (args: seq<Arg>)
      requires |args| > 1
      ensures State() == Start(args) && Inv(State())
    {
      this.args := args;
      i, finished, remaining, master := 0, false, |args|, Waiting;
      resolveValues := seq(|args|, i requires 0 <= i < |args| => Given(args[i]));
      settled, firstBroken := map[], None;
    }

    /** The body of the `for` loop; the handlers of a promise may be called from now on. */
    method ScanOne()
      requires Inv(State()) && Enabled(State(), Scan)
      modifies this
      ensures State() == Next(old(State()), Scan) && Inv(State())
    {
      StepInv(State(), Scan);
      if args[i].Plain? { remaining := remaining - 1; }
      i := i + 1;
    }

    method FinishScan()
      requires Inv(State()) && Enabled(State(), Finish)
      modifies this
      ensures State() == Next(old(State()), Finish) && Inv(State())
    {
      StepInv(State(), Finish);
      finished := true;
      if remaining == 0 { ResolveMaster(); }
    }

    /** `updateFunc( k, resolveContexts, resolveValues )` */
    method OnDone(k: nat, v: nat)
      requires Inv(State()) && Enabled(State(), Done(k, v))
      modifies this
      ensures State() == Next(old(State()), Done(k, v)) && Inv(State())
    {
      StepInv(State(), Done(k, v));
      settled := settled[k := Kept(v)];
      resolveValues := resolveValues[k := Got(v)];
      remaining := remaining - 1;
      if remaining == 0 { ResolveMaster(); }
    }

    /** `deferred.reject` */
    method OnFail(k: nat, e: nat)
      requires Inv(State()) && Enabled(State(), Fail(k, e))
      modifies this
      ensures State() == Next(old(State()), Fail(k, e)) && Inv(State())
    {
      StepInv(State(), Fail(k, e));
      settled := settled[k := Broken(e)];
      if firstBroken.None? { firstBroken := Some(e); }
      if master == Waiting { master := Rejected(e); }
    }

    method ResolveMaster()
      modifies this`master
      ensures State() == Resolve(old(State()))
    {
      if master == Waiting { master := Resolved(resolveValues); }
    }
  }
}
