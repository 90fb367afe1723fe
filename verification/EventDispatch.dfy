/**
 What a dispatch calls, said without the loops: which handlers are in the queue, in which order they are called, and
 where a handler that stops the event ends the calls.
 */
module EventDispatch {
  import opened Wrappers
  import opened DomTree
  import opened EventHandlers

  // ---------------------------------------------------------------- what a pattern matches

  /** `.off( type )`: all handlers bound under this name, and no others. */
  lemma TypeAlone(t: string, h: HandleObj)
    ensures Pattern(false, t, None, None, "").Matches(h) <==> h.origType == t
    ensures forall any :: Pattern(true, any, None, None, "").Matches(h)
  {
  }

  /** `.off( type, selector, handler )`: the handlers that agree in all three. Without selector it does not matter. */
  lemma HandlerAlone(t: string, guid: nat, selector: string, h: HandleObj)
    requires selector != "**"
    ensures Pattern(false, t, Some(guid), None, selector).Matches(h) <==>
            h.origType == t && h.guid == guid && (selector == "" || h.selector == selector)
  {
  }

  /** The selector `**` takes all delegated handlers and no direct one. */
  lemma AllDelegated(h: HandleObj)
    requires h.selector != "**"
    ensures Pattern(false, h.origType, None, None, "**").Matches(h) <==> h.Delegated()
  {
  }

  /** With namespaces only handlers within them go. */
  lemma NamespaceAlone(test: string -> bool, h: HandleObj)
    ensures Pattern(false, h.origType, None, Some(test), "").Matches(h) <==> test(h.namespace)
  {
  }

  // ---------------------------------------------------------------- the queue

  /** Handler `h` is in the queue for element `n`. */
  ghost predicate Queued(queue: seq<(Node, seq<HandleObj>)>, n: Node, h: HandleObj) {
    exists i :: 0 <= i < |queue| && queue[i].0 == n && h in queue[i].1
  }

  /** `n` is the target or an ancestor of it, and below the listener if that is an ancestor of the target. */
  ghost predicate OnTheWay(ev: Ev, cur: Node, n: Node)
    requires ev.Valid() && ev.tree.Has(cur)
  {
    && ev.tree.Has(n) && (n == cur || ev.tree.IsAncestor(n, cur))
    && cur != ev.listener && n != ev.listener
    && (ev.tree.IsAncestor(ev.listener, cur) ==> ev.tree.IsAncestor(ev.listener, n))
  }

  ghost predicate MayRun(g: Groups, ev: Ev, n: Node, h: HandleObj)
    requires ev.Valid() && ev.tree.Has(n)
  {
    ev.tree.IsElement(n) && (n !in ev.disabled || !ev.click) && h in g.delegated && ev.matches(h.selector, n)
  }

  lemma QueuedAppend(a: seq<(Node, seq<HandleObj>)>, b: seq<(Node, seq<HandleObj>)>, n: Node, h: HandleObj)
    ensures Queued(a + b, n, h) <==> Queued(a, n, h) || Queued(b, n, h)
  {
    var c := a + b;
    if i :| 0 <= i < |a| && a[i].0 == n && h in a[i].1 { assert c[i].0 == n; }
    if i :| 0 <= i < |b| && b[i].0 == n && h in b[i].1 { assert c[|a| + i].0 == n; }
    if i :| 0 <= i < |c| && c[i].0 == n && h in c[i].1 {
      assert if i < |a| then a[i].0 == n && h in a[i].1 else b[i - |a|].0 == n && h in b[i - |a|].1;
    }
  }

  lemma OwnExactly(g: Groups, ev: Ev, cur: Node, n: Node, h: HandleObj)
    requires ev.Valid() && ev.tree.Has(cur)
    ensures Queued(Own(g, ev, cur), n, h) <==> n == cur && MayRun(g, ev, cur, h)
  {
    var own := Own(g, ev, cur);
    if n == cur && MayRun(g, ev, cur, h) {
      assert h in Matching(g.delegated, cur, ev.matches);
      assert own[0].0 == n && h in own[0].1;
    }
  }

  /** One step of the way. */
  lemma WayUp(ev: Ev, cur: Node, n: Node)
    requires ev.Valid() && ev.tree.Has(cur) && cur != ev.listener
    ensures OnTheWay(ev, cur, n) <==>
            n == cur || (ev.tree.Parent(cur).Some? && OnTheWay(ev, ev.tree.Parent(cur).value, n))
  {
    var t := ev.tree;
    t.AxisStep(ParentNode, n, cur);
    t.AxisStep(ParentNode, ev.listener, cur);
    if t.Parent(cur).Some? {
      var p := t.Parent(cur).value;
      if p == ev.listener {
        t.AxisStep(ParentNode, ev.listener, p);
        if t.Has(n) { t.AxisStep(ParentNode, ev.listener, n); }
        t.AxisStep(ParentNode, n, p);
      }
    }
  }

  lemma {:induction false} DelegationsExactly(g: Groups, ev: Ev, cur: Node, n: Node, h: HandleObj)
    requires ev.Valid() && ev.tree.Has(cur)
    ensures Queued(Delegations(g, ev, cur), n, h) <==> OnTheWay(ev, cur, n) && MayRun(g, ev, n, h)
    decreases ev.tree.depth[cur]
  {
    if cur != ev.listener {
      QueuedAppend(Own(g, ev, cur), Upwards(g, ev, cur), n, h);
      OwnExactly(g, ev, cur, n, h);
      WayUp(ev, cur, n);
      if ev.tree.Parent(cur).Some? { DelegationsExactly(g, ev, ev.tree.Parent(cur).value, n, h); }
    }
  }

  /**
   Exactly these handlers are queued: those bound directly, for the listener; and, unless it is a click with another
   than the left button, the delegated ones for every enabled element on the way up from the target that their
   selector matches.
   */
  lemma QueueExactly(g: Groups, ev: Ev, n: Node, h: HandleObj)
    requires ev.Valid()
    ensures Queued(QueueOf(g, ev), n, h) <==>
            || (n == ev.listener && h in g.direct)
            || (!(ev.click && ev.button) && OnTheWay(ev, ev.target, n) && MayRun(g, ev, n, h))
  {
    var first := if |g.delegated| > 0 && !(ev.button && ev.click) then Delegations(g, ev, ev.target) else [];
    var last := if |g.direct| > 0 then [(ev.listener, g.direct)] else [];
    QueuedAppend(first, last, n, h);
    DelegationsExactly(g, ev, ev.target, n, h);
    assert Queued(last, n, h) <==> n == ev.listener && h in g.direct by {
      if n == ev.listener && h in g.direct { assert last[0].0 == n && h in last[0].1; }
    }
  }

  /** The directly bound handlers come last, and each element has one entry, with its handlers in list order. */
  lemma QueueOrder(g: Groups, ev: Ev)
    requires ev.Valid()
    ensures var queue := QueueOf(g, ev);
            && (forall i, j :: 0 <= i < j < |queue| ==> queue[i].0 != queue[j].0)
            && (|g.direct| > 0 ==> |queue| > 0 && queue[|queue| - 1] == (ev.listener, g.direct))
            && (forall i :: 0 <= i < |queue| && queue[i].0 != ev.listener ==>
                  queue[i].1 == Matching(g.delegated, queue[i].0, ev.matches))
  {
    var first := Delegations(g, ev, ev.target);
    DelegationsInnerFirst(g, ev, ev.target);
    forall i | 0 <= i < |first| ensures first[i].0 != ev.listener {
      var h := first[i].1[0];
      assert Queued(first, first[i].0, h);
      DelegationsExactly(g, ev, ev.target, first[i].0, h);
    }
  }

  // ---------------------------------------------------------------- the calls

  /** The calls that one entry of the queue is due. */
  function Due(elem: Node, hs: seq<HandleObj>, ev: Ev): seq<(Node, HandleObj)> {
    if |hs| == 0 then []
    else (if ev.namespace.None? || ev.namespace.value(hs[0].namespace) then [(elem, hs[0])] else [])
         + Due(elem, hs[1..], ev)
  }

  /** And the whole queue. */
  function Flat(queue: seq<(Node, seq<HandleObj>)>, ev: Ev): seq<(Node, HandleObj)>
    decreases |queue|
  {
    if |queue| == 0 then [] else Due(queue[0].0, queue[0].1, ev) + Flat(queue[1..], ev)
  }

  /** What the `i`-th handler called does. */
  function TurnAt(world: seq<Turn>, i: nat): Turn {
    if i < |world| then world[i] else Turn([], false, false)
  }

  predicate Stopping(world: seq<Turn>, i: nat) { TurnAt(world, i).stops || TurnAt(world, i).stopsNow }

  function ChangesOf(world: seq<Turn>, n: nat): seq<Change> {
    if n == 0 then [] else ChangesOf(world, n - 1) + TurnAt(world, n - 1).changes
  }

  /** The state of a dispatch over `world` when the calls `log` have been made. */
  ghost predicate Stands(world: seq<Turn>, p: Progress) {
    && p.world == (if |p.log| <= |world| then world[|p.log|..] else [])
    && p.changes == ChangesOf(world, |p.log|)
    && (p.stopped <==> exists i :: 0 <= i < |p.log| && Stopping(world, i))
    && (p.stoppedNow <==> exists i :: 0 <= i < |p.log| && TurnAt(world, i).stopsNow)
  }

  lemma OneMoreCalled(world: seq<Turn>, p: Progress, elem: Node, h: HandleObj)
    requires Stands(world, p)
    ensures Stands(world, Called(p, elem, h))
  {
    var n, r := |p.log|, Called(p, elem, h);
    assert Now(p.world) == TurnAt(world, n);
    if p.stopped { var i :| 0 <= i < n && Stopping(world, i); assert 0 <= i < |r.log| && Stopping(world, i); }
    if p.stoppedNow { var i :| 0 <= i < n && TurnAt(world, i).stopsNow; assert 0 <= i < |r.log|; }
    if Stopping(world, n) { assert 0 <= n < |r.log| && Stopping(world, n); }
    if TurnAt(world, n).stopsNow { assert 0 <= n < |r.log| && TurnAt(world, n).stopsNow; }
  }

  /**
   The calls of one entry: all that are due, or those up to the first handler that stops the event at once. Nothing is
   called when the event has been stopped at once before.
   */
  ghost predicate Served(world: seq<Turn>, p: Progress, r: Progress, due: seq<(Node, HandleObj)>) {
    && Stands(world, r) && p.log <= r.log <= p.log + due
    && (forall i :: |p.log| <= i < |r.log| - 1 ==> !TurnAt(world, i).stopsNow)
    && (p.stoppedNow ==> r == p)
    && (!r.stoppedNow ==> r.log == p.log + due)
  }

  lemma {:induction false} EntryServed(world: seq<Turn>, elem: Node, hs: seq<HandleObj>, ev: Ev, p: Progress)
    requires Stands(world, p)
    ensures Served(world, p, RunHandlers(elem, hs, ev, p), Due(elem, hs, ev))
    decreases |hs|
  {
    var due := Due(elem, hs, ev);
    if |hs| == 0 || p.stoppedNow {
      assert p.log <= p.log + due;
      if |hs| == 0 { assert p.log + due == p.log; }
    } else if ev.namespace.None? || ev.namespace.value(hs[0].namespace) {
      var q := Called(p, elem, hs[0]);
      OneMoreCalled(world, p, elem, hs[0]);
      EntryServed(world, elem, hs[1..], ev, q);
      Regroup(p.log, [(elem, hs[0])], Due(elem, hs[1..], ev));
      NotBefore(world, p, q);
    } else {
      assert [] + Due(elem, hs[1..], ev) == Due(elem, hs[1..], ev);
      EntryServed(world, elem, hs[1..], ev, p);
    }
  }

  lemma NotBefore(world: seq<Turn>, p: Progress, q: Progress)
    requires Stands(world, q) && |q.log| == |p.log| + 1
    ensures !q.stoppedNow ==> !TurnAt(world, |p.log|).stopsNow
  {
    assert 0 <= |p.log| < |q.log|;
  }

  /**
   Where the calls end: `k` entries are served, the last one to its end unless the event is stopped at once; in the ones
   before it nothing stops the event.
   */
  ghost predicate EndsAt(queue: seq<(Node, seq<HandleObj>)>, ev: Ev, world: seq<Turn>, p: Progress, r: Progress,
      k: nat) {
    && k <= |queue| && Stands(world, r)
    && p.log <= r.log <= p.log + Flat(queue[..k], ev)
    && (forall i :: |p.log| <= i < |r.log| - 1 ==> !TurnAt(world, i).stopsNow)
    && (!r.stoppedNow ==> r.log == p.log + Flat(queue[..k], ev))
    && (k > 0 ==>
          && |p.log| + |Flat(queue[..k - 1], ev)| <= |r.log|
          && forall i :: |p.log| <= i < |p.log| + |Flat(queue[..k - 1], ev)| ==> !Stopping(world, i))
    && (k < |queue| ==> r.stopped)
  }

  lemma FlatFirst(queue: seq<(Node, seq<HandleObj>)>, ev: Ev, k: nat)
    requires 0 < k <= |queue|
    ensures Flat(queue[..k], ev) == Due(queue[0].0, queue[0].1, ev) + Flat(queue[1..][..k - 1], ev)
  {
    assert queue[..k][1..] == queue[1..][..k - 1] && queue[..k][0] == queue[0];
  }

  lemma {:induction false} QueueServed(queue: seq<(Node, seq<HandleObj>)>, ev: Ev, world: seq<Turn>, p: Progress)
      returns (k: nat)
    requires Stands(world, p)
    ensures EndsAt(queue, ev, world, p, RunQueue(queue, ev, p), k) && (p.stopped ==> k == 0)
    decreases |queue|
  {
    if |queue| == 0 || p.stopped {
      k := 0;
      assert queue[..0] == [] && p.log + [] == p.log;
    } else {
      var q := RunHandlers(queue[0].0, queue[0].1, ev, p);
      EntryServed(world, queue[0].0, queue[0].1, ev, p);
      var rest := QueueServed(queue[1..], ev, world, q);
      k := rest + 1;
      OneMoreEntry(queue, ev, world, p, q, RunQueue(queue, ev, p), rest);
    }
  }

  lemma OneMoreEntry(queue: seq<(Node, seq<HandleObj>)>, ev: Ev, world: seq<Turn>, p: Progress, q: Progress,
      r: Progress, k: nat)
    requires |queue| > 0 && Stands(world, p) && Stands(world, q) && !p.stopped
    requires Served(world, p, q, Due(queue[0].0, queue[0].1, ev))
    requires EndsAt(queue[1..], ev, world, q, r, k) && (q.stopped ==> k == 0)
    ensures EndsAt(queue, ev, world, p, r, k + 1)
  {
    var due, rest := Due(queue[0].0, queue[0].1, ev), Flat(queue[1..][..k], ev);
    FlatFirst(queue, ev, k + 1);
    Regroup(p.log, due, rest);
    StopsLast(world, q, r);
    if k == 0 {
      assert queue[..0] == [] && queue[1..][..0] == [] && q.log + [] == q.log && due + [] == due;
      assert queue[..1][1..] == [];
    } else {
      FlatFirst(queue, ev, k);
      assert queue[1..][..k - 1] == queue[1..][..k - 1];
      assert forall i :: |p.log| <= i < |q.log| ==> !Stopping(world, i);
    }
  }

  /** An event that has been stopped stays so, and a turn that stops it at once is the last. */
  lemma StopsLast(world: seq<Turn>, q: Progress, r: Progress)
    requires Stands(world, q) && Stands(world, r) && q.log <= r.log
    ensures q.stopped ==> r.stopped
    ensures q.stoppedNow ==> r.stoppedNow && q.stopped
    ensures !q.stoppedNow ==> forall i :: 0 <= i < |q.log| ==> !TurnAt(world, i).stopsNow
    ensures !q.stopped ==> forall i :: 0 <= i < |q.log| ==> !Stopping(world, i)
  {
    if q.stopped { var i :| 0 <= i < |q.log| && Stopping(world, i); assert 0 <= i < |r.log|; }
    if q.stoppedNow { var i :| 0 <= i < |q.log| && TurnAt(world, i).stopsNow; assert Stopping(world, i); }
  }

  lemma StartStands(world: seq<Turn>)
    ensures Stands(world, Start(world))
  {
  }

  lemma {:induction false} FlatPrefix(queue: seq<(Node, seq<HandleObj>)>, ev: Ev, k: nat)
    requires k <= |queue|
    ensures Flat(queue[..k], ev) <= Flat(queue, ev)
    decreases |queue|
  {
    if k == 0 {
      assert queue[..0] == [];
    } else {
      FlatFirst(queue, ev, k);
      FlatPrefix(queue[1..], ev, k - 1);
      var due := Due(queue[0].0, queue[0].1, ev);
      assert due + Flat(queue[1..][..k - 1], ev) <= due + Flat(queue[1..], ev);
    }
  }

  lemma {:induction false} DueElem(elem: Node, hs: seq<HandleObj>, ev: Ev)
    ensures forall x :: x in Due(elem, hs, ev) <==>
              x.0 == elem && x.1 in hs && (ev.namespace.None? || ev.namespace.value(x.1.namespace))
    decreases |hs|
  {
    if |hs| == 0 {
    } else {
      DueElem(elem, hs[1..], ev);
      assert forall h :: h in hs <==> h == hs[0] || h in hs[1..];
    }
  }

  lemma {:induction false} FlatLast(queue: seq<(Node, seq<HandleObj>)>, ev: Ev, k: nat)
    requires 0 < k <= |queue|
    ensures Flat(queue[..k], ev) == Flat(queue[..k - 1], ev) + Due(queue[k - 1].0, queue[k - 1].1, ev)
    decreases k
  {
    FlatFirst(queue, ev, k);
    if k == 1 {
      assert queue[..0] == [] && queue[1..][..0] == [];
      var due := Due(queue[0].0, queue[0].1, ev);
      assert due + [] == due == [] + due;
    } else {
      FlatFirst(queue, ev, k - 1);
      FlatLast(queue[1..], ev, k - 1);
      assert queue[1..][k - 2] == queue[k - 1];
      Regroup(Due(queue[0].0, queue[0].1, ev), Flat(queue[1..][..k - 2], ev), Due(queue[k - 1].0, queue[k - 1].1, ev));
    }
  }

  lemma SomeEntry(queue: seq<(Node, seq<HandleObj>)>, ev: Ev, world: seq<Turn>, run: Progress, k: nat)
    requires EndsAt(queue, ev, world, Start(world), run, k) && |run.log| > 0
    ensures k > 0
  {
    assert queue[..0] == [];
  }

  lemma LastEntry(queue: seq<(Node, seq<HandleObj>)>, ev: Ev, k: nat, log: seq<(Node, HandleObj)>, j: nat)
    requires 0 < k <= |queue| && log <= [] + Flat(queue[..k], ev) && |Flat(queue[..k - 1], ev)| <= j < |log|
    ensures log[j].0 == queue[k - 1].0
  {
    var a, due := Flat(queue[..k - 1], ev), Due(queue[k - 1].0, queue[k - 1].1, ev);
    FlatLast(queue, ev, k);
    DueElem(queue[k - 1].0, queue[k - 1].1, ev);
    hide Due, Flat;
    assert log[j] == (a + due)[j] == due[j - |a|];
    assert due[j - |a|] in due;
  }

  /** From the entry on in which the event is stopped, the calls are on its element. */
  lemma SameEntry(queue: seq<(Node, seq<HandleObj>)>, ev: Ev, world: seq<Turn>, run: Progress, k: nat, i: nat, j: nat)
    requires EndsAt(queue, ev, world, Start(world), run, k) && i <= j < |run.log| && Stopping(world, i)
    ensures k > 0 && run.log[j].0 == queue[k - 1].0
  {
    SomeEntry(queue, ev, world, run, k);
    LastEntry(queue, ev, k, run.log, j);
  }

  lemma NothingStopped(queue: seq<(Node, seq<HandleObj>)>, ev: Ev, world: seq<Turn>, run: Progress, k: nat)
    requires EndsAt(queue, ev, world, Start(world), run, k)
    ensures run.log <= Flat(queue, ev)
    ensures (forall i :: 0 <= i < |run.log| ==> !Stopping(world, i)) ==> run.log == Flat(queue, ev)
    ensures !run.stoppedNow ==> run.log == Flat(queue[..k], ev)
  {
    FlatPrefix(queue, ev, k);
    assert [] + Flat(queue[..k], ev) == Flat(queue[..k], ev);
    if forall i :: 0 <= i < |run.log| ==> !Stopping(world, i) {
      assert forall i :: 0 <= i < |run.log| && TurnAt(world, i).stopsNow ==> Stopping(world, i);
      assert queue[..|queue|] == queue;
    }
  }

  /**
   The calls of a dispatch are the entries of the queue one after the other, less those outside the namespace: all of
   them, unless a handler stops the event. After a handler that stops it only handlers of the same element are called,
   and all of them; after one that stops it at once none is. The changes made are those of the handlers called, in call
   order.
   */
  lemma DispatchEnds(queue: seq<(Node, seq<HandleObj>)>, ev: Ev, world: seq<Turn>)
    ensures var run := RunQueue(queue, ev, Start(world));
            var n := |run.log|;
            && run.log <= Flat(queue, ev) && run.changes == ChangesOf(world, n)
            && ((forall i :: 0 <= i < n ==> !Stopping(world, i)) ==> run.log == Flat(queue, ev))
            && (forall i, j :: 0 <= i < j < n && Stopping(world, i) ==> run.log[j].0 == run.log[i].0)
            && (forall i :: 0 <= i < n && TurnAt(world, i).stopsNow ==> n == i + 1)
            && ((forall i :: 0 <= i < n ==> !TurnAt(world, i).stopsNow) ==>
                  exists k :: 0 <= k <= |queue| && run.log == Flat(queue[..k], ev))
  {
    var run := RunQueue(queue, ev, Start(world));
    StartStands(world);
    var k := QueueServed(queue, ev, world, Start(world));
    hide RunQueue;
    NothingStopped(queue, ev, world, run, k);
    assert run.changes == ChangesOf(world, |run.log|);
    assert forall i :: 0 <= i < |run.log| - 1 ==> !TurnAt(world, i).stopsNow;
    assert (forall i :: 0 <= i < |run.log| ==> !TurnAt(world, i).stopsNow) ==> !run.stoppedNow;
    forall i, j | 0 <= i < j < |run.log| && Stopping(world, i) ensures run.log[j].0 == run.log[i].0 {
      SameEntry(queue, ev, world, run, k, i, i);
      SameEntry(queue, ev, world, run, k, i, j);
    }
    hide EndsAt, Flat;
  }
}
