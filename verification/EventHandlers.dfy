/**
 The handler list of one event type on one element: delegated handlers stand in front, counted by `delegateCount`,
 directly bound ones behind. `add` and `remove` splice the list in place.
 */
module EventHandlers {
  import opened Wrappers
  import opened DomTree

  /** `selector` is "" for a directly bound handler. `namespaces` and the type are opaque to the list. */
  datatype HandleObj = HandleObj(origType: string, guid: nat, selector: string, namespace: string)
  {
    predicate Delegated() { selector != "" }
  }

  /** What `remove` looks for; absent parts match anything. `namespace` is the test of its regular expression. */
  datatype Pattern = Pattern(
    mappedTypes: bool,
    origType: string,
    guid: Option<nat>,
    namespace: Option<string -> bool>,
    selector: string)
  {
    predicate Matches(h: HandleObj) {
      && (mappedTypes || origType == h.origType)
      && (guid.None? || guid.value == h.guid)
      && (namespace.None? || namespace.value(h.namespace))
      && (selector == "" || selector == h.selector || (selector == "**" && h.Delegated()))
    }
  }

  datatype Change = Add(h: HandleObj) | Remove(p: Pattern)

  // ---------------------------------------------------------------- the two groups

  /** The list as it should be: each group in the order of insertion, less what has been removed. */
  datatype Groups = Groups(delegated: seq<HandleObj>, direct: seq<HandleObj>)

  function Survivors(s: seq<HandleObj>, p: Pattern): (r: seq<HandleObj>)
    ensures forall h :: h in r <==> h in s && !p.Matches(h)
  {
    if |s| == 0 then [] else (if p.Matches(s[0]) then [] else [s[0]]) + Survivors(s[1..], p)
  }

  function Changed(g: Groups, c: Change): Groups {
    match c
    case Add(h) => if h.Delegated() then g.(delegated := g.delegated + [h]) else g.(direct := g.direct + [h])
    case Remove(p) => Groups(Survivors(g.delegated, p), Survivors(g.direct, p))
  }

  ghost function AllChanges(cs: seq<Change>): Groups {
    if |cs| == 0 then Groups([], []) else Changed(AllChanges(cs[..|cs| - 1]), cs[|cs| - 1])
  }

  /** In every state the counter is right: the prefix has the handlers with a selector, and only those. */
  lemma {:induction false} GroupsAreSplit(cs: seq<Change>)
    ensures var g := AllChanges(cs);
            (forall h :: h in g.delegated ==> h.Delegated()) && (forall h :: h in g.direct ==> !h.Delegated())
    decreases |cs|
  {
    if |cs| == 0 {
    } else {
      GroupsAreSplit(cs[..|cs| - 1]);
    }
  }

  /** A later removal in `cs` takes the handler away. */
  ghost predicate Removed(cs: seq<Change>, h: HandleObj) {
    exists i :: 0 <= i < |cs| && cs[i].Remove? && cs[i].p.Matches(h)
  }

  /** One group, said from the history: the handlers added and not removed since, in the order of adding. */
  ghost function Alive(cs: seq<Change>, delegated: bool): seq<HandleObj> {
    if |cs| == 0 then []
    else (if cs[0].Add? && cs[0].h.Delegated() == delegated && !Removed(cs[1..], cs[0].h) then [cs[0].h] else [])
         + Alive(cs[1..], delegated)
  }

  lemma RemovedSnoc(cs: seq<Change>, c: Change, h: HandleObj)
    ensures Removed(cs + [c], h) <==> Removed(cs, h) || (c.Remove? && c.p.Matches(h))
  {
    assert (cs + [c])[|cs|] == c;
    if Removed(cs, h) {
      var i :| 0 <= i < |cs| && cs[i].Remove? && cs[i].p.Matches(h);
      assert (cs + [c])[i] == cs[i];
    }
  }

  function OneMore(s: seq<HandleObj>, c: Change, delegated: bool): seq<HandleObj> {
    match c
    case Add(h) => if h.Delegated() == delegated then s + [h] else s
    case Remove(p) => Survivors(s, p)
  }

  lemma OneMoreAppend(a: seq<HandleObj>, b: seq<HandleObj>, c: Change, delegated: bool)
    requires |a| <= 1
    ensures OneMore(a + b, c, delegated)
         == (if |a| == 1 && !(c.Remove? && c.p.Matches(a[0])) then a else []) + OneMore(b, c, delegated)
  {
    if |a| == 0 { assert a + b == b; }
    else if c.Remove? { assert (a + b)[1..] == b && a == [a[0]]; }
    else { Regroup(a, b, [c.h]); }
  }

  lemma {:induction false} AliveSnoc(cs: seq<Change>, c: Change, delegated: bool)
    ensures Alive(cs + [c], delegated) == OneMore(Alive(cs, delegated), c, delegated)
    decreases |cs|
  {
    if |cs| == 0 {
      assert cs + [c] == [c] && [c][1..] == [];
      assert !Removed([], if c.Add? then c.h else HandleObj("", 0, "", ""));
    } else {
      assert (cs + [c])[1..] == cs[1..] + [c];
      AliveSnoc(cs[1..], c, delegated);
      if cs[0].Add? { RemovedSnoc(cs[1..], c, cs[0].h); }
      var head := if cs[0].Add? && cs[0].h.Delegated() == delegated && !Removed(cs[1..], cs[0].h) then [cs[0].h]
                  else [];
      OneMoreAppend(head, Alive(cs[1..], delegated), c, delegated);
    }
  }

  /** Over any history each group holds exactly the handlers added and not removed since, in insertion order. */
  lemma {:induction false} GroupsAreAlive(cs: seq<Change>)
    ensures AllChanges(cs) == Groups(Alive(cs, true), Alive(cs, false))
    decreases |cs|
  {
    if |cs| == 0 {
    } else {
      var before, c := cs[..|cs| - 1], cs[|cs| - 1];
      GroupsAreAlive(before);
      assert before + [c] == cs;
      AliveSnoc(before, c, true);
      AliveSnoc(before, c, false);
    }
  }

  // ---------------------------------------------------------------- the list

  /** Exactly the first `n` handlers have a selector. */
  ghost predicate SplitAt(s: seq<HandleObj>, n: nat) {
    n <= |s| && forall i :: 0 <= i < |s| ==> (i < n <==> s[i].Delegated())
  }

  /** An array of handlers on the heap: the registered list, or one that a queue entry points to. */
  class HandlerArray {
    var items: seq<HandleObj>

    constructor (items: seq<HandleObj>)
      ensures this.items == items
    {
      this.items := items;
    }
  }

  datatype QueueEntry = QueueEntry(elem: Node, handlers: HandlerArray)

  /** The elements of a queue and what its arrays hold at the moment. */
  ghost predicate Holds(queue: seq<QueueEntry>, content: seq<(Node, seq<HandleObj>)>)
    reads set e | e in queue :: e.handlers
  {
    && |queue| == |content|
    && forall i :: 0 <= i < |queue| ==> queue[i].elem == content[i].0 && queue[i].handlers.items == content[i].1
  }

  class HandlerList {
    const handlers: HandlerArray
    var delegateCount: nat

    ghost predicate Valid()
      reads this, handlers
    {
      SplitAt(handlers.items, delegateCount)
    }

    ghost function State(): Groups
      requires Valid()
      reads this, handlers
    {
      Groups(handlers.items[..delegateCount], handlers.items[delegateCount..])
    }

    constructor ()
      ensures Valid() && fresh(handlers) && State() == AllChanges([])
    {
      handlers := new HandlerArray([]);
      delegateCount := 0;
    }

    method Add(h: HandleObj)
      requires Valid()
      modifies this, handlers
      ensures Valid() && State() == Changed(old(State()), Change.Add(h))
    {
      ghost var all, n := handlers.items, delegateCount;
      if h.selector != "" {
        handlers.items := handlers.items[..delegateCount] + [h] + handlers.items[delegateCount..];
        delegateCount := delegateCount + 1;
        assert handlers.items[..n + 1] == all[..n] + [h] && handlers.items[n + 1..] == all[n..];
      } else {
        handlers.items := handlers.items + [h];
        assert handlers.items[..n] == all[..n] && handlers.items[n..] == all[n..] + [h];
      }
    }

    /** The loop of `remove`, from the last handler to the first. */
    method Remove(p: Pattern)
      requires Valid()
      modifies this, handlers
      ensures Valid() && State() == Changed(old(State()), Change.Remove(p))
    {
      ghost var all, n := handlers.items, delegateCount;
      var j := |handlers.items|;
      StepsStart(all, p);
      while j > 0
        invariant Valid() && 0 <= j <= |all|
        invariant handlers.items == all[..j] + Survivors(all[j..], p)
      {
        j := j - 1;
        StepDown(all, j, p, handlers.items);
        if p.Matches(handlers.items[j]) { RemoveAt(j); }
      }
      StepsEnd(all, p);
      GroupsSurvive(all, n, handlers.items, delegateCount, p);
    }

    /** `handlers.splice( j, 1 ); if ( handleObj.selector ) handlers.delegateCount--;` */
    method RemoveAt(j: nat)
      requires Valid() && j < |handlers.items|
      modifies this, handlers
      ensures Valid() && handlers.items == old(handlers.items[..j] + handlers.items[j + 1..])
    {
      var handleObj := handlers.items[j];
      handlers.items := handlers.items[..j] + handlers.items[j + 1..];
      if handleObj.Delegated() { delegateCount := delegateCount - 1; }
    }

    /**
     `event.handlers`: the queue of one dispatch, in arrays of its own. From the target up to this element, each
     element that can be checked contributes the delegated handlers whose selector matches it; the direct handlers
     come last.
     */
    method Handlers(ev: Ev) returns (queue: seq<QueueEntry>)
      requires Valid() && ev.Valid()
      ensures forall i :: 0 <= i < |queue| ==> fresh(queue[i].handlers)
      ensures Holds(queue, QueueOf(State(), ev))
    {
      queue := [];
      if delegateCount > 0 && (!ev.button || !ev.click) {
        queue := DelegatedQueue(ev);
      }
      if delegateCount < |handlers.items| {
        var direct := new HandlerArray(handlers.items[delegateCount..]);
        queue := queue + [QueueEntry(ev.listener, direct)];
      }
    }

    /** `for ( ; cur != this; cur = cur.parentNode || this )` */
    method DelegatedQueue(ev: Ev) returns (queue: seq<QueueEntry>)
      requires Valid() && ev.Valid()
      ensures forall i :: 0 <= i < |queue| ==> fresh(queue[i].handlers)
      ensures Holds(queue, Delegations(State(), ev, ev.target))
    {
      queue := [];
      var cur := ev.target;
      ghost var g, done := State(), [];
      while cur != ev.listener
        invariant ev.tree.Has(cur) && Holds(queue, done)
        invariant forall i :: 0 <= i < |queue| ==> fresh(queue[i].handlers)
        invariant Delegations(g, ev, ev.target) == done + Delegations(g, ev, cur)
        decreases ev.tree.depth[cur]
      {
        var own := OwnEntry(ev, cur);
        OneUp(g, ev, cur, done);
        HoldsAppend(queue, done, own, Own(g, ev, cur));
        queue, done := queue + own, done + Own(g, ev, cur);
        var up := ev.tree.Parent(cur);
        if up.None? { return; }
        cur := up.value;
      }
    }

    method OwnEntry(ev: Ev, cur: Node) returns (own: seq<QueueEntry>)
      requires Valid() && ev.Valid() && ev.tree.Has(cur)
      ensures forall i :: 0 <= i < |own| ==> fresh(own[i].handlers)
      ensures Holds(own, Own(State(), ev, cur))
    {
      own := [];
      if ev.tree.IsElement(cur) && (cur !in ev.disabled || !ev.click) {
        var matches, tried := MatchSelectors(ev, cur);
        if |matches| > 0 {
          var copy := new HandlerArray(matches);
          own := [QueueEntry(cur, copy)];
        }
      }
    }

    /** The inner loop: each selector is tried once per element, and the answer is kept for the handlers after it. */
    method MatchSelectors(ev: Ev, cur: Node) returns (matches: seq<HandleObj>, tried: seq<string>)
      requires Valid()
      ensures matches == Matching(handlers.items[..delegateCount], cur, ev.matches)
      ensures tried == Selectors(handlers.items[..delegateCount])
    {
      matches, tried := [], [];
      var memo: map<string, bool> := map[];
      ghost var hs := handlers.items;
      for i := 0 to delegateCount
        invariant matches == Matching(hs[..i], cur, ev.matches) && tried == Selectors(hs[..i])
        invariant forall sel :: sel in memo <==> sel in tried
        invariant forall sel :: sel in memo ==> memo[sel] == ev.matches(sel, cur)
      {
        var handleObj := handlers.items[i];
        var sel := handleObj.selector;
        OneMoreTried(hs, i, cur, ev.matches);
        if sel !in memo {
          memo, tried := memo[sel := ev.matches(sel, cur)], tried + [sel];
        }
        if memo[sel] { matches := matches + [handleObj]; }
      }
    }

    // -------------------------------------------------------------- dispatch

    /** One add or remove made while handlers run. */
    method Perform(c: Change)
      requires Valid()
      modifies this, handlers
      ensures Valid() && State() == Changed(old(State()), c)
    {
      match c
      case Add(h) => Add(h);
      case Remove(p) => Remove(p);
    }

    method ChangeAll(cs: seq<Change>)
      requires Valid()
      modifies this, handlers
      ensures Valid() && State() == ChangedBy(old(State()), cs)
    {
      for i := 0 to |cs|
        invariant Valid() && ChangedBy(old(State()), cs) == ChangedBy(State(), cs[i..])
      {
        assert cs[i..][0] == cs[i] && cs[i..][1..] == cs[i + 1..];
        Perform(cs[i]);
      }
    }

    /**
     `event.dispatch`. Each handler may add to this very list and remove from it, and may stop the event; the script
     `world` says what it does. The handlers that run are those of the queue as it was built, whatever the list has
     become meanwhile.
     */
    method Dispatch(ev: Ev, world: seq<Turn>) returns (run: Progress)
      requires Valid() && ev.Valid()
      modifies this, handlers
      ensures Valid() && run == RunQueue(QueueOf(old(State()), ev), ev, Start(world))
      ensures State() == ChangedBy(old(State()), run.changes)
    {
      var queue := Handlers(ev);
      ghost var before := State();
      ghost var content := QueueOf(before, ev);
      run := Start(world);
      var i := 0;
      while i < |queue| && !run.stopped
        invariant 0 <= i <= |queue| && Valid() && Holds(queue, content)
        invariant forall j :: 0 <= j < |queue| ==> queue[j].handlers != handlers
        invariant RunQueue(content, ev, Start(world)) == RunQueue(content[i..], ev, run)
        invariant State() == ChangedBy(before, run.changes)
      {
        assert content[i..][0] == content[i] && content[i..][1..] == content[i + 1..];
        run := RunEntry(ev, queue[i], run, before);
        i := i + 1;
      }
    }

    /** The handlers of one element. */
    method RunEntry(ev: Ev, entry: QueueEntry, start: Progress, ghost before: Groups) returns (run: Progress)
      requires Valid() && entry.handlers != handlers && State() == ChangedBy(before, start.changes)
      modifies this, handlers
      ensures Valid() && run == RunHandlers(entry.elem, old(entry.handlers.items), ev, start)
      ensures State() == ChangedBy(before, run.changes)
    {
      run := start;
      ghost var hs := entry.handlers.items;
      var j := 0;
      while j < |entry.handlers.items| && !run.stoppedNow
        invariant 0 <= j <= |hs| && Valid() && entry.handlers.items == hs
        invariant RunHandlers(entry.elem, hs, ev, start) == RunHandlers(entry.elem, hs[j..], ev, run)
        invariant State() == ChangedBy(before, run.changes)
      {
        assert hs[j..][0] == hs[j] && hs[j..][1..] == hs[j + 1..];
        var handleObj := entry.handlers.items[j];
        if ev.namespace.None? || ev.namespace.value(handleObj.namespace) {
          ChangedByAppend(before, run.changes, Now(run.world).changes);
          ChangeAll(Now(run.world).changes);
          run := Called(run, entry.elem, handleObj);
        }
        j := j + 1;
      }
    }
  }

  /** The event, as far as the choice of handlers depends on it. */
  datatype Ev = Ev(
    tree: Tree,
    listener: Node,                      // this
    target: Node,
    click: bool,                         // event.type === "click"
    button: bool,                        // event.button
    disabled: set<Node>,
    matches: (string, Node) -> bool,     // the selector engine
    namespace: Option<string -> bool>)   // event.namespace_re
  {
    ghost predicate Valid() { tree.Valid() && tree.Has(target) }
  }

  /** What one handler does: it changes the list, and may stop the event. */
  datatype Turn = Turn(changes: seq<Change>, stops: bool, stopsNow: bool)

  function Now(world: seq<Turn>): Turn { if |world| == 0 then Turn([], false, false) else world[0] }

  /**
   How far a dispatch has come: the calls made, the script left, the changes made, and whether the event is stopped.
   */
  datatype Progress = Progress(
    log: seq<(Node, HandleObj)>, world: seq<Turn>, changes: seq<Change>, stopped: bool, stoppedNow: bool)

  function Start(world: seq<Turn>): Progress { Progress([], world, [], false, false) }

  function Called(p: Progress, elem: Node, h: HandleObj): Progress {
    var turn := Now(p.world);
    Progress(p.log + [(elem, h)], if |p.world| == 0 then [] else p.world[1..], p.changes + turn.changes,
             p.stopped || turn.stops || turn.stopsNow, p.stoppedNow || turn.stopsNow)
  }

  /** The handlers of one queue entry, until one stops the event at once. */
  function RunHandlers(elem: Node, hs: seq<HandleObj>, ev: Ev, p: Progress): Progress
    decreases |hs|
  {
    if |hs| == 0 || p.stoppedNow then p
    else if ev.namespace.None? || ev.namespace.value(hs[0].namespace) then
      RunHandlers(elem, hs[1..], ev, Called(p, elem, hs[0]))
    else RunHandlers(elem, hs[1..], ev, p)
  }

  /** The queue, until the event is stopped. The list itself plays no part. */
  function RunQueue(queue: seq<(Node, seq<HandleObj>)>, ev: Ev, p: Progress): Progress
    decreases |queue|
  {
    if |queue| == 0 || p.stopped then p else RunQueue(queue[1..], ev, RunHandlers(queue[0].0, queue[0].1, ev, p))
  }

  function ChangedBy(g: Groups, cs: seq<Change>): Groups
    decreases |cs|
  {
    if |cs| == 0 then g else ChangedBy(Changed(g, cs[0]), cs[1..])
  }

  lemma {:induction false} ChangedByAppend(g: Groups, a: seq<Change>, b: seq<Change>)
    ensures ChangedBy(g, a + b) == ChangedBy(ChangedBy(g, a), b)
    decreases |a|
  {
    if |a| == 0 {
      assert a + b == b;
    } else {
      assert (a + b)[0] == a[0] && (a + b)[1..] == a[1..] + b;
      ChangedByAppend(Changed(g, a[0]), a[1..], b);
    }
  }

  /** The whole queue. */
  ghost function QueueOf(g: Groups, ev: Ev): seq<(Node, seq<HandleObj>)>
    requires ev.Valid()
  {
    (if |g.delegated| > 0 && !(ev.button && ev.click) then Delegations(g, ev, ev.target) else [])
    + (if |g.direct| > 0 then [(ev.listener, g.direct)] else [])
  }

  function Matching(hs: seq<HandleObj>, cur: Node, matchesSel: (string, Node) -> bool): (r: seq<HandleObj>)
    ensures forall h :: h in r <==> h in hs && matchesSel(h.selector, cur)
  {
    if |hs| == 0 then []
    else
      Matching(hs[..|hs| - 1], cur, matchesSel)
      + if matchesSel(hs[|hs| - 1].selector, cur) then [hs[|hs| - 1]] else []
  }

  /** The selectors of some handlers, each once, in the order of their first use. */
  function Selectors(hs: seq<HandleObj>): seq<string> {
    if |hs| == 0 then [] else WithSelector(Selectors(hs[..|hs| - 1]), hs[|hs| - 1].selector)
  }

  function WithSelector(tried: seq<string>, sel: string): seq<string> {
    if sel in tried then tried else tried + [sel]
  }

  lemma OneMoreTried(hs: seq<HandleObj>, i: nat, cur: Node, matchesSel: (string, Node) -> bool)
    requires i < |hs|
    ensures Selectors(hs[..i + 1]) == WithSelector(Selectors(hs[..i]), hs[i].selector)
    ensures Matching(hs[..i + 1], cur, matchesSel)
         == Matching(hs[..i], cur, matchesSel) + if matchesSel(hs[i].selector, cur) then [hs[i]] else []
  {
    assert hs[..i + 1][..i] == hs[..i];
  }

  ghost predicate Uses(hs: seq<HandleObj>, sel: string) {
    exists k :: 0 <= k < |hs| && hs[k].selector == sel
  }

  lemma UsesSnoc(hs: seq<HandleObj>, sel: string)
    requires |hs| > 0
    ensures Uses(hs, sel) <==> Uses(hs[..|hs| - 1], sel) || hs[|hs| - 1].selector == sel
  {
    var before := hs[..|hs| - 1];
    if Uses(before, sel) {
      var k :| 0 <= k < |before| && before[k].selector == sel;
      assert hs[k].selector == sel;
    }
    if Uses(hs, sel) && hs[|hs| - 1].selector != sel {
      var k :| 0 <= k < |hs| && hs[k].selector == sel;
      assert before[k].selector == sel;
    }
  }

  /** No selector is tried twice, none is left out, and each is tried when a handler first needs it. */
  lemma {:induction false} TriedOnce(hs: seq<HandleObj>)
    ensures forall i, j :: 0 <= i < j < |Selectors(hs)| ==> Selectors(hs)[i] != Selectors(hs)[j]
    ensures forall sel :: sel in Selectors(hs) <==> Uses(hs, sel)
    ensures forall i :: 0 <= i <= |hs| ==> Selectors(hs[..i]) <= Selectors(hs)
    decreases |hs|
  {
    if |hs| == 0 {
    } else {
      var before := hs[..|hs| - 1];
      TriedOnce(before);
      forall sel ensures sel in Selectors(hs) <==> Uses(hs, sel) {
        UsesSnoc(hs, sel);
      }
      forall i | 0 <= i <= |hs| ensures Selectors(hs[..i]) <= Selectors(hs) {
        if i < |hs| { assert before[..i] == hs[..i]; } else { assert hs[..i] == hs; }
      }
    }
  }

  /** What one element contributes. */
  function Own(g: Groups, ev: Ev, cur: Node): seq<(Node, seq<HandleObj>)>
    requires ev.Valid() && ev.tree.Has(cur)
  {
    var matches := Matching(g.delegated, cur, ev.matches);
    if ev.tree.IsElement(cur) && (cur !in ev.disabled || !ev.click) && |matches| > 0 then [(cur, matches)] else []
  }

  /** The delegated part of the queue for the nodes from `cur` up to, not including, the listener. */
  function Delegations(g: Groups, ev: Ev, cur: Node): seq<(Node, seq<HandleObj>)>
    requires ev.Valid() && ev.tree.Has(cur)
    decreases ev.tree.depth[cur], 1
  {
    if cur == ev.listener then [] else Own(g, ev, cur) + Upwards(g, ev, cur)
  }

  function Upwards(g: Groups, ev: Ev, cur: Node): seq<(Node, seq<HandleObj>)>
    requires ev.Valid() && ev.tree.Has(cur)
    decreases ev.tree.depth[cur], 0
  {
    match ev.tree.Parent(cur)
    case None => []
    case Some(p) => Delegations(g, ev, p)
  }

  /** One round of the walk: `done` takes what the element contributes, and the walk goes on at its parent. */
  lemma OneUp(g: Groups, ev: Ev, cur: Node, done: seq<(Node, seq<HandleObj>)>)
    requires ev.Valid() && ev.tree.Has(cur) && cur != ev.listener
    ensures done + Delegations(g, ev, cur) == done + Own(g, ev, cur) + Upwards(g, ev, cur)
    ensures ev.tree.Parent(cur).None? ==> done + Delegations(g, ev, cur) == done + Own(g, ev, cur)
  {
    Regroup(done, Own(g, ev, cur), Upwards(g, ev, cur));
  }

  lemma HoldsAppend(a: seq<QueueEntry>, ca: seq<(Node, seq<HandleObj>)>,
                    b: seq<QueueEntry>, cb: seq<(Node, seq<HandleObj>)>)
    requires Holds(a, ca) && Holds(b, cb)
    ensures Holds(a + b, ca + cb)
  {
  }

  /** Inner elements come first, every entry is what its element contributes, and none is empty. */
  ghost predicate InnerFirst(g: Groups, ev: Ev, cur: Node, r: seq<(Node, seq<HandleObj>)>)
    requires ev.Valid() && ev.tree.Has(cur)
  {
    && (forall i :: 0 <= i < |r| ==>
          && ev.tree.Has(r[i].0) && ev.tree.depth[r[i].0] <= ev.tree.depth[cur] && |r[i].1| > 0
          && r[i].1 == Matching(g.delegated, r[i].0, ev.matches))
    && (forall i, j :: 0 <= i < j < |r| ==> ev.tree.depth[r[j].0] < ev.tree.depth[r[i].0])
  }

  lemma {:induction false} DelegationsInnerFirst(g: Groups, ev: Ev, cur: Node)
    requires ev.Valid() && ev.tree.Has(cur)
    ensures InnerFirst(g, ev, cur, Delegations(g, ev, cur))
    decreases ev.tree.depth[cur]
  {
    if cur != ev.listener && ev.tree.Parent(cur).Some? {
      DelegationsInnerFirst(g, ev, ev.tree.Parent(cur).value);
    }
  }

  /** No element between target and listener that has a matching delegated handler is passed over. */
  lemma {:induction false} NoneSkipped(g: Groups, ev: Ev, cur: Node, n: Node)
    requires ev.Valid() && ev.tree.Has(cur) && ev.tree.Has(n) && (n == cur || ev.tree.IsAncestor(n, cur))
    requires cur != ev.listener && (ev.tree.IsAncestor(ev.listener, cur) ==> ev.tree.IsAncestor(ev.listener, n))
    requires ev.tree.IsElement(n) && (n !in ev.disabled || !ev.click) && |Matching(g.delegated, n, ev.matches)| > 0
    ensures (n, Matching(g.delegated, n, ev.matches)) in Delegations(g, ev, cur)
    decreases ev.tree.depth[cur]
  {
    var t := ev.tree;
    if n != cur {
      t.AxisStep(ParentNode, n, cur);
      t.AxisStep(ParentNode, ev.listener, cur);
      var p := t.Parent(cur).value;
      t.AxisStep(ParentNode, ev.listener, n);
      t.AxisStep(ParentNode, n, p);
      t.AxisStep(ParentNode, ev.listener, p);
      NoneSkipped(g, ev, p, n);
    }
  }

  // ---------------------------------------------------------------- lemmas about survivors

  /** What survives of a split list is what survives of its two parts, split where the selectors end. */
  lemma GroupsSurvive(all: seq<HandleObj>, n: nat, left: seq<HandleObj>, count: nat, p: Pattern)
    requires SplitAt(all, n) && SplitAt(left, count) && left == Survivors(all, p)
    ensures left[..count] == Survivors(all[..n], p) && left[count..] == Survivors(all[n..], p)
  {
    Sides(all, n);
    SurvivorsAppend(all[..n], all[n..], p);
    Boundary(left, count, Survivors(all[..n], p), Survivors(all[n..], p));
  }

  lemma Sides(s: seq<HandleObj>, n: nat)
    requires SplitAt(s, n)
    ensures s == s[..n] + s[n..]
    ensures (forall h :: h in s[..n] ==> h.Delegated()) && (forall h :: h in s[n..] ==> !h.Delegated())
  {
  }

  lemma {:induction false} SurvivorsAppend(a: seq<HandleObj>, b: seq<HandleObj>, p: Pattern)
    ensures Survivors(a + b, p) == Survivors(a, p) + Survivors(b, p)
    decreases |a|
  {
    if |a| == 0 { assert a + b == b; }
    else {
      assert (a + b)[1..] == a[1..] + b;
      SurvivorsAppend(a[1..], b, p);
      var head := if p.Matches(a[0]) then [] else [a[0]];
      assert head + (Survivors(a[1..], p) + Survivors(b, p)) == head + Survivors(a[1..], p) + Survivors(b, p);
    }
  }

  lemma StepsStart(s: seq<HandleObj>, p: Pattern)
    ensures s == s[..|s|] + Survivors(s[|s|..], p)
  {
  }

  lemma StepsEnd(s: seq<HandleObj>, p: Pattern)
    ensures s[..0] + Survivors(s[0..], p) == Survivors(s, p)
  {
    assert s[0..] == s;
  }

  /** One round of the loop: the handler at `j` is kept or cut out. */
  lemma StepDown(s: seq<HandleObj>, j: nat, p: Pattern, left: seq<HandleObj>)
    requires j < |s| && left == s[..j + 1] + Survivors(s[j + 1..], p)
    ensures left[j] == s[j]
    ensures s[..j] + Survivors(s[j..], p) == if p.Matches(s[j]) then left[..j] + left[j + 1..] else left
  {
    var rest := Survivors(s[j + 1..], p);
    SpliceLast(s, j, rest);
    SurvivorsFrom(s, j, p);
  }

  lemma SurvivorsFrom(s: seq<HandleObj>, j: nat, p: Pattern)
    requires j < |s|
    ensures Survivors(s[j..], p)
         == if p.Matches(s[j]) then Survivors(s[j + 1..], p) else [s[j]] + Survivors(s[j + 1..], p)
  {
    assert s[j..][1..] == s[j + 1..];
    assert [] + Survivors(s[j + 1..], p) == Survivors(s[j + 1..], p);
  }

  lemma SpliceLast(s: seq<HandleObj>, j: nat, rest: seq<HandleObj>)
    requires j < |s|
    ensures s[..j + 1] + rest == s[..j] + ([s[j]] + rest)
    ensures (s[..j + 1] + rest)[..j] + (s[..j + 1] + rest)[j + 1..] == s[..j] + rest
  {
  }

  /** Delegated survivors in front, direct ones behind: the counter is the boundary. */
  lemma Boundary(s: seq<HandleObj>, count: nat, a: seq<HandleObj>, b: seq<HandleObj>)
    requires s == a + b && SplitAt(s, count)
    requires (forall h :: h in a ==> h.Delegated()) && (forall h :: h in b ==> !h.Delegated())
    ensures s[..count] == a && s[count..] == b
  {
    assert count == |a| by {
      assert |a| > 0 ==> a[|a| - 1] in a && s[|a| - 1] == a[|a| - 1];
      assert |b| > 0 ==> b[0] in b && s[|a|] == b[0];
    }
  }
}
