/**
 The "fx" queue of one element: functions run one at a time, and the entry "inprogress" in front of the queue says
 that one of them has started and has not yet called `next`.
 */
module FxQueue {
  import opened Wrappers

  datatype Item = Sentinel | Fn(id: nat)

  datatype Event = Started(id: nat) | EmptyFired

  /** The stored array; `None` before the first `queue` call and after the empty hook has removed the data. */
  datatype Q = Q(stored: Option<seq<Item>>, log: seq<Event>)

  function Items(q: Q): seq<Item> { if q.stored.Some? then q.stored.value else [] }

  /** What can still be started: the queue without the sentinel in front. */
  function Waiting(q: Q): seq<Item> {
    var queue := Items(q);
    if |queue| > 0 && queue[0] == Sentinel then queue[1..] else queue
  }

  /**
   `dequeue`. With nothing stored the source shifts from a new array that it never stores. The user function runs
   after this point; nothing in `dequeue` depends on the queue afterwards.
   */
  function Dequeue(q: Q): Q {
    var rest := Waiting(q);
    if |rest| == 0 then Q(None, q.log + [EmptyFired])       // the hook removes queue and hooks
    else Q(Some([Sentinel] + rest[1..]), if rest[0].Fn? then q.log + [Started(rest[0].id)] else q.log)
  }

  /** `.queue( fn )`: append, and start at once unless something is in progress. */
  function Enqueue(q: Q, id: nat): Q {
    var pushed := q.(stored := Some(Items(q) + [Fn(id)]));
    if Items(pushed)[0] != Sentinel then Dequeue(pushed) else pushed
  }

  // ---------------------------------------------------------------- runs

  /** The function that has started calls `next`, or someone queues a function. */
  datatype Step = Push(id: nat) | Next(id: nat)

  /** The queue, the functions pushed so far, and the started function that still owes its `next` call. */
  datatype Run = Run(q: Q, pushed: seq<nat>, owes: Option<nat>, nexts: nat)

  /** Each function calls `next` at most once, after it has started. */
  predicate Enabled(r: Run, s: Step) { s.Next? ==> r.owes == Some(s.id) }

  function LastStarted(before: seq<Event>, after: seq<Event>, otherwise: Option<nat>): Option<nat> {
    if |after| > |before| && after[|after| - 1].Started? then Some(after[|after| - 1].id) else otherwise
  }

  function Do(r: Run, s: Step): Run {
    if !Enabled(r, s) then r
    else match s
      case Push(id) =>
        var q := Enqueue(r.q, id);
        Run(q, r.pushed + [id], LastStarted(r.q.log, q.log, r.owes), r.nexts)
      case Next(_) =>
        var q := Dequeue(r.q);
        Run(q, r.pushed, LastStarted(r.q.log, q.log, None), r.nexts + 1)
  }

  /** The functions that have started, in order. */
  function Starts(log: seq<Event>): seq<nat> {
    if |log| == 0 then []
    else Starts(log[..|log| - 1]) + if log[|log| - 1].Started? then [log[|log| - 1].id] else []
  }

  function Fns(ids: seq<nat>): seq<Item> { seq(|ids|, i requires 0 <= i < |ids| => Fn(ids[i])) }

  /** The functions that are queued and have not started. */
  ghost predicate Pending(r: Run, ids: seq<nat>) {
    && Items(r.q) == (if r.owes.Some? then [Sentinel] else []) + Fns(ids)
    && Starts(r.q.log) + ids == r.pushed
    && (r.owes.None? ==> ids == [])
    && (r.owes.Some? ==> r.q.stored.Some?)
    && |Starts(r.q.log)| == r.nexts + (if r.owes.Some? then 1 else 0)
    && (r.owes.Some? ==> Starts(r.q.log)[|Starts(r.q.log)| - 1] == r.owes.value)
  }

  ghost predicate Inv(r: Run) { exists ids :: Pending(r, ids) }

  lemma StartsSnoc(log: seq<Event>, e: Event)
    ensures Starts(log + [e]) == Starts(log) + if e.Started? then [e.id] else []
  {
    assert (log + [e])[..|log|] == log;
  }

  lemma PushKeeps(r: Run, id: nat, ids: seq<nat>)
    requires Pending(r, ids)
    ensures Pending(Do(r, Push(id)), if r.owes.Some? then ids + [id] else [])
    ensures r.owes.Some? ==> Do(r, Push(id)).q.log == r.q.log
    ensures r.owes.None? ==> Do(r, Push(id)).q.log == r.q.log + [Started(id)]
  {
    if r.owes.Some? { PushWaits(r, id, ids); } else { PushStarts(r, id, ids); }
  }

  lemma PushWaits(r: Run, id: nat, ids: seq<nat>)
    requires Pending(r, ids) && r.owes.Some?
    ensures Do(r, Push(id)).q.log == r.q.log && Pending(Do(r, Push(id)), ids + [id])
  {
    assert Starts(r.q.log) + (ids + [id]) == r.pushed + [id];
    assert Fns(ids + [id]) == Fns(ids) + [Fn(id)];
    assert Items(r.q) + [Fn(id)] == [Sentinel] + Fns(ids + [id]);
  }

  lemma PushStarts(r: Run, id: nat, ids: seq<nat>)
    requires Pending(r, ids) && r.owes.None?
    ensures Do(r, Push(id)).q.log == r.q.log + [Started(id)] && Pending(Do(r, Push(id)), [])
  {
    StartsSnoc(r.q.log, Started(id));
    assert Items(r.q) == [] && [] + [Fn(id)] == [Fn(id)];
    assert [Fn(id)][1..] == [] && Fns([]) == [] && [Sentinel] + [] == [Sentinel];
    assert Enqueue(r.q, id) == Q(Some([Sentinel]), r.q.log + [Started(id)]);
  }

  lemma FnsSplit(starts: seq<nat>, ids: seq<nat>)
    requires |ids| > 0
    ensures Fns(ids)[0] == Fn(ids[0]) && Fns(ids)[1..] == Fns(ids[1..])
    ensures (starts + [ids[0]]) + ids[1..] == starts + ids
  {
  }

  lemma NextKeeps(r: Run, id: nat, ids: seq<nat>)
    requires Pending(r, ids) && r.owes == Some(id)
    ensures Pending(Do(r, Next(id)), if |ids| > 0 then ids[1..] else [])
    ensures Do(r, Next(id)).q.log == r.q.log + [if |ids| > 0 then Started(ids[0]) else EmptyFired]
  {
    assert Waiting(r.q) == Fns(ids) by { assert Items(r.q)[1..] == Fns(ids); }
    var event := if |ids| > 0 then Started(ids[0]) else EmptyFired;
    StartsSnoc(r.q.log, event);
    var q := Dequeue(r.q);
    assert q.log == r.q.log + [event] by { if |ids| > 0 { FnsSplit(Starts(r.q.log), ids); } }
    assert q.log[|q.log| - 1] == event;
    if |ids| > 0 {
      FnsSplit(Starts(r.q.log), ids);
    } else {
      assert [] + Fns([]) == [];
    }
  }

  function After(steps: seq<Step>): Run
    decreases |steps|
  {
    if |steps| == 0 then Run(Q(None, []), [], None, 0)
    else Do(After(steps[..|steps| - 1]), steps[|steps| - 1])
  }

  lemma {:induction false} AfterInv(steps: seq<Step>)
    ensures Inv(After(steps))
    decreases |steps|
  {
    if |steps| == 0 {
      assert Pending(After(steps), []);
    } else {
      AfterInv(steps[..|steps| - 1]);
      var before := After(steps[..|steps| - 1]);
      var ids :| Pending(before, ids);
      match steps[|steps| - 1]
      case Push(id) => PushKeeps(before, id, ids);
      case Next(id) => if before.owes == Some(id) { NextKeeps(before, id, ids); }
    }
  }

  /**
   In every run: functions start in the order they were queued, each once; the sentinel stands only in front, and
   exactly while a function owes its `next`; and the number of starts never exceeds the number of `next` calls by
   more than one, so none starts before its predecessor has called `next`.
   */
  lemma OneAtATime(steps: seq<Step>)
    ensures var r := After(steps);
            var items := Items(r.q);
            && Starts(r.q.log) <= r.pushed
            && |items| == |r.pushed| - |Starts(r.q.log)| + (if r.owes.Some? then 1 else 0)
            && (forall i :: 0 <= i < |items| ==> (items[i] == Sentinel <==> i == 0 && r.owes.Some?))
            && r.nexts <= |Starts(r.q.log)| <= r.nexts + 1
            && (r.owes.None? ==> Starts(r.q.log) == r.pushed)
  {
    AfterInv(steps);
    var r := After(steps);
    var ids :| Pending(r, ids);
  }

  /** The next function in line starts at once when nothing is in progress, and otherwise with the `next` call. */
  lemma StartsInTurn(steps: seq<Step>, s: Step)
    requires Enabled(After(steps), s)
    ensures var r := After(steps);
            var log, started := Do(r, s).q.log, |Starts(r.q.log)|;
            match s
            case Push(id) => log == if r.owes.None? then r.q.log + [Started(id)] else r.q.log
            case Next(_) => log == r.q.log + [if started < |r.pushed| then Started(r.pushed[started]) else EmptyFired]
  {
    AfterInv(steps);
    var r := After(steps);
    var ids :| Pending(r, ids);
    match s
    case Push(id) => PushKeeps(r, id, ids);
    case Next(id) => NextKeeps(r, id, ids);
  }

  lemma SnocInjective(log: seq<Event>, a: Event, b: Event)
    ensures log + [a] == log + [b] ==> a == b
  {
    assert (log + [a])[|log|] == a && (log + [b])[|log|] == b;
  }

  /** The empty hook fires only when every queued function has started and the last one has called `next`. */
  lemma EmptyMeansEmpty(steps: seq<Step>, s: Step)
    ensures var before, r := After(steps), Do(After(steps), s);
            r.q.log == before.q.log + [EmptyFired] ==>
            Starts(r.q.log) == r.pushed && r.owes.None? && r.q.stored.None? && r.nexts == |r.pushed|
  {
    AfterInv(steps);
    var r := After(steps);
    var ids :| Pending(r, ids);
    match s
    case Push(id) =>
      PushKeeps(r, id, ids);
      SnocInjective(r.q.log, Started(id), EmptyFired);
    case Next(id) =>
      if r.owes == Some(id) {
        NextKeeps(r, id, ids);
        SnocInjective(r.q.log, if |ids| > 0 then Started(ids[0]) else EmptyFired, EmptyFired);
      }
  }

  /** The queue is in order: the sentinel stands in front exactly while the function `owes` runs. */
  predicate InOrder(q: Q, owes: Option<nat>) {
    (|Items(q)| > 0 && Items(q)[0] == Sentinel) <==> owes.Some?
  }

  /**
   A function calls `next` although it has used its call. That starts nothing and leaves the queue in order exactly
   when no function is running.
   */
  lemma SecondCallExactly(steps: seq<Step>)
    ensures var r := After(steps);
            var q := Dequeue(r.q);
            (Starts(q.log) == Starts(r.q.log) && InOrder(q, r.owes)) <==> r.owes.None?
  {
    AfterInv(steps);
    var r := After(steps);
    var ids :| Pending(r, ids);
    var q := Dequeue(r.q);
    StartsSnoc(r.q.log, EmptyFired);
    if r.owes.Some? {
      assert Waiting(r.q) == Fns(ids) by { assert Items(r.q)[1..] == Fns(ids); }
      if |ids| > 0 { StartsSnoc(r.q.log, Started(ids[0])); }
    } else {
      assert [] + Fns([]) == [];
    }
  }

  /** Three functions are queued and the first calls `next` twice: the third starts while the second runs. */
  lemma TwiceBreaksIt(a: nat, b: nat, c: nat)
    ensures var q := Enqueue(Enqueue(Enqueue(Q(None, []), a), b), c);
            && Dequeue(q).log == [Started(a), Started(b)]
            && Dequeue(Dequeue(q)).log == [Started(a), Started(b), Started(c)]
  {
  }

  // ---------------------------------------------------------------- the object

  class Fx {
    var stored: Option<seq<Item>>
    var log: seq<Event>

    function State(): Q
      reads this
    {
      Q(stored, log)
    }

    constructor ()
      ensures State() == Q(None, [])
    {
      stored, log := None, [];
    }

    /** `jQuery.dequeue( elem, "fx" )`, up to the call of the function taken from the queue. */
    method DoDequeue() returns (fn: Option<Item>)
      modifies this
      ensures State() == Dequeue(old(State()))
      ensures fn == if |Waiting(old(State()))| > 0 then Some(Waiting(old(State()))[0]) else None
    {
      var queue := if stored.Some? then stored.value else [];
      var startLength := |queue|;
      fn := None;
      if |queue| > 0 { fn, queue := Some(queue[0]), queue[1..]; }
      if fn == Some(Sentinel) {
        fn := None;
        if |queue| > 0 { fn, queue := Some(queue[0]), queue[1..]; }
        startLength := startLength - 1;
      }
      if fn.Some? {
        queue := [Sentinel] + queue;
        if fn.value.Fn? { log := log + [Started(fn.value.id)]; }
      }
      if stored.Some? { stored := Some(queue); }
      if startLength == 0 {
        stored := None;
        log := log + [EmptyFired];
      }
    }

    /** `.queue( fn )` */
    method DoQueue(id: nat)
      modifies this
      ensures State() == Enqueue(old(State()), id)
    {
      stored := Some((if stored.Some? then stored.value else []) + [Fn(id)]);
      if stored.value[0] != Sentinel {
        var _ := DoDequeue();
      }
    }
  }
}
