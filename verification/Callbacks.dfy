/**
 `jQuery.Callbacks`: a list of functions that is walked by `fire` while the functions themselves add to it, remove
 from it, fire it again, lock, disable or empty it. What user code does is the list `world`: each time a function
 is called, the next turn of `world` says which operations it performs on this list and whether it returns `false`.
 When `world` is used up, functions do nothing.
 */
module Callbacks {
  import opened Wrappers

  datatype Options = Options(once: bool, memory: bool, unique: bool, stopOnFalse: bool)

  /** The closure variables. An undefined or `false` value is `None`. */
  datatype Cb<F, D> = Cb(
    list: Option<seq<F>>,
    stack: Option<seq<D>>,
    memory: Option<D>,
    fired: bool,
    firing: bool,
    firingLength: int,
    firingIndex: int,
    firingStart: nat)

  datatype Op<F, D> = Add(fs: seq<F>) | Remove(f: F) | FireWith(d: D) | Lock | Disable | Empty

  datatype Turn<F, D> = Turn(ops: seq<Op<F, D>>, returnsFalse: bool)

  datatype Call<F, D> = Call(f: F, d: D, pass: nat)

  // ---------------------------------------------------------------- the pieces of fire and of the operations

  function Init<F, D>(o: Options): Cb<F, D> {
    Cb(Some([]), if o.once then None else Some([]), None, false, false, 0, 0, 0)
  }

  /** The head of `fire`, up to the loop. */
  function Begin<F, D>(o: Options, c: Cb<F, D>, d: D): Cb<F, D>
    requires c.list.Some?
  {
    c.(memory := if o.memory then Some(d) else None, fired := true, firingIndex := c.firingStart, firingStart := 0,
       firingLength := |c.list.value|, firing := true)
  }

  /** The loop test. */
  predicate More<F, D>(c: Cb<F, D>) { c.list.Some? && c.firingIndex < c.firingLength }

  /** The end of `fire`: the new state, and the data of the next pass if one was asked for meanwhile. */
  function End<F, D>(c: Cb<F, D>): (Cb<F, D>, Option<D>) {
    var c := c.(firing := false);
    if c.list.None? then (c, None)
    else if c.stack.Some? then
      if |c.stack.value| > 0 then (c.(stack := Some(c.stack.value[1..])), Some(c.stack.value[0])) else (c, None)
    else if c.memory.Some? then (c.(list := Some([])), None)
    else (DisableOp(c), None)
  }

  /** With `unique`, a function that is already there is not added again. */
  function Extend<F(==)>(o: Options, list: seq<F>, fs: seq<F>): seq<F>
    decreases |fs|
  {
    if |fs| == 0 then list
    else Extend(o, if o.unique && fs[0] in list then list else list + [fs[0]], fs[1..])
  }

  function AddOp<F(==), D>(o: Options, c: Cb<F, D>, fs: seq<F>): Cb<F, D> {
    if c.list.None? then c
    else
      var list := Extend(o, c.list.value, fs);
      var c1 := c.(list := Some(list));
      if c.firing then c1.(firingLength := |list|)
      else if c.memory.Some? then c1.(firingStart := |c.list.value|)
      else c1
  }

  /** `add` ends with `fire( memory )`. */
  predicate AddFires<F, D>(c: Cb<F, D>) { c.list.Some? && !c.firing && c.memory.Some? }

  function Without<F(==)>(s: seq<F>, f: F): (r: seq<F>)
    ensures |r| <= |s|
  {
    if |s| == 0 then [] else (if s[0] == f then [] else [s[0]]) + Without(s[1..], f)
  }

  /**
   All occurrences go; while firing, the index stays on the last function run or, if that is gone, just before the
   next.
   */
  function RemoveOp<F(==), D>(c: Cb<F, D>, f: F): Cb<F, D>
    requires InCall(c)
  {
    if c.list.None? then c
    else
      var list := Without(c.list.value, f);
      var c1 := c.(list := Some(list));
      if c.firing then
        var passed := Passed(c);
        c1.(firingLength := |list|, firingIndex := c.firingIndex - (|passed| - |Without(passed, f)|))
      else c1
  }

  /** The part of the list up to the firing index. */
  function Passed<F, D>(c: Cb<F, D>): seq<F>
    requires InCall(c) && c.firing && c.list.Some?
  {
    if c.firingIndex < |c.list.value| then c.list.value[..c.firingIndex + 1] else c.list.value
  }

  function DisableOp<F, D>(c: Cb<F, D>): Cb<F, D> { c.(list := None, stack := None, memory := None) }

  function LockOp<F, D>(c: Cb<F, D>): Cb<F, D> {
    var c := c.(stack := None);
    if c.memory.None? then DisableOp(c) else c
  }

  function EmptyOp<F, D>(c: Cb<F, D>): Cb<F, D> { c.(list := Some([]), firingLength := 0) }

  /** `fireWith` is heard. */
  predicate Hears<F, D>(c: Cb<F, D>) { c.list.Some? && (!c.fired || c.stack.Some?) }

  function FireOp<F, D>(c: Cb<F, D>, d: D): Cb<F, D>
    requires c.firing ==> c.fired
  {
    if Hears(c) && c.firing then c.(stack := Some(c.stack.value + [d])) else c
  }

  // ---------------------------------------------------------------- invariants

  /** A disabled list has nothing left. */
  ghost predicate Sane<F, D>(c: Cb<F, D>) {
    && (c.list.None? ==> c.stack.None? && c.memory.None?)
    && (c.memory.Some? ==> c.fired)
  }

  /** While a function of the list is running: the end of the pass is the end of the list. */
  ghost predicate InCall<F, D>(c: Cb<F, D>) {
    && Sane(c)
    && (c.firing ==> c.fired && -1 <= c.firingIndex && (c.list.Some? ==> c.firingLength == |c.list.value|))
  }

  /** At the loop test. */
  ghost predicate AtTest<F, D>(c: Cb<F, D>, stopped: bool) {
    c.firing && InCall(c) && c.firingStart == 0 && (!stopped ==> 0 <= c.firingIndex)
  }

  /** Between passes: nothing is waiting. */
  ghost predicate Idle<F, D>(c: Cb<F, D>) {
    && Sane(c) && !c.firing && c.firingStart == 0
    && (c.stack.Some? ==> c.stack.value == [])
  }

  // ---------------------------------------------------------------- operations performed inside a call

  function Inside<F(==), D>(o: Options, c: Cb<F, D>, op: Op<F, D>): (r: Cb<F, D>)
    requires InCall(c) && c.firing
    ensures InCall(r) && r.firing && r.firingStart == c.firingStart
  {
    match op
    case Add(fs) => AddOp(o, c, fs)
    case Remove(f) => RemoveOp(c, f)
    case FireWith(d) => FireOp(c, d)
    case Lock => LockOp(c)
    case Disable => DisableOp(c)
    case Empty => EmptyOp(c)
  }

  function InsideAll<F(==), D>(o: Options, c: Cb<F, D>, ops: seq<Op<F, D>>): (r: Cb<F, D>)
    requires InCall(c) && c.firing
    ensures InCall(r) && r.firing && r.firingStart == c.firingStart
    decreases |ops|
  {
    if |ops| == 0 then c else InsideAll(o, Inside(o, c, ops[0]), ops[1..])
  }

  function Now<F, D>(world: seq<Turn<F, D>>): Turn<F, D> {
    if |world| == 0 then Turn([], false) else world[0]
  }

  function Later<F, D>(world: seq<Turn<F, D>>): seq<Turn<F, D>> {
    if |world| == 0 then [] else world[1..]
  }

  // ---------------------------------------------------------------- whole runs

  datatype Outcome<F, D> = Outcome(c: Cb<F, D>, world: seq<Turn<F, D>>, log: seq<Call<F, D>>, passes: seq<D>)

  function Waiting<F, D>(c: Cb<F, D>): nat { if c.stack.Some? then |c.stack.value| else 0 }

  function Ahead<F, D>(c: Cb<F, D>): nat {
    if c.firingIndex < c.firingLength then c.firingLength - c.firingIndex else 0
  }

  /**
   `fire` from the loop test on, including the passes started at its end. `stopped` means the loop has been left.
   The log numbers the passes; `passes` is their data.
   */
  function Run<F(==), D>(o: Options, s: Outcome<F, D>, d: D, stopped: bool): (r: Outcome<F, D>)
    requires AtTest(s.c, stopped) && |s.passes| > 0
    ensures Idle(r.c)
    decreases |s.world|, Waiting(s.c), if stopped then 0 else 1, Ahead(s.c)
  {
    var c := s.c;
    if stopped || !More(c) then
      var (c1, next) := End(c);
      match next
      case None => s.(c := c1)
      case Some(e) => Run(o, s.(c := Begin(o, c1, e), passes := s.passes + [e]), e, false)
    else
      var turn := Now(s.world);
      var c1 := InsideAll(o, c, turn.ops);
      var s1 := s.(world := Later(s.world), log := s.log + [Call(c.list.value[c.firingIndex], d, |s.passes| - 1)]);
      if turn.returnsFalse && o.stopOnFalse then
        Run(o, s1.(c := c1.(memory := None)), d, true)
      else
        Run(o, s1.(c := c1.(firingIndex := c1.firingIndex + 1)), d, false)
  }

  /** An operation from outside, between passes. */
  function Outside<F(==), D>(o: Options, s: Outcome<F, D>, op: Op<F, D>): (r: Outcome<F, D>)
    requires Idle(s.c)
    ensures Idle(r.c)
  {
    match op
    case Add(fs) =>
      var c := AddOp(o, s.c, fs);
      if AddFires(s.c) then
        var d := s.c.memory.value;
        Run(o, s.(c := Begin(o, c, d), passes := s.passes + [d]), d, false)
      else s.(c := c)
    case Remove(f) => s.(c := RemoveOp(s.c, f))
    case FireWith(d) =>
      if Hears(s.c) then Run(o, s.(c := Begin(o, s.c, d), passes := s.passes + [d]), d, false) else s
    case Lock => s.(c := LockOp(s.c))
    case Disable => s.(c := DisableOp(s.c))
    case Empty => s.(c := EmptyOp(s.c))
  }

  // ---------------------------------------------------------------- the object

  class CallbackList<F(==), D> {
    const o: Options
    var list: Option<seq<F>>
    var stack: Option<seq<D>>
    var memory: Option<D>
    var fired: bool
    var firing: bool
    var firingLength: int
    var firingIndex: int
    var firingStart: nat
    // user code and its record
    var world: seq<Turn<F, D>>
    var log: seq<Call<F, D>>
    var passes: seq<D>

    constructor (o: Options, world: seq<Turn<F, D>>)
      ensures this.o == o && State() == Outcome(Init(o), world, [], [])
    {
      this.o, this.world, log, passes := o, world, [], [];
      list, stack, memory := Some([]), if o.once then None else Some([]), None;
      fired, firing, firingLength, firingIndex, firingStart := false, false, 0, 0, 0;
    }

    function Vars(): Cb<F, D>
      reads this
    {
      Cb(list, stack, memory, fired, firing, firingLength, firingIndex, firingStart)
    }

    function State(): Outcome<F, D>
      reads this
    {
      Outcome(Vars(), world, log, passes)
    }

    /** `fire( data )`: the closure that walks the list. It is never entered while it runs. */
    method Fire(d: D)
      requires !firing && list.Some? && Sane(Vars())
      modifies this
      ensures State() == Run(o, old(State().(c := Begin(o, Vars(), d), passes := passes + [d])), d, false)
      decreases 1, |world|, Waiting(Vars()), 2
    {
      passes := passes + [d];
      memory := if o.memory then Some(d) else None;
      fired := true;
      firingIndex := firingStart;
      firingStart := 0;
      firingLength := |list.value|;
      firing := true;
      Walk(d);
    }

    /** The loop of `fire`. */
    method Walk(d: D)
      requires AtTest(Vars(), false) && |passes| > 0
      modifies this
      ensures State() == Run(o, old(State()), d, false)
      decreases 1, |world|, Waiting(Vars()), 1
    {
      var stopped := false;
      while !stopped && list.Some? && firingIndex < firingLength
        invariant AtTest(Vars(), stopped) && |passes| > 0
        invariant Run(o, old(State()), d, false) == Run(o, State(), d, stopped)
        invariant |world| <= old(|world|) && (|world| == old(|world|) ==> Waiting(Vars()) == old(Waiting(Vars())))
        decreases |world|, if stopped then 0 else 1, Ahead(Vars())
      {
        stopped := CallNext(d);
      }
      Finish(d, stopped);
    }

    /** The body of the loop; `stopped` is its `break`. */
    method CallNext(d: D) returns (stopped: bool)
      requires AtTest(Vars(), false) && More(Vars()) && |passes| > 0
      modifies this
      ensures AtTest(Vars(), stopped) && |passes| > 0
      ensures Run(o, old(State()), d, false) == Run(o, State(), d, stopped)
      ensures |world| < |old(world)| ||
              (world == old(world) && !stopped && Waiting(Vars()) == old(Waiting(Vars()))
                  && Ahead(Vars()) < old(Ahead(Vars())))
      decreases 0, |world|, 0, 1
    {
      var returnsFalse := Invoke(list.value[firingIndex], d);
      if returnsFalse && o.stopOnFalse {
        memory := None;
        stopped := true;
      } else {
        firingIndex := firingIndex + 1;
        stopped := false;
      }
    }

    /** The end of `fire`: the next pass, or what `once` and `lock` leave of the list. */
    method Finish(ghost d: D, ghost stopped: bool)
      requires AtTest(Vars(), stopped) && |passes| > 0 && (stopped || !More(Vars()))
      modifies this
      ensures State() == Run(o, old(State()), d, stopped)
      decreases 1, |world|, Waiting(Vars()), 0
    {
      firing := false;
      if list.Some? {
        if stack.Some? {
          if |stack.value| > 0 {
            var next := stack.value[0];
            stack := Some(stack.value[1..]);
            Fire(next);
          }
        } else if memory.Some? {
          list := Some([]);
        } else {
          DoDisable();
        }
      }
    }

    /** `list[ firingIndex ].apply( data[ 0 ], data[ 1 ] )`: the function performs its next turn on this very list. */
    method Invoke(f: F, d: D) returns (returnsFalse: bool)
      requires firing && InCall(Vars()) && |passes| > 0
      modifies this
      ensures State() == Outcome(InsideAll(o, old(Vars()), Now(old(world)).ops), Later(old(world)),
                                 old(log) + [Call(f, d, |old(passes)| - 1)], old(passes))
      ensures returnsFalse == Now(old(world)).returnsFalse
      decreases 0, |world|, 0, 0
    {
      log := log + [Call(f, d, |passes| - 1)];
      if |world| == 0 { return false; }
      var turn := world[0];
      world := world[1..];
      var i := 0;
      ghost var after := InsideAll(o, Vars(), turn.ops);
      while i < |turn.ops|
        invariant 0 <= i <= |turn.ops|
        invariant firing && InCall(Vars()) && after == InsideAll(o, Vars(), turn.ops[i..])
        invariant world == old(world)[1..] && passes == old(passes) && log == old(log) + [Call(f, d, |old(passes)| - 1)]
      {
        Perform(turn.ops[i]);
        assert turn.ops[i..][0] == turn.ops[i] && turn.ops[i..][1..] == turn.ops[i + 1..];
        i := i + 1;
      }
      returnsFalse := turn.returnsFalse;
    }

    /** One operation, whether from a running function of the list or from outside. */
    method Perform(op: Op<F, D>)
      requires InCall(Vars()) && (!firing ==> Idle(Vars()))
      modifies this
      ensures old(firing) ==> State() == old(State()).(c := Inside(o, old(Vars()), op))
      ensures !old(firing) ==> State() == Outside(o, old(State()), op)
      decreases if firing then 0 else 1, |world|, Waiting(Vars()), 5
    {
      match op
      case Add(fs) => DoAdd(fs);
      case Remove(f) => DoRemove(f);
      case FireWith(d) => DoFireWith(d);
      case Lock => DoLock();
      case Disable => DoDisable();
      case Empty => DoEmpty();
    }

    /** `add`. Late functions of a list with memory are called at once with the latest data. */
    method DoAdd(fs: seq<F>)
      requires InCall(Vars()) && (!firing ==> Idle(Vars()))
      modifies this
      ensures old(firing) ==> State() == old(State()).(c := AddOp(o, old(Vars()), fs))
      ensures !old(firing) ==> State() == Outside(o, old(State()), Add(fs))
      decreases if firing then 0 else 1, |world|, Waiting(Vars()), 4
    {
      if list.Some? {
        var start := |list.value|;
        ghost var all := Extend(o, list.value, fs);
        for i := 0 to |fs|
          invariant list.Some? && Extend(o, list.value, fs[i..]) == all
          invariant Vars() == old(Vars()).(list := list) && State() == old(State()).(c := Vars())
        {
          assert fs[i..][0] == fs[i] && fs[i..][1..] == fs[i + 1..];
          if !(o.unique && fs[i] in list.value) { list := Some(list.value + [fs[i]]); }
        }
        if firing {
          firingLength := |list.value|;
        } else if memory.Some? {
          firingStart := start;
          Fire(memory.value);
        }
      }
    }

    /** `inArray( f, list, from )` */
    method InArray(f: F, from: nat) returns (index: int)
      requires list.Some?
      ensures index == -1 ==> forall i :: from <= i < |list.value| ==> list.value[i] != f
      ensures index != -1 ==>
                && from <= index < |list.value| && list.value[index] == f
                && forall i :: from <= i < index ==> list.value[i] != f
    {
      index := from;
      while index < |list.value|
        invariant from <= index
        invariant forall i :: from <= i < index && i < |list.value| ==> list.value[i] != f
      {
        if list.value[index] == f { return; }
        index := index + 1;
      }
      index := -1;
    }

    /** `remove`: search, splice, and pull the firing indexes along. */
    method DoRemove(f: F)
      requires InCall(Vars())
      modifies this`list, this`firingLength, this`firingIndex
      ensures Vars() == RemoveOp(old(Vars()), f)
    {
      if list.Some? { RemoveAll(f); }
    }

    method RemoveAll(f: F)
      requires InCall(Vars()) && list.Some?
      modifies this`list, this`firingLength, this`firingIndex
      ensures list == Some(Without(old(list.value), f))
      ensures firing ==> firingLength == |list.value|
      ensures firing ==>
                var passed := Passed(old(Vars())); firingIndex == old(firingIndex) - (|passed| - |Without(passed, f)|)
      ensures !firing ==> firingLength == old(firingLength) && firingIndex == old(firingIndex)
    {
      ghost var l0 := list.value;
      ghost var mark: nat := if firing then firingIndex + 1 else 0;
      var from: nat := 0;
      ghost var at: nat := 0;   // the place of `from` in the list as it was
      while true
        invariant list.Some? && Scan(l0, f, at, list.value, from)
        invariant firing ==> firingLength == |list.value| && firingIndex + 1 == Following(l0, f, mark, at)
        invariant !firing ==> firingLength == old(firingLength) && firingIndex == old(firingIndex)
        decreases |list.value|
      {
        var index := InArray(f, from);
        if index == -1 {
          ScanEnd(l0, f, at, list.value, from, mark);
          return;
        }
        ScanHit(l0, f, at, list.value, from, index, mark);
        SpliceAt(index);
        at, from := at + (index - from) + 1, index;
      }
    }

    /** `list.splice( index, 1 )` and the firing indexes after it. */
    method SpliceAt(index: nat)
      requires list.Some? && index < |list.value|
      modifies this`list, this`firingLength, this`firingIndex
      ensures list == Some(old(list.value)[..index] + old(list.value)[index + 1..])
      ensures firingLength == if firing && index <= old(firingLength) then old(firingLength) - 1 else old(firingLength)
      ensures firingIndex == if firing && index <= old(firingIndex) then old(firingIndex) - 1 else old(firingIndex)
    {
      list := Some(list.value[..index] + list.value[index + 1..]);
      if firing {
        if index <= firingLength { firingLength := firingLength - 1; }
        if index <= firingIndex { firingIndex := firingIndex - 1; }
      }
    }

    method DoFireWith(d: D)
      requires InCall(Vars()) && (!firing ==> Idle(Vars()))
      modifies this
      ensures old(firing) ==> State() == old(State()).(c := FireOp(old(Vars()), d))
      ensures !old(firing) ==> State() == Outside(o, old(State()), FireWith(d))
      decreases if firing then 0 else 1, |world|, Waiting(Vars()), 4
    {
      if list.Some? && (!fired || stack.Some?) {
        if firing {
          stack := Some(stack.value + [d]);
        } else {
          Fire(d);
        }
      }
    }

    method DoLock()
      modifies this`list, this`stack, this`memory
      ensures Vars() == LockOp(old(Vars()))
    {
      stack := None;
      if memory.None? { DoDisable(); }
    }

    method DoDisable()
      modifies this`list, this`stack, this`memory
      ensures Vars() == DisableOp(old(Vars()))
    {
      list, stack, memory := None, None, None;
    }

    method DoEmpty()
      modifies this`list, this`firingLength
      ensures Vars() == EmptyOp(old(Vars()))
    {
      list, firingLength := Some([]), 0;
    }
  }

  // ---------------------------------------------------------------- removal

  /** Where a mark in front of position `m` has moved when the entries in front of `at` have been dealt with. */
  function Following<F(==)>(s: seq<F>, f: F, m: nat, at: nat): nat
    requires at <= |s|
  {
    if at <= m then m - at + |Without(s[..at], f)| else |Without(s[..m], f)|
  }

  lemma {:induction false} WithoutAppend<F>(a: seq<F>, b: seq<F>, f: F)
    ensures Without(a + b, f) == Without(a, f) + Without(b, f)
    decreases |a|
  {
    if |a| == 0 { assert a + b == b; }
    else {
      assert (a + b)[1..] == a[1..] + b;
      WithoutAppend(a[1..], b, f);
      var head := if a[0] == f then [] else [a[0]];
      assert Without(a + b, f) == head + (Without(a[1..], f) + Without(b, f))
             == head + Without(a[1..], f) + Without(b, f);
    }
  }

  lemma {:induction false} WithoutNone<F>(s: seq<F>, f: F)
    requires f !in s
    ensures Without(s, f) == s
    decreases |s|
  {
    if |s| == 0 {
    } else {
      WithoutNone(s[1..], f);
    }
  }

  /** Entries that stay. */
  lemma SkipOthers<F>(s: seq<F>, f: F, a: nat, b: nat)
    requires a <= b <= |s| && forall i :: a <= i < b ==> s[i] != f
    ensures Without(s[..b], f) == Without(s[..a], f) + s[a..b]
  {
    assert s[..b] == s[..a] + s[a..b];
    WithoutAppend(s[..a], s[a..b], f);
    WithoutNone(s[a..b], f);
  }

  lemma FollowOthers<F>(s: seq<F>, f: F, m: nat, a: nat, b: nat)
    requires a <= b <= |s| && forall i :: a <= i < b ==> s[i] != f
    ensures Following(s, f, m, b) == Following(s, f, m, a)
  {
    SkipOthers(s, f, a, b);
    if a <= m < b { SkipOthers(s, f, a, m); }
  }

  /** An entry that goes. */
  lemma DropHit<F>(s: seq<F>, f: F, a: nat)
    requires a < |s| && s[a] == f
    ensures Without(s[..a + 1], f) == Without(s[..a], f)
  {
    assert s[..a + 1] == s[..a] + [s[a]];
    WithoutAppend(s[..a], [s[a]], f);
  }

  /** The mark moves back exactly when the dropped entry stood in front of it, which its present index tells. */
  lemma FollowHit<F>(s: seq<F>, f: F, m: nat, a: nat, hit: nat)
    requires a <= hit < |s| && s[hit] == f && forall i :: a <= i < hit ==> s[i] != f
    ensures var mark, index := Following(s, f, m, a), |Without(s[..hit], f)|;
            Following(s, f, m, hit + 1) == if index < mark then mark - 1 else mark
  {
    FollowOthers(s, f, m, a, hit);
    DropHit(s, f, hit);
    if m < hit {
      assert s[..hit] == s[..m] + s[m..hit];
      WithoutAppend(s[..m], s[m..hit], f);
    }
  }

  /** `list` is the old list `s` with the part before `at` dealt with; that part is now `from` long. */
  ghost predicate Scan<F>(s: seq<F>, f: F, at: nat, list: seq<F>, from: nat) {
    at <= |s| && list == Without(s[..at], f) + s[at..] && from == |Without(s[..at], f)|
  }

  lemma ShiftedEntries<F>(s: seq<F>, f: F, a: nat, list: seq<F>, from: nat)
    requires Scan(s, f, a, list, from)
    ensures forall i :: a <= i < |s| ==> s[i] == list[from + (i - a)]
  {
  }

  lemma ScanEnd<F>(s: seq<F>, f: F, at: nat, list: seq<F>, from: nat, mark: nat)
    requires Scan(s, f, at, list, from) && forall i :: from <= i < |list| ==> list[i] != f
    ensures list == Without(s, f)
    ensures var passed := if mark <= |s| then s[..mark] else s;
            Following(s, f, mark, at) == mark - (|passed| - |Without(passed, f)|)
  {
    ShiftedEntries(s, f, at, list, from);
    SkipOthers(s, f, at, |s|);
    FollowOthers(s, f, mark, at, |s|);
    assert s[..|s|] == s && s[at..|s|] == s[at..];
  }

  lemma ScanHit<F>(s: seq<F>, f: F, at: nat, list: seq<F>, from: nat, index: nat, mark: nat)
    requires Scan(s, f, at, list, from)
    requires from <= index < |list| && list[index] == f && forall i :: from <= i < index ==> list[i] != f
    ensures Scan(s, f, at + (index - from) + 1, list[..index] + list[index + 1..], index)
    ensures var m := Following(s, f, mark, at);
            Following(s, f, mark, at + (index - from) + 1) == if index < m then m - 1 else m
  {
    ShiftedEntries(s, f, at, list, from);
    var hit := at + (index - from);
    assert forall i :: at <= i < hit ==> s[i] == list[from + (i - at)];
    SpliceHit(s, f, at, hit, list, index);
    DropHit(s, f, hit);
    FollowHit(s, f, mark, at, hit);
  }

  lemma SpliceHit<F>(s: seq<F>, f: F, a: nat, hit: nat, list: seq<F>, index: nat)
    requires a <= hit < |s| && s[hit] == f && forall i :: a <= i < hit ==> s[i] != f
    requires list == Without(s[..a], f) + s[a..] && index == |Without(s[..a], f)| + (hit - a)
    ensures index < |list| && index == |Without(s[..hit], f)|
    ensures list[..index] + list[index + 1..] == Without(s[..hit + 1], f) + s[hit + 1..]
  {
    SkipOthers(s, f, a, hit);
    DropHit(s, f, hit);
    assert s[a..] == s[a..hit] + [f] + s[hit + 1..];
    assert list == Without(s[..hit], f) + [f] + s[hit + 1..];
  }
}
