/**
 `jQuery.Deferred`: three callback lists wired together. User code registers handlers and calls resolve, reject and
 notify at any time, also from inside running handlers, so walks of different lists nest. A run is any sequence of
 steps; a step that is not possible leaves the configuration as it is.
 */
module Deferreds {
  import opened Wrappers
  import opened Callbacks

  /** The context and arguments handed to a list. */
  type Data = nat

  datatype Which = Done | Fail | Progress

  datatype State = Pending | Resolved | Rejected

  /** The three entries the constructor puts in front of the done and the fail list, and user handlers. */
  datatype Handler = SetState | DisableOther | LockProgress | User(id: nat)

  type List = Cb<Handler, Data>

  /** A walk under way; `inHandler` says that one of its user handlers is running. */
  datatype Frame = Frame(which: Which, data: Data, inHandler: bool)

  datatype Event = Event(which: Which, id: nat, data: Data)

  datatype Config = Config(
    state: State,
    done: List,
    fail: List,
    progress: List,
    frames: seq<Frame>,
    log: seq<Event>,           // user handler calls so far
    doneRegs: seq<nat>,        // handlers registered so far
    failRegs: seq<nat>)
  {
    function Get(w: Which): List {
      match w
      case Done => done
      case Fail => fail
      case Progress => progress
    }

    function Put(w: Which, l: List): (r: Config)
      ensures r.Get(w) == l && forall v: Which :: v != w ==> r.Get(v) == Get(v)
      ensures r.frames == frames && r.log == log && r.state == state && forall v: Which :: r.Regs(v) == Regs(v)
    {
      match w
      case Done => this.(done := l)
      case Fail => this.(fail := l)
      case Progress => this.(progress := l)
    }

    function Regs(w: Which): seq<nat> {
      match w
      case Done => doneRegs
      case Fail => failRegs
      case Progress => []
    }

    function Noted(w: Which, ids: seq<nat>): (r: Config)
      ensures forall v: Which :: r.Get(v) == Get(v)
      ensures r.frames == frames && r.log == log && r.state == state
      ensures forall v: Which :: r.Regs(v) == if v == w && w != Progress then Regs(v) + ids else Regs(v)
    {
      match w
      case Done => this.(doneRegs := doneRegs + ids)
      case Fail => this.(failRegs := failRegs + ids)
      case Progress => this
    }

    /** User code is running: at top level or in the handler on top. */
    predicate UserTurn() { |frames| == 0 || frames[|frames| - 1].inHandler }

    function Push(f: Frame): (r: Config)
      ensures forall v: Which :: r.Get(v) == Get(v) && r.Regs(v) == Regs(v)
    { this.(frames := frames + [f]) }

    function Pop(): (r: Config)
      requires |frames| > 0
      ensures forall v: Which :: r.Get(v) == Get(v) && r.Regs(v) == Regs(v)
    {
      this.(frames := frames[..|frames| - 1])
    }

    function Top(f: Frame): (r: Config)
      requires |frames| > 0
      ensures forall v: Which :: r.Get(v) == Get(v) && r.Regs(v) == Regs(v)
    {
      this.(frames := frames[..|frames| - 1] + [f])
    }
  }

  const BUILTINS: seq<Handler> := [SetState, DisableOther, LockProgress]

  function OptionsOf(w: Which): Options { Options(w != Progress, true, false, false) }

  function Other(w: Which): Which { if w == Done then Fail else Done }

  function Won(w: Which): State { if w == Done then Resolved else Rejected }

  function Start(): Config {
    var l := Init<Handler, Data>(OptionsOf(Done)).(list := Some(BUILTINS));
    Config(Pending, l, l, Init(OptionsOf(Progress)), [], [], [], [])
  }

  // ---------------------------------------------------------------- steps

  datatype Step =
    | Register(which: Which, ids: seq<nat>)   // done, fail, progress
    | Fire(which: Which, data: Data)          // resolve, reject, notify
    | Return                                  // the running handler returns
    | Walk                                    // the walk on top goes on

  function Next(c: Config, s: Step): Config
    requires FramesFit(c)
  {
    match s
    case Register(w, ids) => if c.UserTurn() then DoRegister(c, w, ids) else c
    case Fire(w, d) => if c.UserTurn() then DoFire(c, w, d) else c
    case Return => if |c.frames| > 0 && c.UserTurn() then DoReturn(c) else c
    case Walk => if |c.frames| > 0 && !c.UserTurn() then DoWalk(c) else c
  }

  /** `list.add( handlers )` */
  function DoRegister(c: Config, w: Which, ids: seq<nat>): Config {
    var l := c.Get(w);
    var added := AddOp(OptionsOf(w), l, Users(ids));
    if AddFires(l) then
      c.Noted(w, ids).Put(w, Begin(OptionsOf(w), added, l.memory.value)).Push(Frame(w, l.memory.value, false))
    else c.Noted(w, ids).Put(w, added)
  }

  /** `list.fireWith( context, args )` */
  function DoFire(c: Config, w: Which, d: Data): Config
    requires FramesFit(c)
  {
    var l := c.Get(w);
    if !Hears(l) then c
    else if l.firing then c.Put(w, FireOp(l, d))
    else c.Put(w, Begin(OptionsOf(w), l, d)).Push(Frame(w, d, false))
  }

  function Advanced(l: List): List { l.(firingIndex := l.firingIndex + 1) }

  function DoReturn(c: Config): Config
    requires |c.frames| > 0
  {
    var f := c.frames[|c.frames| - 1];
    c.Put(f.which, Advanced(c.Get(f.which))).Top(f.(inHandler := false))
  }

  /** One entry of the walk on top, or its end. The built-in entries run no user code. */
  function DoWalk(c: Config): Config
    requires FramesFit(c) && |c.frames| > 0
  {
    assert HasFrame(c.frames, c.frames[|c.frames| - 1].which) && Linked(c, c.frames[|c.frames| - 1].which);
    var f := c.frames[|c.frames| - 1];
    var l := c.Get(f.which);
    if More(l) then
      match l.list.value[l.firingIndex]
      case SetState => c.(state := Won(f.which)).Put(f.which, Advanced(l))
      case DisableOther => c.Put(Other(f.which), DisableOp(c.Get(Other(f.which)))).Put(f.which, Advanced(l))
      case LockProgress => c.Put(Progress, LockOp(c.progress)).Put(f.which, Advanced(l))
      case User(id) => c.(log := c.log + [Event(f.which, id, f.data)]).Top(f.(inHandler := true))
    else
      var (l1, next) := End(l);
      match next
      case None => c.Put(f.which, l1).Pop()
      case Some(e) => c.Put(f.which, Begin(OptionsOf(f.which), l1, e)).Top(Frame(f.which, e, false))
  }

  // ---------------------------------------------------------------- the invariant

  function Users(ids: seq<nat>): seq<Handler> {
    seq(|ids|, i requires 0 <= i < |ids| => User(ids[i]))
  }

  /** The ids of the calls of list `w` in the log. */
  function CallsOf(log: seq<Event>, w: Which): seq<nat> {
    if |log| == 0 then []
    else CallsOf(log[..|log| - 1], w) + if log[|log| - 1].which == w then [log[|log| - 1].id] else []
  }

  ghost predicate Tidy(l: List) {
    && InCall(l) && l.firingStart == 0
    && (l.firing ==> 0 <= l.firingIndex && l.memory.Some? && l.list.Some?)
    && (!l.firing ==> Idle(l))
  }

  predicate HasFrame(frames: seq<Frame>, w: Which) {
    exists i :: 0 <= i < |frames| && frames[i].which == w
  }

  /** No list is walked twice at a time, and only the top frame can be between handlers. */
  ghost predicate Shape(frames: seq<Frame>) {
    && (forall i, j :: 0 <= i < j < |frames| ==> frames[i].which != frames[j].which)
    && (forall i :: 0 <= i < |frames| - 1 ==> frames[i].inHandler)
  }

  ghost predicate Linked(c: Config, w: Which) {
    && Tidy(c.Get(w))
    && (c.Get(w).firing <==> HasFrame(c.frames, w))
    && (forall i :: 0 <= i < |c.frames| && c.frames[i].which == w && c.frames[i].inHandler ==> More(c.Get(w)))
  }

  /** Frames and firing flags agree; the progress list has user handlers only. */
  ghost predicate FramesFit(c: Config) {
    && Shape(c.frames)
    && Linked(c, Done) && Linked(c, Fail) && Linked(c, Progress)
    && (c.progress.list.Some? ==> forall h :: h in c.progress.list.value ==> h.User?)
  }

  /** A done or fail list that nobody has fired. */
  ghost predicate Unfired(c: Config, w: Which) {
    var l := c.Get(w);
    && !l.fired && !l.firing && l.memory.None? && l.stack.None?
    && l.list == Some(BUILTINS + Users(c.Regs(w)))
    && CallsOf(c.log, w) == []
  }

  ghost predicate Disabled(c: Config, w: Which) {
    c.Get(w).list.None? && !c.Get(w).firing && CallsOf(c.log, w) == []
  }

  /** The winning list has been fired with `v`; `k` of its built-in entries have run, no user handler yet. */
  ghost predicate Settling(c: Config, w: Which, v: Data, k: nat) {
    var l := c.Get(w);
    && w != Progress && k < 3
    && l.firing && l.stack.None? && l.memory == Some(v)
    && l.list == Some(BUILTINS + Users(c.Regs(w))) && l.firingIndex == k
    && |c.frames| > 0 && c.frames[|c.frames| - 1] == Frame(w, v, false)
    && CallsOf(c.log, w) == []
    && c.state == (if k == 0 then Pending else Won(w))
    && (if k <= 1 then Unfired(c, Other(w)) else Disabled(c, Other(w)))
  }

  /** A handler of list `w` is running. */
  predicate Running(frames: seq<Frame>, w: Which) {
    exists i :: 0 <= i < |frames| && frames[i].which == w && frames[i].inHandler
  }

  /** The handlers of the winning list that are still to run: those after the running one, or from the index on. */
  ghost predicate Outstanding(l: List, running: bool, todo: seq<nat>) {
    && l.list.Some?
    && (if l.firing then
          var from := if running then l.firingIndex + 1 else l.firingIndex;
          0 <= from <= |l.list.value| && l.list.value[from..] == Users(todo)
        else l.list.value == [] && todo == [])
  }

  ghost predicate DataIs(log: seq<Event>, w: Which, v: Data) {
    forall i :: 0 <= i < |log| && log[i].which == w ==> log[i].data == v
  }

  /** What is settled apart from the handlers that wait. */
  ghost predicate Decided(c: Config, w: Which, v: Data) {
    var l := c.Get(w);
    && w != Progress && c.state == Won(w)
    && l.fired && l.stack.None? && l.memory == Some(v)
    && Disabled(c, Other(w))
    && c.progress.stack.None? && (c.progress.list.Some? ==> c.progress.fired)
    && (forall i :: 0 <= i < |c.frames| && c.frames[i].which == w ==> c.frames[i].data == v)
    && DataIs(c.log, w, v)
  }

  ghost predicate Waits(c: Config, w: Which, todo: seq<nat>) {
    Outstanding(c.Get(w), Running(c.frames, w), todo) && CallsOf(c.log, w) + todo == c.Regs(w)
  }

  ghost predicate Settled(c: Config, w: Which, v: Data) {
    Decided(c, w, v) && exists todo :: Waits(c, w, todo)
  }

  ghost predicate Inv(c: Config) {
    && FramesFit(c)
    && (|| (c.state == Pending && Unfired(c, Done) && Unfired(c, Fail))
        || (exists w, v, k :: Settling(c, w, v, k))
        || (exists w, v :: Settled(c, w, v)))
  }

  // ---------------------------------------------------------------- every step keeps the invariant

  lemma CallsOfOne(log: seq<Event>, e: Event, w: Which)
    ensures CallsOf(log + [e], w) == CallsOf(log, w) + if e.which == w then [e.id] else []
  {
    assert (log + [e])[..|log|] == log;
  }

  lemma UsersAppend(a: seq<nat>, b: seq<nat>)
    ensures Users(a + b) == Users(a) + Users(b)
  {
  }

  lemma StartInv()
    ensures Inv(Start())
  {
    assert BUILTINS + Users([]) == BUILTINS;
  }

  lemma {:induction false} ExtendAppends(o: Options, list: seq<Handler>, hs: seq<Handler>)
    requires !o.unique
    ensures Extend(o, list, hs) == list + hs
    decreases |hs|
  {
    if |hs| == 0 {
    } else {
      ExtendAppends(o, list + [hs[0]], hs[1..]);
      assert list + [hs[0]] + hs[1..] == list + hs;
    }
  }

  lemma AddAppends(w: Which, l: List, ids: seq<nat>)
    requires l.list.Some?
    ensures AddOp(OptionsOf(w), l, Users(ids)).list == Some(l.list.value + Users(ids))
  {
    ExtendAppends(OptionsOf(w), l.list.value, Users(ids));
  }

  /** A changed list `w` and, when it starts firing, its new frame on top of a user turn. */
  lemma FramesAfter(c: Config, r: Config, w: Which)
    requires FramesFit(c) && Tidy(r.Get(w)) && forall v: Which :: v != w ==> r.Get(v) == c.Get(v)
    requires r.progress.list.Some? ==> forall h :: h in r.progress.list.value ==> h.User?
    requires if r.Get(w).firing == c.Get(w).firing then
               r.frames == c.frames && (c.Get(w).firing && More(c.Get(w)) ==> More(r.Get(w)))
             else r.Get(w).firing && c.UserTurn() && exists d :: r.frames == c.frames + [Frame(w, d, false)]
    ensures FramesFit(r)
  {
    if r.Get(w).firing != c.Get(w).firing {
      var d :| r.frames == c.frames + [Frame(w, d, false)];
      HasFrameSnoc(c.frames, Frame(w, d, false));
    }
    forall v: Which ensures Linked(r, v) {
      assert Linked(c, v);
      if v == w && r.Get(w).firing != c.Get(w).firing { assert !HasFrame(c.frames, w); }
    }
  }

  lemma HasFrameSnoc(frames: seq<Frame>, f: Frame)
    ensures forall w: Which :: HasFrame(frames + [f], w) <==> HasFrame(frames, w) || f.which == w
  {
    forall w: Which ensures HasFrame(frames + [f], w) <==> HasFrame(frames, w) || f.which == w {
      if f.which == w { assert (frames + [f])[|frames|].which == w; }
      if HasFrame(frames, w) {
        var i :| 0 <= i < |frames| && frames[i].which == w;
        assert (frames + [f])[i].which == w;
      }
    }
  }

  lemma RegisterKeepsFrames(c: Config, w: Which, ids: seq<nat>)
    requires FramesFit(c) && c.UserTurn()
    ensures FramesFit(DoRegister(c, w, ids))
  {
    var l := c.Get(w);
    var r := DoRegister(c, w, ids);
    if l.list.Some? { AddAppends(w, l, ids); }
    if AddFires(l) { assert r.frames == c.frames + [Frame(w, l.memory.value, false)]; }
    FramesAfter(c, r, w);
  }

  lemma FireKeepsFrames(c: Config, w: Which, d: Data)
    requires FramesFit(c) && c.UserTurn()
    ensures FramesFit(DoFire(c, w, d))
  {
    var r := DoFire(c, w, d);
    if Hears(c.Get(w)) && !c.Get(w).firing { assert r.frames == c.frames + [Frame(w, d, false)]; }
    FramesAfter(c, r, w);
  }

  /** The top frame changes its mark, its data or its list's index. */
  lemma FramesAfterTop(c: Config, r: Config, f: Frame)
    requires FramesFit(c) && |c.frames| > 0
    requires f.which == c.frames[|c.frames| - 1].which
    requires r.frames == c.frames[..|c.frames| - 1] + [f]
    requires forall v: Which :: v != f.which ==> r.Get(v) == c.Get(v)
    requires Tidy(r.Get(f.which)) && r.Get(f.which).firing && (f.inHandler ==> More(r.Get(f.which)))
    requires r.progress.list.Some? ==> forall h :: h in r.progress.list.value ==> h.User?
    ensures FramesFit(r)
  {
    var rest, g := c.frames[..|c.frames| - 1], c.frames[|c.frames| - 1];
    assert c.frames == rest + [g];
    HasFrameSnoc(rest, g);
    HasFrameSnoc(rest, f);
    forall v: Which ensures Linked(r, v) { assert Linked(c, v); }
  }

  lemma ReturnKeepsFrames(c: Config)
    requires FramesFit(c) && |c.frames| > 0 && c.UserTurn()
    ensures FramesFit(DoReturn(c))
  {
    var f := c.frames[|c.frames| - 1];
    FramesAfterTop(c, DoReturn(c), f.(inHandler := false));
  }

  lemma TopFrame(c: Config)
    requires FramesFit(c) && |c.frames| > 0
    ensures var f := c.frames[|c.frames| - 1];
            && c.Get(f.which).firing
            && c.frames == c.frames[..|c.frames| - 1] + [f]
            && forall i :: 0 <= i < |c.frames| && c.frames[i].which == f.which ==> i == |c.frames| - 1
  {
    var f := c.frames[|c.frames| - 1];
    assert HasFrame(c.frames, f.which) && Linked(c, f.which);
  }

  /** A user handler starts. */
  lemma CallKeepsFrames(c: Config, e: Event)
    requires FramesFit(c) && |c.frames| > 0 && !c.UserTurn()
    requires More(c.Get(c.frames[|c.frames| - 1].which))
    ensures FramesFit(c.(log := c.log + [e]).Top(c.frames[|c.frames| - 1].(inHandler := true)))
  {
    TopFrame(c);
    FramesAfterTop(c, c.(log := c.log + [e]).Top(c.frames[|c.frames| - 1].(inHandler := true)),
        c.frames[|c.frames| - 1].(inHandler := true));
  }

  lemma RunningSnoc(frames: seq<Frame>, f: Frame, w: Which)
    ensures Running(frames + [f], w) <==> Running(frames, w) || (f.which == w && f.inHandler)
  {
    if f.which == w && f.inHandler { assert (frames + [f])[|frames|] == f; }
    if Running(frames, w) {
      var i :| 0 <= i < |frames| && frames[i].which == w && frames[i].inHandler;
      assert (frames + [f])[i] == frames[i];
    }
  }

  /** A walk ends for good. */
  lemma EndKeepsFrames(c: Config)
    requires FramesFit(c) && |c.frames| > 0 && !c.UserTurn()
    requires !More(c.Get(c.frames[|c.frames| - 1].which)) && End(c.Get(c.frames[|c.frames| - 1].which)).1.None?
    ensures var w := c.frames[|c.frames| - 1].which; FramesFit(c.Put(w, End(c.Get(w)).0).Pop())
  {
    TopFrame(c);
    var rest, f := c.frames[..|c.frames| - 1], c.frames[|c.frames| - 1];
    var r := c.Put(f.which, End(c.Get(f.which)).0).Pop();
    HasFrameSnoc(rest, f);
    assert !HasFrame(rest, f.which);
    PopLinked(c, r, Done);
    PopLinked(c, r, Fail);
    PopLinked(c, r, Progress);
  }

  lemma PopLinked(c: Config, r: Config, v: Which)
    requires FramesFit(c) && |c.frames| > 0 && r.frames == c.frames[..|c.frames| - 1]
    requires if v == c.frames[|c.frames| - 1].which then
               Tidy(r.Get(v)) && !r.Get(v).firing && !HasFrame(r.frames, v)
             else r.Get(v) == c.Get(v)
    requires HasFrame(c.frames, v) ==> HasFrame(r.frames, v) || v == c.frames[|c.frames| - 1].which
    ensures Linked(r, v)
  {
    assert Linked(c, v);
  }

  /** A walk ends and the next pass begins. */
  lemma NextPassKeepsFrames(c: Config)
    requires FramesFit(c) && |c.frames| > 0 && !c.UserTurn()
    requires !More(c.Get(c.frames[|c.frames| - 1].which)) && End(c.Get(c.frames[|c.frames| - 1].which)).1.Some?
    ensures var w := c.frames[|c.frames| - 1].which;
            var e := End(c.Get(w)).1.value;
            FramesFit(c.Put(w, Begin(OptionsOf(w), End(c.Get(w)).0, e)).Top(Frame(w, e, false)))
  {
    TopFrame(c);
    var w := c.frames[|c.frames| - 1].which;
    var e := End(c.Get(w)).1.value;
    FramesAfterTop(c, c.Put(w, Begin(OptionsOf(w), End(c.Get(w)).0, e)).Top(Frame(w, e, false)), Frame(w, e, false));
  }

  /** The step of a walk at its end. */
  lemma WalkEndKeepsFrames(c: Config)
    requires FramesFit(c) && |c.frames| > 0 && !c.UserTurn() && !More(c.Get(c.frames[|c.frames| - 1].which))
    ensures FramesFit(DoWalk(c))
  {
    if End(c.Get(c.frames[|c.frames| - 1].which)).1.None? { EndKeepsFrames(c); } else { NextPassKeepsFrames(c); }
  }

  // pending

  ghost predicate AllPending(c: Config) {
    FramesFit(c) && c.state == Pending && Unfired(c, Done) && Unfired(c, Fail)
  }

  lemma PendingRegister(c: Config, w: Which, ids: seq<nat>)
    requires AllPending(c) && c.UserTurn()
    ensures AllPending(DoRegister(c, w, ids))
  {
    RegisterKeepsFrames(c, w, ids);
    if w != Progress {
      AddAppends(w, c.Get(w), ids);
      UnfiredList(c.Regs(w), ids);
    }
  }

  lemma UnfiredList(regs: seq<nat>, ids: seq<nat>)
    ensures BUILTINS + Users(regs) + Users(ids) == BUILTINS + Users(regs + ids)
  {
    UsersAppend(regs, ids);
  }

  lemma PendingFire(c: Config, w: Which, d: Data)
    requires AllPending(c) && c.UserTurn()
    ensures w == Progress ==> AllPending(DoFire(c, w, d))
    ensures w != Progress ==> Settling(DoFire(c, w, d), w, d, 0)
  {
    FireKeepsFrames(c, w, d);
  }

  lemma PendingReturn(c: Config)
    requires AllPending(c) && |c.frames| > 0 && c.UserTurn()
    ensures AllPending(DoReturn(c))
  {
    TopFrame(c);
    ReturnKeepsFrames(c);
  }

  lemma ProgressEntry(c: Config)
    requires FramesFit(c) && |c.frames| > 0 && !c.UserTurn() && c.frames[|c.frames| - 1].which == Progress
             && More(c.progress)
    ensures 0 <= c.progress.firingIndex < |c.progress.list.value| && c.progress.list.value[c.progress.firingIndex].User?
  {
    TopFrame(c);
    assert c.progress.list.value[c.progress.firingIndex] in c.progress.list.value;
  }

  lemma PendingWalk(c: Config)
    requires AllPending(c) && |c.frames| > 0 && !c.UserTurn()
    ensures AllPending(DoWalk(c))
  {
    TopFrame(c);
    var f := c.frames[|c.frames| - 1];
    if More(c.progress) {
      ProgressEntry(c);
      var e := Event(Progress, c.progress.list.value[c.progress.firingIndex].id, f.data);
      CallKeepsFrames(c, e);
      CallsOfOne(c.log, e, Done);
      CallsOfOne(c.log, e, Fail);
    } else {
      WalkEndKeepsFrames(c);
    }
  }

  // settling

  lemma SettlingWalk(c: Config, w: Which, v: Data, k: nat)
    requires FramesFit(c) && Settling(c, w, v, k)
    ensures FramesFit(DoWalk(c))
    ensures if k < 2 then Settling(DoWalk(c), w, v, k + 1) else Settled(DoWalk(c), w, v)
  {
    BuiltinKeepsFrames(c, w, v, k);
    if k < 2 { FirstBuiltins(c, w, v, k); } else { LastBuiltin(c, w, v); }
  }

  lemma BuiltinKeepsFrames(c: Config, w: Which, v: Data, k: nat)
    requires FramesFit(c) && Settling(c, w, v, k)
    ensures FramesFit(DoWalk(c))
  {
    assert c.Get(w).list.value[k] == BUILTINS[k];
    assert Linked(c, Other(w)) && Linked(c, Progress);
    if k == 0 {
      AdvanceKeepsFrames(c.(state := Won(w)), w);
    } else if k == 1 {
      var c1 := c.Put(Other(w), DisableOp(c.Get(Other(w))));
      FramesAfter(c, c1, Other(w));
      AdvanceKeepsFrames(c1, w);
    } else {
      var c1 := c.Put(Progress, LockOp(c.progress));
      FramesAfter(c, c1, Progress);
      AdvanceKeepsFrames(c1, w);
    }
  }

  /** The walk on top goes past a built-in entry. */
  lemma AdvanceKeepsFrames(c: Config, w: Which)
    requires FramesFit(c) && |c.frames| > 0 && w != Progress
    requires c.frames[|c.frames| - 1].which == w && !c.frames[|c.frames| - 1].inHandler
    ensures FramesFit(c.Put(w, Advanced(c.Get(w))))
  {
    TopFrame(c);
    FramesAfterTop(c, c.Put(w, Advanced(c.Get(w))), c.frames[|c.frames| - 1]);
  }

  lemma FirstBuiltins(c: Config, w: Which, v: Data, k: nat)
    requires FramesFit(c) && Settling(c, w, v, k) && k < 2
    ensures Settling(DoWalk(c), w, v, k + 1)
  {
    assert c.Get(w).list.value[k] == BUILTINS[k];
    assert Linked(c, w) && Linked(c, Other(w));
    hide FramesFit;
    if k == 0 { assert DoWalk(c) == c.(state := Won(w)).Put(w, Advanced(c.Get(w))); }
    else { assert DoWalk(c) == c.Put(Other(w), DisableOp(c.Get(Other(w)))).Put(w, Advanced(c.Get(w))); }
  }

  lemma LastBuiltin(c: Config, w: Which, v: Data)
    requires FramesFit(c) && Settling(c, w, v, 2)
    ensures Settled(DoWalk(c), w, v)
  {
    TopFrame(c);
    NoCalls(c.log, w);
    assert c.Get(w).list.value[2] == BUILTINS[2];
    AllWait(c.Put(Progress, LockOp(c.progress)).Put(w, Advanced(c.Get(w))), w);
  }

  /** The built-in entries have run, and every user handler waits. */
  lemma AllWait(c: Config, w: Which)
    requires !Running(c.frames, w) && CallsOf(c.log, w) == []
    requires var l := c.Get(w); l.firing && l.firingIndex == 3 && l.list == Some(BUILTINS + Users(c.Regs(w)))
    ensures Waits(c, w, c.Regs(w))
  {
    assert c.Get(w).list.value[3..] == Users(c.Regs(w));
    assert [] + c.Regs(w) == c.Regs(w);
  }

  lemma {:induction false} NoCalls(log: seq<Event>, w: Which)
    requires CallsOf(log, w) == []
    ensures forall i :: 0 <= i < |log| ==> log[i].which != w
    decreases |log|
  {
    if |log| == 0 {
    } else {
      NoCalls(log[..|log| - 1], w);
    }
  }

  // settled

  lemma SettledRegister(c: Config, w: Which, v: Data, x: Which, ids: seq<nat>)
    requires FramesFit(c) && Settled(c, w, v) && c.UserTurn()
    ensures FramesFit(DoRegister(c, x, ids)) && Settled(DoRegister(c, x, ids), w, v)
  {
    RegisterKeepsFrames(c, x, ids);
    if x != w {
      SettledRegisterOther(c, w, v, x, ids);
    } else if c.Get(w).firing {
      JoinsWalk(c, w, v, ids);
    } else {
      StartsWalk(c, w, v, ids);
    }
  }

  lemma JoinsWalk(c: Config, w: Which, v: Data, ids: seq<nat>)
    requires FramesFit(c) && Settled(c, w, v) && c.Get(w).firing
    ensures Settled(DoRegister(c, w, ids), w, v)
  {
    var todo :| Waits(c, w, todo);
    AddAppends(w, c.Get(w), ids);
    Joined(c, DoRegister(c, w, ids), w, v, todo, ids);
  }

  lemma StartsWalk(c: Config, w: Which, v: Data, ids: seq<nat>)
    requires FramesFit(c) && Settled(c, w, v) && !c.Get(w).firing
    ensures Settled(DoRegister(c, w, ids), w, v)
  {
    var todo :| Waits(c, w, todo);
    AddAppends(w, c.Get(w), ids);
    assert Linked(c, w) && !HasFrame(c.frames, w);
    RunningSnoc(c.frames, Frame(w, v, false), w);
    Joined(c, DoRegister(c, w, ids), w, v, todo, ids);
  }

  lemma Joined(c: Config, r: Config, w: Which, v: Data, todo: seq<nat>, ids: seq<nat>)
    requires Decided(c, w, v) && Waits(c, w, todo) && Tidy(c.Get(w))
    requires var l, n := c.Get(w), r.Get(w);
             && n.list == Some(l.list.value + Users(ids)) && n.firing && n.fired && n.stack == l.stack
             && n.memory == l.memory
             && (if l.firing then n.firingIndex == l.firingIndex else n.firingIndex == |l.list.value|)
    requires r.state == c.state && r.log == c.log && r.progress == c.progress && r.Get(Other(w)) == c.Get(Other(w))
    requires r.Regs(w) == c.Regs(w) + ids
    requires forall i :: 0 <= i < |r.frames| && r.frames[i].which == w ==> r.frames[i].data == v
    requires Running(r.frames, w) == (c.Get(w).firing && Running(c.frames, w))
    ensures Settled(r, w, v)
  {
    LateHandler(c.Get(w), Running(c.frames, w), todo, r.Get(w), ids);
    assert CallsOf(c.log, w) + (todo + ids) == c.Regs(w) + ids;
    assert Waits(r, w, todo + ids);
  }

  lemma SettledRegisterOther(c: Config, w: Which, v: Data, x: Which, ids: seq<nat>)
    requires FramesFit(c) && Settled(c, w, v) && x != w
    ensures Settled(DoRegister(c, x, ids), w, v)
  {
    if AddFires(c.Get(x)) { RunningSnoc(c.frames, Frame(x, c.Get(x).memory.value, false), w); }
    Kept(c, DoRegister(c, x, ids), w, v);
  }

  /** Handlers registered on the winning list join the walk, or start one of their own. */
  lemma LateHandler(l: List, running: bool, todo: seq<nat>, r: List, ids: seq<nat>)
    requires Tidy(l) && Outstanding(l, running, todo) && l.memory.Some?
    requires r.list == Some(l.list.value + Users(ids)) && r.firing
    requires if l.firing then r.firingIndex == l.firingIndex else r.firingIndex == |l.list.value|
    ensures Outstanding(r, l.firing && running, todo + ids)
  {
    UsersAppend(todo, ids);
    if l.firing {
      var from := if running then l.firingIndex + 1 else l.firingIndex;
      assert r.list.value[from..] == l.list.value[from..] + Users(ids);
    } else {
      assert r.list.value[0..] == Users(todo + ids);
    }
  }

  lemma SettledFire(c: Config, w: Which, v: Data, x: Which, d: Data)
    requires FramesFit(c) && Settled(c, w, v)
    ensures DoFire(c, x, d) == c
  {
  }

  lemma TopRunning(c: Config, w: Which)
    requires FramesFit(c) && |c.frames| > 0
    ensures var rest, f := c.frames[..|c.frames| - 1], c.frames[|c.frames| - 1];
            && (Running(c.frames, w) <==> if f.which == w then f.inHandler else Running(rest, w))
            && (f.which == w ==> !Running(rest, w))
  {
    TopFrame(c);
    var rest, f := c.frames[..|c.frames| - 1], c.frames[|c.frames| - 1];
    RunningSnoc(rest, f, w);
  }

  lemma SettledReturn(c: Config, w: Which, v: Data)
    requires FramesFit(c) && Settled(c, w, v) && |c.frames| > 0 && c.UserTurn()
    ensures Settled(DoReturn(c), w, v)
  {
    TopRunning(c, w);
    var f, r := c.frames[|c.frames| - 1], DoReturn(c);
    RunningSnoc(c.frames[..|c.frames| - 1], f.(inHandler := false), w);
    TopFrame(c);
    var todo :| Waits(c, w, todo);
    assert Waits(r, w, todo);
  }

  lemma SettledWalk(c: Config, w: Which, v: Data)
    requires FramesFit(c) && Settled(c, w, v) && |c.frames| > 0 && !c.UserTurn()
    ensures FramesFit(DoWalk(c)) && Settled(DoWalk(c), w, v)
  {
    TopFrame(c);
    var f := c.frames[|c.frames| - 1];
    if f.which == w {
      if More(c.Get(w)) { SettledCall(c, w, v); } else { SettledEnd(c, w, v); }
    } else {
      SettledProgress(c, w, v);
    }
  }

  /** The walk on top reaches a user handler. */
  lemma CallStep(c: Config, id: nat)
    requires FramesFit(c) && |c.frames| > 0 && !c.UserTurn()
    requires var l := c.Get(c.frames[|c.frames| - 1].which);
             l.list.Some? && More(l) && 0 <= l.firingIndex < |l.list.value| && l.list.value[l.firingIndex] == User(id)
    ensures var f := c.frames[|c.frames| - 1];
            DoWalk(c) == c.(log := c.log + [Event(f.which, id, f.data)]).Top(f.(inHandler := true))
    ensures FramesFit(DoWalk(c))
  {
    var f := c.frames[|c.frames| - 1];
    CallKeepsFrames(c, Event(f.which, id, f.data));
  }

  lemma SettledCall(c: Config, w: Which, v: Data)
    requires FramesFit(c) && Settled(c, w, v) && |c.frames| > 0 && !c.UserTurn()
    requires c.frames[|c.frames| - 1].which == w && More(c.Get(w))
    ensures FramesFit(DoWalk(c)) && Settled(DoWalk(c), w, v)
  {
    TopFrame(c);
    TopRunning(c, w);
    var todo :| Waits(c, w, todo);
    assert Linked(c, w);
    FirstOutstanding(c.Get(w), todo);
    CallStep(c, todo[0]);
    var f := c.frames[|c.frames| - 1];
    RunningSnoc(c.frames[..|c.frames| - 1], f.(inHandler := true), w);
    Called(c, c.(log := c.log + [Event(w, todo[0], v)]).Top(f.(inHandler := true)), w, v, todo);
  }

  lemma Called(c: Config, r: Config, w: Which, v: Data, todo: seq<nat>)
    requires Decided(c, w, v) && |todo| > 0 && CallsOf(c.log, w) + todo == c.Regs(w)
    requires Outstanding(c.Get(w), true, todo[1..]) && Running(r.frames, w)
    requires r.log == c.log + [Event(w, todo[0], v)]
    requires r.state == c.state && r.Get(w) == c.Get(w) && r.Get(Other(w)) == c.Get(Other(w))
             && r.progress == c.progress
    requires r.Regs(w) == c.Regs(w)
    requires forall i :: 0 <= i < |r.frames| && r.frames[i].which == w ==> r.frames[i].data == v
    ensures Settled(r, w, v)
  {
    CallsOfOne(c.log, Event(w, todo[0], v), w);
    CallsOfOne(c.log, Event(w, todo[0], v), Other(w));
    assert CallsOf(c.log, w) + [todo[0]] + todo[1..] == CallsOf(c.log, w) + todo;
    assert Waits(r, w, todo[1..]);
  }

  lemma FirstOutstanding(l: List, todo: seq<nat>)
    requires Tidy(l) && More(l) && l.firing && Outstanding(l, false, todo)
    ensures |todo| > 0 && l.list.value[l.firingIndex] == User(todo[0]) && Outstanding(l, true, todo[1..])
  {
    assert l.list.value[l.firingIndex..] == Users(todo);
    assert l.list.value[l.firingIndex] == Users(todo)[0];
    assert l.list.value[l.firingIndex + 1..] == Users(todo)[1..] == Users(todo[1..]);
  }

  lemma SettledEnd(c: Config, w: Which, v: Data)
    requires FramesFit(c) && Settled(c, w, v) && |c.frames| > 0 && !c.UserTurn()
    requires c.frames[|c.frames| - 1].which == w && !More(c.Get(w))
    ensures FramesFit(DoWalk(c)) && Settled(DoWalk(c), w, v)
  {
    TopFrame(c);
    TopRunning(c, w);
    EndKeepsFrames(c);
    var todo :| Waits(c, w, todo);
    assert |Users(todo)| == 0;
    assert Waits(DoWalk(c), w, []);
  }

  lemma SettledProgress(c: Config, w: Which, v: Data)
    requires FramesFit(c) && Settled(c, w, v) && |c.frames| > 0 && !c.UserTurn()
    requires c.frames[|c.frames| - 1].which != w
    ensures FramesFit(DoWalk(c)) && Settled(DoWalk(c), w, v)
  {
    TopFrame(c);
    if More(c.progress) { SettledProgressCall(c, w, v); } else { SettledProgressEnd(c, w, v); }
  }

  /** Nothing that concerns the outcome has changed. */
  lemma Kept(c: Config, r: Config, w: Which, v: Data)
    requires Settled(c, w, v)
    requires r.state == c.state && r.Get(w) == c.Get(w) && r.Get(Other(w)) == c.Get(Other(w)) && r.Regs(w) == c.Regs(w)
    requires r.progress.stack.None? && (r.progress.list.Some? ==> r.progress.fired)
    requires Running(r.frames, w) == Running(c.frames, w)
    requires forall i :: 0 <= i < |r.frames| && r.frames[i].which == w ==> r.frames[i].data == v
    requires CallsOf(r.log, w) == CallsOf(c.log, w) && CallsOf(r.log, Other(w)) == CallsOf(c.log, Other(w))
             && DataIs(r.log, w, v)
    ensures Settled(r, w, v)
  {
    var todo :| Waits(c, w, todo);
    assert Waits(r, w, todo);
  }

  lemma SettledProgressCall(c: Config, w: Which, v: Data)
    requires FramesFit(c) && Settled(c, w, v) && |c.frames| > 0 && !c.UserTurn()
    requires c.frames[|c.frames| - 1].which == Progress && More(c.progress)
    ensures FramesFit(DoWalk(c)) && Settled(DoWalk(c), w, v)
  {
    TopRunning(c, w);
    ProgressEntry(c);
    var id := c.progress.list.value[c.progress.firingIndex].id;
    CallStep(c, id);
    ProgressNoted(c, w, v, Event(Progress, id, c.frames[|c.frames| - 1].data));
  }

  /** A call on the progress list is no business of the outcome. */
  lemma ProgressNoted(c: Config, w: Which, v: Data, e: Event)
    requires Settled(c, w, v) && |c.frames| > 0 && c.frames[|c.frames| - 1].which == Progress && e.which == Progress
    ensures Settled(c.(log := c.log + [e]).Top(c.frames[|c.frames| - 1].(inHandler := true)), w, v)
  {
    var rest, f := c.frames[..|c.frames| - 1], c.frames[|c.frames| - 1];
    CallsOfOne(c.log, e, w);
    CallsOfOne(c.log, e, Other(w));
    assert c.frames == rest + [f];
    RunningSnoc(rest, f, w);
    RunningSnoc(rest, f.(inHandler := true), w);
    Kept(c, c.(log := c.log + [e]).Top(f.(inHandler := true)), w, v);
  }

  lemma SettledProgressEnd(c: Config, w: Which, v: Data)
    requires FramesFit(c) && Settled(c, w, v) && |c.frames| > 0 && !c.UserTurn()
    requires c.frames[|c.frames| - 1].which == Progress && !More(c.progress)
    ensures FramesFit(DoWalk(c)) && Settled(DoWalk(c), w, v)
  {
    TopFrame(c);
    TopRunning(c, w);
    EndKeepsFrames(c);
    var r := c.Put(Progress, End(c.progress).0).Pop();
    Kept(c, r, w, v);
    assert DoWalk(c) == r;
  }

  lemma PendingStep(c: Config, s: Step)
    requires AllPending(c)
    ensures FramesFit(Next(c, s))
    ensures AllPending(Next(c, s)) || (s.Fire? && Settling(Next(c, s), s.which, s.data, 0))
  {
    hide FramesFit, Settling, DoRegister, DoFire, DoReturn, DoWalk;
    match s
    case Register(w, ids) => if c.UserTurn() { PendingRegister(c, w, ids); }
    case Fire(w, d) => if c.UserTurn() { PendingFire(c, w, d); FireKeepsFrames(c, w, d); }
    case Return => if |c.frames| > 0 && c.UserTurn() { PendingReturn(c); }
    case Walk => if |c.frames| > 0 && !c.UserTurn() { PendingWalk(c); }
  }

  lemma SettlingStep(c: Config, s: Step, w: Which, v: Data, k: nat)
    requires FramesFit(c) && Settling(c, w, v, k)
    ensures FramesFit(Next(c, s))
    ensures Settling(Next(c, s), w, v, k) || (k < 2 && Settling(Next(c, s), w, v, k + 1)) || Settled(Next(c, s), w, v)
  {
    assert |c.frames| > 0 && !c.UserTurn();
    hide FramesFit, Settling, Settled, DoWalk;
    if s == Walk { SettlingWalk(c, w, v, k); }
  }

  lemma SettledStep(c: Config, s: Step, w: Which, v: Data)
    requires FramesFit(c) && Settled(c, w, v)
    ensures FramesFit(Next(c, s)) && Settled(Next(c, s), w, v)
  {
    hide FramesFit, Settled, DoRegister, DoFire, DoReturn, DoWalk;
    match s
    case Register(x, ids) => if c.UserTurn() { SettledRegister(c, w, v, x, ids); }
    case Fire(x, d) => if c.UserTurn() { SettledFire(c, w, v, x, d); }
    case Return => if |c.frames| > 0 && c.UserTurn() { ReturnKeepsFrames(c); SettledReturn(c, w, v); }
    case Walk => if |c.frames| > 0 && !c.UserTurn() { SettledWalk(c, w, v); }
  }

  /** Every step from a good configuration leads to a good configuration. */
  lemma StepInv(c: Config, s: Step)
    requires Inv(c)
    ensures Inv(Next(c, s))
  {
    hide FramesFit, Unfired, Settling, Settled, Next;
    if AllPending(c) {
      PendingStep(c, s);
    } else if w, v, k :| Settling(c, w, v, k) {
      SettlingStep(c, s, w, v, k);
    } else {
      var w, v :| Settled(c, w, v);
      SettledStep(c, s, w, v);
    }
  }

  // ---------------------------------------------------------------- all runs

  ghost function After(steps: seq<Step>): (c: Config)
    ensures Inv(c)
    decreases |steps|
  {
    if |steps| == 0 then StartInv(); Start()
    else
      var before := After(steps[..|steps| - 1]);
      StepInv(before, steps[|steps| - 1]);
      Next(before, steps[|steps| - 1])
  }

  /** A user handler of an outcome has run only if that outcome is the state; and once settled, the state stays. */
  lemma SettlesOnce(steps: seq<Step>, s: Step)
    ensures var c := After(steps);
            && (CallsOf(c.log, Done) != [] ==> c.state == Resolved)
            && (CallsOf(c.log, Fail) != [] ==> c.state == Rejected)
            && (c.state != Pending ==> Next(c, s).state == c.state)
  {
    var c := After(steps);
    if w, v, k :| Settling(c, w, v, k) {
      SettlingStep(c, s, w, v, k);
      SettlingStays(c, Next(c, s), w, v, k);
    } else if w, v :| Settled(c, w, v) {
      SettledStep(c, s, w, v);
      assert c.state == Won(w) && CallsOf(c.log, Other(w)) == [];
    }
  }

  lemma SettlingStays(c: Config, r: Config, w: Which, v: Data, k: nat)
    requires Settling(c, w, v, k)
    requires Settling(r, w, v, k) || Settling(r, w, v, k + 1) || Settled(r, w, v)
    ensures CallsOf(c.log, Done) == [] && CallsOf(c.log, Fail) == []
    ensures c.state != Pending ==> r.state == c.state
  {
  }

  /** After settling, whenever user code can act at all, resolve, reject and notify change nothing. */
  lemma FiringIsOver(steps: seq<Step>, w: Which, d: Data)
    ensures After(steps).state != Pending ==> Next(After(steps), Fire(w, d)) == After(steps)
  {
    var c := After(steps);
    if x, v :| Settled(c, x, v) { SettledFire(c, x, v, w, d); }
  }

  /**
   On a resolved deferred, the done handlers that have run are, in this order, the registered ones up to those that
   a walk under way still has in front of it; with no walk under way all have run, each once for each time it was
   registered, whether before, during or after the resolution. They all got the same data, and no fail handler has
   run. The same with done and fail exchanged.
   */
  lemma HandlersRunOnce(steps: seq<Step>, w: Which)
    requires w != Progress
    ensures var c := After(steps);
            c.state == Won(w) ==>
              && CallsOf(c.log, w) <= c.Regs(w)
              && (|c.frames| == 0 ==> CallsOf(c.log, w) == c.Regs(w))
              && CallsOf(c.log, Other(w)) == []
  {
    if After(steps).state == Won(w) { AllRan(After(steps), w); }
  }

  lemma AllRan(c: Config, w: Which)
    requires Inv(c) && w != Progress && c.state == Won(w)
    ensures CallsOf(c.log, w) <= c.Regs(w) && (|c.frames| == 0 ==> CallsOf(c.log, w) == c.Regs(w))
    ensures CallsOf(c.log, Other(w)) == []
  {
    if x, v, k :| Settling(c, x, v, k) {
      assert x == w;
    } else {
      var x, v :| Settled(c, x, v);
      assert x == w;
      var todo :| Waits(c, w, todo);
      assert Linked(c, w);
      if |c.frames| == 0 { assert !HasFrame(c.frames, w); }
    }
  }

  /** List `w` won with the data `v`. */
  ghost predicate WonWith(c: Config, w: Which, v: Data) {
    FramesFit(c) && ((exists k :: Settling(c, w, v, k)) || Settled(c, w, v))
  }

  lemma StepKeepsWinner(c: Config, s: Step, w: Which, v: Data)
    requires WonWith(c, w, v)
    ensures WonWith(Next(c, s), w, v)
  {
    hide FramesFit, Settling, Settled, Next;
    if k :| Settling(c, w, v, k) { SettlingStep(c, s, w, v, k); } else { SettledStep(c, s, w, v); }
  }

  /**
   Whoever settles a pending deferred decides the outcome and the arguments of every handler of that outcome, in
   whatever way the run goes on.
   */
  lemma FirstSettlementDecides(before: seq<Step>, w: Which, d: Data, rest: seq<Step>)
    requires w != Progress
    ensures var c := After(before + [Fire(w, d)] + rest);
            After(before).state == Pending && After(before).UserTurn() ==>
              && WonWith(c, w, d)
              && DataIs(c.log, w, d) && CallsOf(c.log, Other(w)) == []
              && c.state in {Pending, Won(w)}
  {
    if After(before).state == Pending && After(before).UserTurn() {
      AfterSnoc(before, Fire(w, d));
      FirstFire(After(before), w, d);
      WinnerStays(before + [Fire(w, d)], w, d, rest);
      WinnerFacts(After(before + [Fire(w, d)] + rest), w, d);
    }
  }

  lemma FirstFire(c: Config, w: Which, d: Data)
    requires Inv(c) && c.state == Pending && c.UserTurn() && w != Progress
    ensures WonWith(Next(c, Fire(w, d)), w, d)
  {
    PendingFire(c, w, d);
    FireKeepsFrames(c, w, d);
    assert Settling(Next(c, Fire(w, d)), w, d, 0);
  }

  lemma {:induction false} WinnerStays(start: seq<Step>, w: Which, v: Data, rest: seq<Step>)
    requires WonWith(After(start), w, v)
    ensures WonWith(After(start + rest), w, v)
    decreases |rest|
  {
    if |rest| == 0 {
      assert start + rest == start;
    } else {
      var init, last := rest[..|rest| - 1], rest[|rest| - 1];
      WinnerStays(start, w, v, init);
      Peel(start, rest);
      AfterSnoc(start + init, last);
      StepKeepsWinner(After(start + init), last, w, v);
    }
  }

  lemma Peel(start: seq<Step>, rest: seq<Step>)
    requires |rest| > 0
    ensures start + rest == start + rest[..|rest| - 1] + [rest[|rest| - 1]]
  {
    assert rest == rest[..|rest| - 1] + [rest[|rest| - 1]];
  }

  lemma AfterSnoc(steps: seq<Step>, s: Step)
    ensures After(steps + [s]) == Next(After(steps), s)
  {
    assert (steps + [s])[..|steps|] == steps;
  }

  lemma WinnerFacts(c: Config, w: Which, v: Data)
    requires WonWith(c, w, v)
    ensures DataIs(c.log, w, v) && CallsOf(c.log, Other(w)) == [] && c.state in {Pending, Won(w)}
  {
    if k :| Settling(c, w, v, k) { NoCalls(c.log, w); }
  }

  // ---------------------------------------------------------------- what the next call may rely on

  /** The list that was fired first, and with what. */
  function Verdict(c: Config): Option<(Which, Data)> {
    if c.done.memory.Some? then Some((Done, c.done.memory.value))
    else if c.fail.memory.Some? then Some((Fail, c.fail.memory.value))
    else None
  }

  lemma VerdictMeans(c: Config)
    requires Inv(c)
    ensures match Verdict(c)
            case None => AllPending(c)
            case Some(p) => p.0 != Progress && WonWith(c, p.0, p.1)
  {
    if w, v, k :| Settling(c, w, v, k) {
    } else if w, v :| Settled(c, w, v) {
      assert Linked(c, Other(w));
    }
  }

  /** The data of a winning list and its name are the verdict. */
  lemma WinnerIsVerdict(c: Config, w: Which, v: Data)
    requires WonWith(c, w, v)
    ensures w != Progress && Verdict(c) == Some((w, v))
  {
    assert Linked(c, Other(w));
  }

  /** Only the first `resolve` or `reject` makes a verdict, and it stays. */
  lemma VerdictStays(c: Config, s: Step)
    requires Inv(c)
    ensures Verdict(Next(c, s)) == if Verdict(c).None? && s.Fire? && s.which != Progress && c.UserTurn()
                                   then Some((s.which, s.data)) else Verdict(c)
  {
    VerdictMeans(c);
    StepInv(c, s);
    match Verdict(c) {
      case Some(p) =>
        StepKeepsWinner(c, s, p.0, p.1);
        WinnerIsVerdict(Next(c, s), p.0, p.1);
      case None =>
        if s.Fire? && s.which != Progress && c.UserTurn() {
          FirstFire(c, s.which, s.data);
          WinnerIsVerdict(Next(c, s), s.which, s.data);
        } else {
          PendingStays(c, s);
        }
    }
  }

  lemma PendingStays(c: Config, s: Step)
    requires AllPending(c) && !(s.Fire? && s.which != Progress && c.UserTurn())
    ensures Verdict(Next(c, s)).None?
  {
    PendingStep(c, s);
  }

  /** With no walk under way the state is the verdict. */
  lemma VerdictAtRest(c: Config)
    requires Inv(c) && |c.frames| == 0
    ensures c.state == match Verdict(c) case None => Pending case Some(p) => Won(p.0)
  {
    VerdictMeans(c);
  }

  /** A step calls one handler at most, and registers what it says. */
  lemma StepShape(c: Config, s: Step)
    requires FramesFit(c)
    ensures s.Walk? || Next(c, s).log == c.log
    ensures var log := Next(c, s).log; log == c.log || (|log| > 0 && log == c.log + [log[|log| - 1]])
    ensures s.Register? && c.UserTurn() ==> Next(c, s) == DoRegister(c, s.which, s.ids)
    ensures !(s.Register? && c.UserTurn()) ==> forall w: Which :: Next(c, s).Regs(w) == c.Regs(w)
  {
    if s.Walk? && |c.frames| > 0 && !c.UserTurn() { WalkShape(c); }
  }

  lemma WalkShape(c: Config)
    requires FramesFit(c) && |c.frames| > 0
    ensures var r := DoWalk(c);
            && (forall w: Which :: r.Regs(w) == c.Regs(w))
            && (r.log == c.log || (|r.log| > 0 && r.log == c.log + [r.log[|r.log| - 1]]))
  {
    TopFrame(c);
  }

  lemma RegisterShape(c: Config, w: Which, ids: seq<nat>)
    ensures var r := DoRegister(c, w, ids);
            && r.log == c.log
            && forall v: Which :: r.Regs(v) == if v == w && w != Progress then c.Regs(v) + ids else c.Regs(v)
  {
  }

  /** A list that has been called is the winner's. */
  lemma CalledWon(c: Config, w: Which)
    requires Inv(c) && w != Progress && CallsOf(c.log, w) != []
    ensures c.state == Won(w)
  {
    if x, v :| Settled(c, x, v) { assert x == w || Other(x) == w; }
  }

  /** Who has been called, said by events. */
  lemma {:induction false} CalledHas(log: seq<Event>, w: Which, id: nat)
    ensures id in CallsOf(log, w) <==> exists d :: Event(w, id, d) in log
    decreases |log|
  {
    if |log| == 0 {
    } else {
      var before, last := log[..|log| - 1], log[|log| - 1];
      assert log == before + [last];
      CalledHas(before, w, id);
      if last.which == w && last.id == id { assert Event(w, id, last.data) in log; }
    }
  }
}
