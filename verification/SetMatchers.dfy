/**
 Set matchers: the parts of a selector that look at the whole array of candidates, such as `:first`. Each moves
 entries of the seed array to the result array; what it moves is picked by position, or by another selector as in
 `:not(:first)`, filtered before and after, and perhaps sent through a finder. An array of the source with `false`
 entries is a sequence of options here; the result array, which the source fills sparsely, is as long as the seed from
 the start.
 */
module SetMatchers {
  import opened Wrappers
  import opened DomTree

  type Filter = Node -> bool

  /** A finite number, known by the integer below it and whether it is that integer; or not a number. */
  datatype Number = NaN | Num(floor: int, whole: bool)

  datatype Position = First | Last | Even | Odd | Eq(arg: Number) | Lt(arg: Number) | Gt(arg: Number)

  /**
   The function that does the matching: a positional pseudo, the negation of a selector with set matchers among its
   groups, or one a user has marked, which picks positions in any way.
   */
  datatype Core =
    | Positional(pos: Position)
    | Not(elementMatchers: seq<Filter>, setMatchers: seq<SetMatcher>)
    | Marked(picks: seq<Option<Node>> -> set<nat>)

  /** The rest of the compound: a closure over one element, or a set matcher itself, as in `:even:first`. */
  datatype Post = Elem(passes: Filter) | Set(sm: SetMatcher)

  /** `setMatcher( preFilter, selector, matcher, postFilter, postFinder, postSelector )` */
  datatype SetMatcher = SetMatcher(
    pre: Option<Filter>,
    core: Core,
    post: Option<Post>,
    finder: Option<seq<Node> -> seq<Node>>)

  /** The two arrays a set matcher works on. */
  datatype Split = Split(unmatched: seq<Option<Node>>, matched: seq<Option<Node>>)
  {
    ghost predicate Valid() { |unmatched| == |matched| }
  }

  // ---------------------------------------------------------------- positions

  function Offset(arg: Number, len: nat): Number {
    if arg.Num? && arg.floor < 0 then Num(arg.floor + len, arg.whole) else arg
  }

  /** The indexes a positional pseudo picks in an array of length `len`. Counting from a fraction meets no index. */
  predicate Picks(pos: Position, len: nat, j: int) {
    0 <= j < len &&
    match pos
    case First => j == 0
    case Last => j == len - 1
    case Even => j % 2 == 0
    case Odd => j % 2 == 1
    case Eq(a) => Offset(a, len) == Num(j, true)
    case Lt(a) => var top := Offset(a, len); top.Num? && top.whole && j < top.floor
    case Gt(a) => var bottom := Offset(a, len); bottom.Num? && bottom.whole && j > bottom.floor
  }

  predicate Passes(f: Option<Filter>, n: Node) { f.Some? ==> f.value(n) }

  /** The entries at `sel` go from `unmatched` to `matched`, each at its own index. */
  function Move(s: Split, sel: set<nat>): (r: Split)
    requires s.Valid()
    ensures r.Valid() && |r.unmatched| == |s.unmatched|
  {
    Split(
      seq(|s.unmatched|, i requires 0 <= i < |s.unmatched| => if i in sel then None else s.unmatched[i]),
      seq(|s.matched|, i requires 0 <= i < |s.matched| && |s.unmatched| == |s.matched| =>
        if i in sel && s.unmatched[i].Some? then s.unmatched[i] else s.matched[i]))
  }

  /** The way back. */
  function MoveBack(s: Split, sel: set<nat>): (r: Split)
    requires s.Valid()
    ensures r.Valid() && |r.unmatched| == |s.unmatched|
  {
    var r := Move(Split(s.matched, s.unmatched), sel);
    Split(r.matched, r.unmatched)
  }

  /** What `superMatcher` relies on: entries only move from `unmatched` to `matched`, at the same index. */
  ghost predicate OnlyMoves(s: Split, t: Split) {
    && s.Valid() && t.Valid() && |s.unmatched| == |t.unmatched|
    && forall i :: 0 <= i < |s.unmatched| ==>
         || (t.unmatched[i] == s.unmatched[i] && t.matched[i] == s.matched[i])
         || (s.unmatched[i].Some? && t.unmatched[i] == None && t.matched[i] == s.unmatched[i])
  }

  /** The positions below `n` whose entry is present and passes the filter. */
  function Positions(a: seq<Option<Node>>, f: Option<Filter>, n: nat): (r: seq<nat>)
    requires n <= |a|
    ensures |r| <= n
    ensures forall k :: 0 <= k < |r| ==> r[k] < n && a[r[k]].Some? && Passes(f, a[r[k]].value)
  {
    if n == 0 then []
    else Positions(a, f, n - 1) + if a[n - 1].Some? && Passes(f, a[n - 1].value) then [n - 1] else []
  }

  function Nones(n: nat): (r: seq<Option<Node>>)
    ensures |r| == n && forall i :: 0 <= i < n ==> r[i] == None
  {
    seq(n, _ => None)
  }

  /** The entries that are there, in order. */
  function Present(a: seq<Option<Node>>): seq<Node> {
    if |a| == 0 then [] else Present(a[..|a| - 1]) + if a[|a| - 1].Some? then [a[|a| - 1].value] else []
  }

  lemma PresentSnoc(a: seq<Option<Node>>, x: Option<Node>)
    ensures Present(a + [x]) == Present(a) + if x.Some? then [x.value] else []
  {
    assert (a + [x])[..|a|] == a;
  }

  function Pick(a: seq<Option<Node>>, at: seq<nat>): (r: seq<Option<Node>>)
    requires forall k :: 0 <= k < |at| ==> at[k] < |a|
    ensures |r| == |at| && forall k :: 0 <= k < |at| ==> r[k] == a[at[k]]
  {
    seq(|at|, k requires 0 <= k < |at| && at[k] < |a| => a[at[k]])
  }

  predicate ByElement(ms: seq<Filter>, n: Node) {
    exists j :: 0 <= j < |ms| && ms[j](n)
  }

  /** The entries the element matchers leave. */
  function Rest(ms: seq<Filter>, a: seq<Option<Node>>): (r: seq<Option<Node>>)
    ensures |r| == |a|
  {
    seq(|a|, i requires 0 <= i < |a| => if a[i].Some? && ByElement(ms, a[i].value) then None else a[i])
  }

  function Backwards(a: seq<Option<Node>>): seq<Node> {
    if |a| == 0 then [] else Backwards(a[1..]) + if a[0].Some? then [a[0].value] else []
  }

  // ---------------------------------------------------------------- what a set matcher does

  /** The positions the matching function picks in the array `a`. */
  function CorePicks(core: Core, a: seq<Option<Node>>): (r: set<nat>)
    decreases core
  {
    match core
    case Positional(pos) => set j | 0 <= j < |a| && Picks(pos, |a|, j)
    case Not(ems, sms) =>
      var left := Left(sms, Rest(ems, a));
      set j | 0 <= j < |left| && left[j].Some?
    case Marked(picks) => set j | j in picks(a) && j < |a|
  }

  /** What the set matchers leave; they are not asked when nothing is left already. */
  function Left(sms: seq<SetMatcher>, a: seq<Option<Node>>): seq<Option<Node>>
    decreases sms, 1
  {
    if forall i :: 0 <= i < |a| ==> a[i] == None then a else ApplyAll(sms, Split(a, Nones(|a|))).unmatched
  }

  /** The set matchers run one after the other on the same two arrays. */
  function ApplyAll(sms: seq<SetMatcher>, s: Split): (t: Split)
    requires s.Valid()
    ensures t.Valid() && |t.unmatched| == |s.unmatched|
    decreases sms, 0
  {
    if |sms| == 0 then s else Apply(sms[|sms| - 1], ApplyAll(sms[..|sms| - 1], s))
  }

  /** Which entries of the condensed matches the post filter leaves standing, that is, does not let pass. */
  function Standing(post: Post, temp: seq<Option<Node>>): (r: seq<Option<Node>>)
    ensures |r| == |temp|
    decreases post
  {
    match post
    case Elem(f) =>
      seq(|temp|, k requires 0 <= k < |temp| => if temp[k].Some? && f(temp[k].value) then None else temp[k])
    case Set(sm) => Apply(sm, Split(temp, Nones(|temp|))).unmatched
  }

  /** The positions of `a` whose entries the post filter does not let pass. */
  function Failing(a: seq<Option<Node>>, post: Option<Post>): set<nat>
    decreases post
  {
    if post.None? then {}
    else
      var at := Positions(a, None, |a|);
      var left := Standing(post.value, Pick(a, at));
      set k | 0 <= k < |at| && left[k].Some? :: at[k]
  }

  /** Match, and move back what fails. */
  function Filtered(sm: SetMatcher, s: Split): (t: Split)
    requires s.Valid()
    ensures t.Valid() && |t.unmatched| == |s.unmatched|
    decreases sm, 0
  {
    var moved := Move(s, CorePicks(sm.core, s.unmatched));
    MoveBack(moved, Failing(moved.matched, sm.post))
  }

  /** The positions of the matcher's input in the seed. */
  function InputAt(sm: SetMatcher, u: seq<Option<Node>>): (r: seq<nat>)
    ensures forall k :: 0 <= k < |r| ==> r[k] < |u|
  {
    if sm.pre.None? then seq(|u|, k requires 0 <= k < |u| => k) else Positions(u, sm.pre, |u|)
  }

  /** The intermediate output: what is matched and passes, in an array of the length of the input. */
  function InnerMatches(sm: SetMatcher, u: seq<Option<Node>>): (r: seq<Option<Node>>)
    ensures |r| == |InputAt(sm, u)|
    decreases sm, 1
  {
    var a := Pick(u, InputAt(sm, u));
    Filtered(sm, Split(a, Nones(|a|))).matched
  }

  /** What a set matcher makes of a seed, `s.unmatched`, and of the shared result array, `s.matched`. */
  function Apply(sm: SetMatcher, s: Split): (t: Split)
    requires s.Valid()
    ensures t.Valid() && |t.unmatched| == |s.unmatched|
    decreases sm, 2
  {
    if sm.finder.Some? then Fetched(s, sm.finder.value(Backwards(InnerMatches(sm, s.unmatched))))
    else if sm.pre.Some? then
      var at, inner := InputAt(sm, s.unmatched), InnerMatches(sm, s.unmatched);
      Move(s, set k | 0 <= k < |at| && inner[k].Some? :: at[k])
    else Filtered(sm, s)
  }

  /** Every found element that is still in the seed moves, the last one first, each from its first position. */
  function Fetched(s: Split, found: seq<Node>): (t: Split)
    requires s.Valid()
    ensures t.Valid() && |t.unmatched| == |s.unmatched|
    decreases |found|
  {
    if |found| == 0 then s
    else
      var t := Fetched(s, found[1..]);
      if Some(found[0]) in t.unmatched then Move(t, {IndexIn(t.unmatched, found[0])}) else t
  }

  function IndexIn(a: seq<Option<Node>>, n: Node): (i: nat)
    requires Some(n) in a
    ensures i < |a| && a[i] == Some(n) && Some(n) !in a[..i]
  {
    if a[0] == Some(n) then 0
    else
      var i := IndexIn(a[1..], n);
      assert a[..i + 1] == [a[0]] + a[1..][..i];
      i + 1
  }

  // ---------------------------------------------------------------- positional pseudos

  method MatchIndexes(pos: Position, length: nat) returns (ixs: seq<Number>)
    ensures forall j :: 0 <= j < length ==> (Num(j, true) in ixs <==> Picks(pos, length, j))
  {
    ixs := [];
    match pos
    case First => ixs := [Num(0, true)];
    case Last => ixs := [Num(length - 1, true)];
    case Eq(a) => ixs := [Offset(a, length)];
    case Even => ixs := EverySecond(0, length);
    case Odd => ixs := EverySecond(1, length);
    case Lt(a) => ixs := Below(Offset(a, length));
    case Gt(a) => ixs := Above(Offset(a, length), length);
  }

  /** `for ( ; i < length; i += 2 )` */
  method EverySecond(from: nat, length: nat) returns (ixs: seq<Number>)
    requires from <= 1
    ensures forall j :: Num(j, true) in ixs <==> 0 <= j < length && j % 2 == from
  {
    ixs := [];
    var i := from;
    while i < length
      invariant i % 2 == from
      invariant forall j :: Num(j, true) in ixs <==> 0 <= j < length && j < i && j % 2 == from
    {
      ixs := ixs + [Num(i, true)];
      i := i + 2;
    }
  }

  /** `for ( ; --i >= 0; )`; a number one less is below the same integer less one. */
  method Below(top: Number) returns (ixs: seq<Number>)
    ensures forall j :: 0 <= j ==> (Num(j, true) in ixs <==> top.Num? && top.whole && j < top.floor)
  {
    ixs := [];
    if top.NaN? { return; }
    var i := top.floor;
    while i - 1 >= 0
      invariant i <= top.floor && (i < top.floor ==> i >= 0)
      invariant forall j :: Num(j, true) in ixs <==> top.whole && i <= j < top.floor
    {
      i := i - 1;
      ixs := ixs + [Num(i, top.whole)];
    }
  }

  /** `for ( ; ++i < length; )` */
  method Above(bottom: Number, length: nat) returns (ixs: seq<Number>)
    ensures forall j :: 0 <= j < length ==> (Num(j, true) in ixs <==> bottom.Num? && bottom.whole && j > bottom.floor)
  {
    ixs := [];
    if bottom.NaN? { return; }
    var i := bottom.floor;
    while i + 1 < length
      invariant i >= bottom.floor && (i > bottom.floor ==> i < length)
      invariant forall j :: Num(j, true) in ixs <==> bottom.whole && bottom.floor < j <= i
    {
      i := i + 1;
      ixs := ixs + [Num(i, bottom.whole)];
    }
  }

  // ---------------------------------------------------------------- infinite arguments

  /** `+argument`: `:lt(Infinity)` and `:gt(-Infinity)` are accepted too. */
  datatype Argument = Finite(x: Number) | Infinite(negative: bool)

  /** The counter of the loop of `:lt` or `:gt` at its `n`-th test. */
  function Counter(lt: bool, arg: Argument, len: nat, n: nat): Argument {
    match arg
    case Finite(x) =>
      var start := Offset(x, len);
      Finite(if start.NaN? then NaN else Num(if lt then start.floor - n else start.floor + n, start.whole))
    case Infinite(_) => arg
  }

  /** `--i >= 0` or `++i < length`, when the counter is `i`. Comparisons with NaN fail. */
  predicate GoesOn(lt: bool, i: Argument, len: nat) {
    match i
    case Finite(NaN) => false
    case Finite(Num(floor, _)) => if lt then floor >= 0 else floor < len
    case Infinite(negative) => negative != lt
  }

  ghost predicate Ends(lt: bool, arg: Argument, len: nat) {
    exists n: nat :: n > 0 && !GoesOn(lt, Counter(lt, arg, len, n), len)
  }

  /**
   The loop of `:lt` ends unless the argument is plus infinity, and that of `:gt` unless it is minus infinity; with the
   other infinity it ends at its first test.
   */
  lemma EndsExactly(lt: bool, arg: Argument, len: nat)
    ensures Ends(lt, arg, len) <==> arg != Infinite(!lt)
    ensures arg == Infinite(lt) ==> !GoesOn(lt, Counter(lt, arg, len, 1), len)
  {
    if arg.Finite? && arg.x.Num? {
      var f := Offset(arg.x, len).floor;
      var n := if lt then (if f < 0 then 1 else f + 1) else (if f < len then len - f else 1);
      assert !GoesOn(lt, Counter(lt, arg, len, n), len);
    } else {
      assert arg != Infinite(!lt) ==> !GoesOn(lt, Counter(lt, arg, len, 1), len);
    }
  }

  /** The function a positional pseudo returns. An index outside the array, or a fraction, finds nothing. */
  method MatchPosition(pos: Position, s: Split) returns (t: Split)
    requires s.Valid()
    ensures t == Move(s, set j | 0 <= j < |s.unmatched| && Picks(pos, |s.unmatched|, j))
  {
    var ixs := MatchIndexes(pos, |s.unmatched|);
    t := s;
    var i := |ixs|;
    while i > 0
      invariant 0 <= i <= |ixs| && t.Valid() && |t.unmatched| == |s.unmatched|
      invariant forall j :: 0 <= j < |s.unmatched| ==> if Num(j, true) in ixs[i..] then Gone(s, t, j)
                else Still(s, t, j)
    {
      i := i - 1;
      assert ixs[i..] == [ixs[i]] + ixs[i + 1..];
      if ixs[i].Num? && ixs[i].whole && 0 <= ixs[i].floor < |t.unmatched| && t.unmatched[ixs[i].floor].Some? {
        var j := ixs[i].floor;
        t := Split(t.unmatched[j := None], t.matched[j := t.unmatched[j]]);
      }
    }
    assert ixs[0..] == ixs;
    MovedForward(s, (set j: nat | 0 <= j < |s.unmatched| && Picks(pos, |s.unmatched|, j)), t);
  }

  /** The entry at `j` has moved. */
  ghost predicate Gone(s: Split, t: Split, j: int)
    requires s.Valid() && t.Valid() && |t.unmatched| == |s.unmatched| && 0 <= j < |s.unmatched|
  {
    if s.unmatched[j].Some? then t.unmatched[j] == None && t.matched[j] == s.unmatched[j] else Still(s, t, j)
  }

  /** Position `j` is as it was. */
  ghost predicate Still(s: Split, t: Split, j: int)
    requires s.Valid() && t.Valid() && |t.unmatched| == |s.unmatched| && 0 <= j < |s.unmatched|
  {
    t.unmatched[j] == s.unmatched[j] && t.matched[j] == s.matched[j]
  }

  lemma MovedForward(s: Split, sel: set<nat>, t: Split)
    requires s.Valid() && t.Valid() && |t.matched| == |s.matched|
    requires forall j :: 0 <= j < |s.matched| ==> if j in sel then Gone(s, t, j) else Still(s, t, j)
    ensures t == Move(s, sel)
  {
    var r := Move(s, sel);
    assert t.matched == r.matched;
    assert t.unmatched == r.unmatched;
  }

  // ---------------------------------------------------------------- the steps of a set matcher

  method Condense(a: seq<Option<Node>>, f: Option<Filter>) returns (out: seq<Option<Node>>, at: seq<nat>)
    ensures at == Positions(a, f, |a|) && |out| == |at|
    ensures forall k :: 0 <= k < |at| ==> out[k] == a[at[k]]
  {
    out, at := [], [];
    for i := 0 to |a|
      invariant at == Positions(a, f, i) && |out| == |at|
      invariant forall k :: 0 <= k < |at| ==> out[k] == a[at[k]]
    {
      if a[i].Some? && Passes(f, a[i].value) {
        out, at := out + [a[i]], at + [i];
      }
    }
  }

  ghost predicate Increasing(r: seq<nat>) {
    forall k, l :: 0 <= k < l < |r| ==> r[k] < r[l]
  }

  lemma {:induction false} PositionsIncrease(a: seq<Option<Node>>, f: Option<Filter>, n: nat)
    requires n <= |a|
    ensures Increasing(Positions(a, f, n))
    decreases n
  {
    if n == 0 {
    } else {
      PositionsIncrease(a, f, n - 1);
    }
  }

  lemma {:induction false} PositionsComplete(a: seq<Option<Node>>, f: Option<Filter>, n: nat, k: nat)
    requires n <= |a| && k < n
    ensures k in Positions(a, f, n) <==> a[k].Some? && Passes(f, a[k].value)
    decreases n
  {
    if k < n - 1 { PositionsComplete(a, f, n - 1, k); }
  }

  /** A set matcher never unmatches into another position: seen from an empty start, entries only move. */
  lemma FilteredStays(start: Split, sm: SetMatcher, s: Split)
    requires start.Valid() && NothingMatched(start) && OnlyMoves(start, s)
    ensures OnlyMoves(start, Filtered(sm, s))
  {
    var moved := Move(s, CorePicks(sm.core, s.unmatched));
    assert OnlyMoves(s, moved);
    MovesTransitive(start, s, moved);
  }

  lemma {:induction false} FetchedMoves(s: Split, found: seq<Node>)
    requires s.Valid()
    ensures OnlyMoves(s, Fetched(s, found))
    decreases |found|
  {
    if |found| == 0 {
    } else {
      var t := Fetched(s, found[1..]);
      FetchedMoves(s, found[1..]);
      assert OnlyMoves(t, Fetched(s, found));
      MovesTransitive(s, t, Fetched(s, found));
    }
  }

  /** The entry `n` of the seed has moved, from position `i`. */
  ghost predicate Fetches(s: Split, t: Split, i: nat, n: Node) {
    && i < |s.unmatched| && i < |t.unmatched| && i < |t.matched|
    && s.unmatched[i] == Some(n) && t.unmatched[i] == None && t.matched[i] == Some(n)
  }

  lemma {:induction false} OnlyFoundMove(s: Split, found: seq<Node>, i: nat)
    requires s.Valid() && i < |s.unmatched| && Fetched(s, found).unmatched[i] != s.unmatched[i]
    ensures s.unmatched[i].Some? && s.unmatched[i].value in found
    decreases |found|
  {
    if |found| == 0 {
    } else {
      FetchedMoves(s, found[1..]);
      var before := Fetched(s, found[1..]);
      if before.unmatched[i] != s.unmatched[i] {
        OnlyFoundMove(s, found[1..], i);
      } else {
        assert i == IndexIn(before.unmatched, found[0]) && before.unmatched[i] == Some(found[0]);
      }
    }
  }

  lemma {:induction false} FoundMoves(s: Split, found: seq<Node>, n: Node)
    requires s.Valid() && n in found && Some(n) in s.unmatched
    ensures Taken(s, Fetched(s, found), n)
    decreases |found|
  {
    var before, t := Fetched(s, found[1..]), Fetched(s, found);
    FetchedMoves(s, found[1..]);
    if n in found[1..] {
      FoundMoves(s, found[1..], n);
      var i :| Fetches(s, before, i, n);
      assert Fetches(s, t, i, n);
    } else {
      var k :| 0 <= k < |s.unmatched| && s.unmatched[k] == Some(n);
      if before.unmatched[k] != Some(n) { OnlyFoundMove(s, found[1..], k); }
      assert Fetches(s, t, IndexIn(before.unmatched, n), n);
    }
  }

  ghost predicate Taken(s: Split, t: Split, n: Node) { exists i :: Fetches(s, t, i, n) }

  /** Only found elements move, and every found element of the seed moves from somewhere. */
  lemma FetchedExactly(s: Split, found: seq<Node>)
    requires s.Valid()
    ensures forall i :: 0 <= i < |s.unmatched| && Fetched(s, found).unmatched[i] != s.unmatched[i] ==>
                          s.unmatched[i].Some? && s.unmatched[i].value in found
    ensures forall n :: n in found && Some(n) in s.unmatched ==> Taken(s, Fetched(s, found), n)
  {
    forall i | 0 <= i < |s.unmatched| && Fetched(s, found).unmatched[i] != s.unmatched[i]
      ensures s.unmatched[i].Some? && s.unmatched[i].value in found
    {
      OnlyFoundMove(s, found, i);
    }
    forall n | n in found && Some(n) in s.unmatched ensures Taken(s, Fetched(s, found), n) {
      FoundMoves(s, found, n);
    }
  }

  lemma ApplyStays(start: Split, sm: SetMatcher, s: Split)
    requires start.Valid() && NothingMatched(start) && OnlyMoves(start, s)
    ensures OnlyMoves(start, Apply(sm, s))
  {
    if sm.finder.Some? {
      FetchedMoves(s, sm.finder.value(Backwards(InnerMatches(sm, s.unmatched))));
      MovesTransitive(start, s, Apply(sm, s));
    } else if sm.pre.Some? {
      assert OnlyMoves(s, Apply(sm, s));
      MovesTransitive(start, s, Apply(sm, s));
    } else {
      FilteredStays(start, sm, s);
    }
  }

  lemma MovesTransitive(s: Split, t: Split, u: Split)
    requires OnlyMoves(s, t) && OnlyMoves(t, u)
    ensures OnlyMoves(s, u)
  {
    forall i | 0 <= i < |s.unmatched|
      ensures || (u.unmatched[i] == s.unmatched[i] && u.matched[i] == s.matched[i])
              || (s.unmatched[i].Some? && u.unmatched[i] == None && u.matched[i] == s.unmatched[i])
    {
      assert t.unmatched[i] == s.unmatched[i] || t.unmatched[i] == None;
    }
  }

  ghost predicate NothingMatched(s: Split) { forall i :: 0 <= i < |s.matched| ==> s.matched[i] == None }

  /** What the post filter leaves standing are entries of its input. */
  lemma StandingIsInput(post: Post, temp: seq<Option<Node>>)
    ensures forall k :: 0 <= k < |temp| && Standing(post, temp)[k].Some? ==> Standing(post, temp)[k] == temp[k]
  {
    if post.Set? {
      var s := Split(temp, Nones(|temp|));
      assert OnlyMoves(s, s);
      ApplyStays(s, post.sm, s);
    }
  }

  /** `to[ at[i] ] = !( from[ at[i] ] = vals[i] )` for every entry of `vals` that is there, from the last one. */
  method Transfer(s: Split, at: seq<nat>, vals: seq<Option<Node>>) returns (t: Split)
    requires s.Valid() && |vals| == |at| && Increasing(at)
    requires forall k :: 0 <= k < |at| ==> at[k] < |s.unmatched|
    requires forall k :: 0 <= k < |at| && vals[k].Some? ==> vals[k] == s.unmatched[at[k]]
    ensures t == Move(s, set k | 0 <= k < |at| && vals[k].Some? :: at[k])
  {
    t := s;
    var i := |at|;
    while i > 0
      invariant 0 <= i <= |at| && t.Valid() && |t.unmatched| == |s.unmatched|
      invariant forall k :: 0 <= k < |at| ==> if i <= k && vals[k].Some? then Gone(s, t, at[k]) else Still(s, t, at[k])
      invariant forall j :: 0 <= j < |s.unmatched| && j !in at ==> Still(s, t, j)
    {
      i := i - 1;
      if vals[i].Some? {
        t := Split(t.unmatched[at[i] := None], t.matched[at[i] := vals[i]]);
      }
    }
    var sel := set k | 0 <= k < |at| && vals[k].Some? :: at[k];
    forall j | 0 <= j < |s.matched| ensures if j in sel then Gone(s, t, j) else Still(s, t, j) {
      if j in at {
        var k :| 0 <= k < |at| && at[k] == j;
        assert j in sel <==> vals[k].Some?;
      }
    }
    MovedForward(s, sel, t);
  }

  /** The post filter moves the entries of `matched` that do not pass back. */
  method PostFilter(s: Split, post: Option<Post>) returns (t: Split)
    requires s.Valid()
    ensures t == MoveBack(s, Failing(s.matched, post))
    decreases post, 1
  {
    if post.None? {
      assert MoveBack(s, {}) == s by {
        assert MoveBack(s, {}).matched == s.matched && MoveBack(s, {}).unmatched == s.unmatched;
      }
      return s;
    }
    var temp, at := Condense(s.matched, None);
    assert temp == Pick(s.matched, at);
    var rest := CrossOut(temp, post.value);
    PositionsIncrease(s.matched, None, |s.matched|);
    StandingIsInput(post.value, temp);
    var back := Transfer(Split(s.matched, s.unmatched), at, rest);
    t := Split(back.matched, back.unmatched);
  }

  /** `postFilter( temp, [], context, xml )`: what passes is crossed out. */
  method CrossOut(temp: seq<Option<Node>>, post: Post) returns (r: seq<Option<Node>>)
    ensures r == Standing(post, temp)
    decreases post, 0
  {
    match post
    case Elem(f) =>
      // `setMatcher( postFilter )`: condense what passes, and move it
      var out, at := Condense(temp, Some(f));
      PositionsIncrease(temp, Some(f), |temp|);
      var t := Transfer(Split(temp, Nones(|temp|)), at, out);
      r := t.unmatched;
      forall k | 0 <= k < |temp| ensures k in at <==> temp[k].Some? && f(temp[k].value) {
        PositionsComplete(temp, Some(f), |temp|, k);
      }
      assert forall k :: 0 <= k < |at| ==> out[k].Some?;
      assert r == Standing(post, temp);
    case Set(sm) =>
      var t := RunSet(sm, Split(temp, Nones(|temp|)));
      r := t.unmatched;
  }

  /** `matcher( matcherIn, matcherOut, context, xml )` */
  method MatchCore(core: Core, s: Split) returns (t: Split)
    requires s.Valid()
    ensures t == Move(s, CorePicks(core, s.unmatched))
    decreases core
  {
    match core
    case Positional(pos) => t := MatchPosition(pos, s);
    case Marked(picks) => t := Move(s, set j | j in picks(s.unmatched) && j < |s.unmatched|);
    case Not(ems, sms) =>
      var unmatched := RunLeft(ems, sms, s.unmatched);
      assert unmatched == Left(sms, Rest(ems, s.unmatched));
      LeftIsInput(ems, sms, s.unmatched);
      t := s;
      var i := |s.unmatched|;
      while i > 0
        invariant 0 <= i <= |s.unmatched| && t.Valid() && |t.unmatched| == |s.unmatched|
        invariant forall j :: 0 <= j < |s.unmatched| ==>
                    && t.unmatched[j] == (if i <= j && unmatched[j].Some? then None else s.unmatched[j])
                    && t.matched[j] == (if i <= j && unmatched[j].Some? then unmatched[j] else s.matched[j])
      {
        i := i - 1;
        if unmatched[i].Some? {
          t := Split(t.unmatched[i := None], t.matched[i := unmatched[i]]);
        }
      }
      MovedForward(s, CorePicks(core, s.unmatched), t);
  }

  /** Seen from an empty start, a whole series of set matchers only moves entries. */
  lemma {:induction false} AllStay(start: Split, sms: seq<SetMatcher>, s: Split)
    requires start.Valid() && NothingMatched(start) && OnlyMoves(start, s)
    ensures OnlyMoves(start, ApplyAll(sms, s))
    decreases |sms|
  {
    if |sms| == 0 {
    } else {
      AllStay(start, sms[..|sms| - 1], s);
      ApplyStays(start, sms[|sms| - 1], ApplyAll(sms[..|sms| - 1], s));
    }
  }

  /** What is left are entries of the input, each at its place. */
  lemma LeftIsInput(ems: seq<Filter>, sms: seq<SetMatcher>, a: seq<Option<Node>>)
    ensures var left := Left(sms, Rest(ems, a));
            |left| == |a| && forall j :: 0 <= j < |a| && left[j].Some? ==> left[j] == a[j]
  {
    var s := Split(Rest(ems, a), Nones(|a|));
    assert OnlyMoves(s, s);
    AllStay(s, sms, s);
  }

  /**
   What `superMatcher` returns when `:not` calls it on an array with `false` entries: the entries that no element
   matcher accepts and no set matcher moves. The results it collects on the way are discarded there.
   */
  method RunLeft(ems: seq<Filter>, sms: seq<SetMatcher>, a: seq<Option<Node>>) returns (unmatched: seq<Option<Node>>)
    ensures unmatched == Left(sms, Rest(ems, a))
    decreases sms, 1
  {
    unmatched := [];
    var some := false;
    for i := 0 to |a|
      invariant |unmatched| == i && forall j :: 0 <= j < i ==> unmatched[j] == Rest(ems, a)[j]
      invariant if some then exists j :: 0 <= j < i && unmatched[j].Some?
                else forall j :: 0 <= j < i ==> unmatched[j] == None
    {
      var hit := false;
      if a[i].Some? { hit := AnyMatcher(ems, a[i].value); }
      unmatched := unmatched + [if hit then None else a[i]];
      if !hit && a[i].Some? {
        some := true;
        assert unmatched[i].Some?;
      }
    }
    assert unmatched == Rest(ems, a);
    if some {
      var t := RunAll(sms, Split(unmatched, Nones(|a|)));
      unmatched := t.unmatched;
    }
  }

  method AnyMatcher(ms: seq<Filter>, n: Node) returns (hit: bool)
    ensures hit <==> ByElement(ms, n)
  {
    for j := 0 to |ms|
      invariant forall k :: 0 <= k < j ==> !ms[k](n)
    {
      if ms[j](n) { return true; }
    }
    return false;
  }

  /** `while ( (matcher = setMatchers[j++]) )` */
  method RunAll(sms: seq<SetMatcher>, s: Split) returns (t: Split)
    requires s.Valid()
    ensures t == ApplyAll(sms, s)
    decreases sms, 0
  {
    t := s;
    for j := 0 to |sms|
      invariant t.Valid() && t == ApplyAll(sms[..j], s)
    {
      assert sms[..j + 1][..j] == sms[..j];
      t := RunSet(sms[j], t);
    }
    assert sms[..|sms|] == sms;
  }

  method RunFiltered(sm: SetMatcher, s: Split) returns (t: Split)
    requires s.Valid()
    ensures t == Filtered(sm, s)
    decreases sm, 0
  {
    t := MatchCore(sm.core, s);
    t := PostFilter(t, sm.post);
  }

  /** The function `setMatcher` returns, called with a seed. */
  method RunSet(sm: SetMatcher, s: Split) returns (t: Split)
    requires s.Valid()
    ensures t == Apply(sm, s)
    decreases sm, 2
  {
    if sm.finder.None? && sm.pre.None? {
      t := RunFiltered(sm, s);
    } else {
      var preMap, matcherOut := RunInner(sm, s.unmatched);
      if sm.finder.Some? {
        var temp := Contexts(matcherOut);
        t := Fetch(s, sm.finder.value(temp));
      } else {
        PositionsIncrease(s.unmatched, sm.pre, |s.unmatched|);
        t := Transfer(s, preMap, matcherOut);
      }
    }
  }

  /** Everything up to the point where the intermediate output has been post-filtered. */
  method RunInner(sm: SetMatcher, u: seq<Option<Node>>) returns (preMap: seq<nat>, matcherOut: seq<Option<Node>>)
    ensures preMap == InputAt(sm, u) && matcherOut == InnerMatches(sm, u)
    ensures forall k :: 0 <= k < |preMap| && matcherOut[k].Some? ==> matcherOut[k] == u[preMap[k]]
    decreases sm, 1
  {
    var matcherIn;
    matcherIn, preMap := Condense(u, sm.pre);
    if sm.pre.None? { matcherIn, preMap := u, seq(|u|, k requires 0 <= k < |u| => k); }
    assert matcherIn == Pick(u, preMap);
    var start := Split(matcherIn, Nones(|matcherIn|));
    var inner := RunFiltered(sm, start);
    assert OnlyMoves(start, start);
    FilteredStays(start, sm, start);
    matcherOut := inner.matched;
  }

  /** The contexts of the post finder, from the last match to the first. */
  method Contexts(matcherOut: seq<Option<Node>>) returns (temp: seq<Node>)
    ensures temp == Backwards(matcherOut)
  {
    temp := [];
    var i := |matcherOut|;
    while i > 0
      invariant 0 <= i <= |matcherOut| && temp == Backwards(matcherOut[i..])
    {
      i := i - 1;
      assert matcherOut[i..][1..] == matcherOut[i + 1..];
      if matcherOut[i].Some? { temp := temp + [matcherOut[i].value]; }
    }
    assert matcherOut[0..] == matcherOut;
  }

  /** With a post finder: the seed is restored, and what the finder finds is looked up in it. */
  method Fetch(s: Split, found: seq<Node>) returns (t: Split)
    requires s.Valid()
    ensures t == Fetched(s, found)
  {
    t := s;
    var i := |found|;
    while i > 0
      invariant 0 <= i <= |found| && t.Valid() && t == Fetched(s, found[i..])
    {
      i := i - 1;
      assert found[i..][1..] == found[i + 1..] && found[i..][0] == found[i];
      if Some(found[i]) in t.unmatched {
        var at := IndexIn(t.unmatched, found[i]);
        ghost var before := t;
        t := Split(t.unmatched[at := None], t.matched[at := Some(found[i])]);
        MovedForward(before, {at}, t);
      }
    }
    assert found[0..] == found;
  }

  // ---------------------------------------------------------------- the contract of set matchers

  /** No position holds an unmatched and a matched entry at once. */
  ghost predicate Disjoint(s: Split)
    requires s.Valid()
  {
    forall i :: 0 <= i < |s.unmatched| ==> s.unmatched[i] == None || s.matched[i] == None
  }

  /** A set matcher that cannot unmatch what others matched. */
  predicate Safe(sm: SetMatcher) { sm.finder.Some? || sm.pre.Some? || sm.post.None? }

  lemma SafeKeepsContract(sm: SetMatcher, s: Split)
    requires s.Valid() && Safe(sm)
    ensures OnlyMoves(s, Apply(sm, s))
  {
    if sm.finder.Some? {
      FetchedMoves(s, sm.finder.value(Backwards(InnerMatches(sm, s.unmatched))));
    } else if sm.pre.None? {
      var moved := Move(s, CorePicks(sm.core, s.unmatched));
      assert MoveBack(moved, {}).matched == moved.matched && MoveBack(moved, {}).unmatched == moved.unmatched;
      DirectApply(sm, s);
      assert Failing(moved.matched, sm.post) == {} && Apply(sm, s) == moved;
    }
  }

  /** The positions that are matched when the post filter of `sm` has its turn, and do not pass it. */
  function Rejected(sm: SetMatcher, s: Split): set<nat>
    requires s.Valid()
  {
    Failing(Move(s, CorePicks(sm.core, s.unmatched)).matched, sm.post)
  }

  /**
   A set matcher that begins with its matching function and has a post filter, such as `:first.foo` or `:even:first`,
   filters the shared result array. It keeps the contract exactly when its post filter lets everything pass that was
   matched before.
   */
  lemma ContractExactly(sm: SetMatcher, s: Split)
    requires s.Valid() && Disjoint(s) && sm.finder.None? && sm.pre.None?
    ensures OnlyMoves(s, Apply(sm, s)) <==>
            forall i :: 0 <= i < |s.matched| && s.matched[i].Some? ==> i !in Rejected(sm, s)
  {
    var moved, t := Move(s, CorePicks(sm.core, s.unmatched)), Apply(sm, s);
    if i :| 0 <= i < |s.matched| && s.matched[i].Some? && i in Rejected(sm, s) {
      assert moved.matched[i] == s.matched[i];
      assert t.matched[i] == None && t.unmatched[i] == s.matched[i];
    }
  }

  /** A post filter over one element rejects the entries it does not hold of. */
  lemma ElementPost(a: seq<Option<Node>>, f: Filter, i: nat)
    requires i < |a|
    ensures i in Failing(a, Some(Elem(f))) <==> a[i].Some? && !f(a[i].value)
  {
    var at := Positions(a, None, |a|);
    PositionsComplete(a, None, |a|, i);
    PositionsIncrease(a, None, |a|);
    var left := Standing(Elem(f), Pick(a, at));
    if a[i].Some? {
      var k :| 0 <= k < |at| && at[k] == i;
      assert left[k].Some? <==> !f(a[i].value);
    }
  }

  lemma DirectApply(sm: SetMatcher, s: Split)
    requires s.Valid() && sm.finder.None? && sm.pre.None?
    ensures var moved := Move(s, CorePicks(sm.core, s.unmatched));
            Apply(sm, s) == MoveBack(moved, Failing(moved.matched, sm.post))
  {
  }

  /** `:first.foo, :last` on two elements of which only the first has the class: the last one is lost. */
  lemma LostMatch(foo: Filter)
    requires foo(1) && !foo(2)
    ensures var last := SetMatcher(None, Positional(Last), None, None);
            var first := SetMatcher(None, Positional(First), Some(Elem(foo)), None);
            var s := Split([Some(1), Some(2)], [None, None]);
            && Apply(last, s).matched == [None, Some(2)]
            && Apply(first, Apply(last, s)).matched == [Some(1), None]
            && !OnlyMoves(Apply(last, s), Apply(first, Apply(last, s)))
  {
    var last := SetMatcher(None, Positional(Last), None, None);
    var first := SetMatcher(None, Positional(First), Some(Elem(foo)), None);
    var s := Split([Some(1), Some(2)], [None, None]);
    var t := Apply(last, s);
    assert t.matched == [None, Some(2)] && t.unmatched == [Some(1), None];
    var moved := Move(t, CorePicks(first.core, t.unmatched));
    assert moved.matched == [Some(1), Some(2)];
    ElementPost(moved.matched, foo, 0);
    ElementPost(moved.matched, foo, 1);
    var u := Apply(first, t);
    var sel := Failing(moved.matched, first.post);
    assert 0 !in sel && 1 in sel;
    DirectApply(first, t);
    assert |u.matched| == 2 && u.matched[0] == Some(1) && u.matched[1] == None;
    assert t.matched[1] == Some(2) && u.matched[1] == None && t.unmatched[1] == None;
  }
}
