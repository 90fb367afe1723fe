/**
 What the operations on data and handlers undo: a handler bound and unbound, an id given back and taken again, a datum
 written and read. And `off` without type or selector leaves no handler that matches.
 */
module DataRoundTrips {
  import opened Wrappers
  import E = EventHandlers
  import opened DataIds

  // ---------------------------------------------------------------- ids

  /** The id given back last is the next one taken. */
  lemma FreedIsReused(s: Store, elem: Elem, other: Elem)
    requires s.HasData(elem) && other !in s.owner
    ensures var t := Identified(Free(s, elem, s.owner[elem]), other);
            t.HasData(other) && t.owner[other] == s.owner[elem] && t.deleted == s.deleted && t.guid == s.guid
  {
  }

  // ---------------------------------------------------------------- binding and unbinding

  /** What is left of the ids when an element has been given one and has lost it again. */
  function Returned(s: Store): Store {
    if |s.deleted| > 0 then s else s.(guid := s.guid + 1, deleted := [s.guid])
  }

  lemma OneHandler(x: E.HandleObj, p: E.Pattern)
    requires p.Matches(x)
    ensures !Inhabited(E.Changed(E.Changed(E.Groups([], []), E.Change.Add(x)), E.Change.Remove(p)))
  {
    assert [] + [x] == [x] && [x][1..] == [];
    assert E.Survivors([x], p) == [];
  }

  /** The last handler of a type without hook goes, and the type with it. */
  lemma TypeGoes(h: Hooks, s: Store, elem: Elem, typ: Key, p: E.Pattern)
    requires (elem, typ) in s.lists && !Inhabited(Rest(s.lists[(elem, typ)], p)) && p.origType !in h.special
    ensures TornDown(h, s, elem, typ, p) == WithoutType(s.(lists := s.lists - {(elem, typ)}), elem, typ)
  {
  }

  lemma OnlyType(typ: Key)
    ensures [] + [typ] == [typ] && Others([typ], typ) == []
  {
    assert [typ][1..] == [];
  }

  /** The only handler of an element is unbound, and the types of events with it. */
  lemma LastUnbound(h: Hooks, s: Store, elem: Elem, typ: Key, x: E.HandleObj, p: E.Pattern)
    requires s.Valid() && !s.HasEvents(elem) && p.Matches(x) && p.origType !in h.special
    requires elem in s.owner ==> s.HasData(elem) && s.cache[s.owner[elem]].events == []
    ensures var i := Identified(s, elem);
            var e := i.cache[i.owner[elem]];
            TornDown(h, Bound(s, elem, typ, x), elem, typ, p)
            == i.Put(elem, Entry(e.keys + {"events", "handle"}, [], e.data))
  {
    var i, t := Identified(s, elem), Bound(s, elem, typ, x);
    assert (elem, typ) !in s.lists;
    OneHandler(x, p);
    OnlyType(typ);
    TypeGoes(h, t, elem, typ, p);
    assert t.lists - {(elem, typ)} == s.lists;
    assert !i.HasEvents(elem) by { assert i.cache[i.owner[elem]].keys == {} || i.cache == s.cache; }
    BoundEntry(s, i, t, elem, typ);
  }

  lemma BoundEntry(s: Store, i: Store, t: Store, elem: Elem, typ: Key)
    requires i.HasData(elem) && !i.HasEvents(elem) && (elem, typ) !in s.lists && s.lists == i.lists
    requires t == i.Put(elem, WithType(i.cache[i.owner[elem]], typ)).(lists := t.lists)
    requires t.lists - {(elem, typ)} == s.lists && [] + [typ] == [typ] && Others([typ], typ) == []
    ensures var e := i.cache[i.owner[elem]];
            WithoutType(t.(lists := t.lists - {(elem, typ)}), elem, typ)
            == i.Put(elem, Entry(e.keys + {"events", "handle"}, [], e.data))
  {
    assert s.lists - {(elem, typ)} == s.lists;
  }

  lemma EmptiedGoes(i: Store, elem: Elem)
    requires i.HasData(elem)
    ensures WithoutEmptyEvents(i.Put(elem, Entry({"events", "handle"}, [], {})), elem)
         == Free(i.Put(elem, Entry({}, [], {})), elem, i.owner[elem])
  {
    assert {"events", "handle"} - {"handle", "events"} == {};
    var full := i.Put(elem, Entry({"events", "handle"}, [], {}));
    assert full.Put(elem, Entry({}, [], {})) == i.Put(elem, Entry({}, [], {}));
  }

  lemma NothingLeft(s: Store, elem: Elem)
    requires s.Valid() && elem !in s.owner
    ensures var i := Identified(s, elem); Free(i.Put(elem, Entry({}, [], {})), elem, i.owner[elem]) == Returned(s)
  {
    var i := Identified(s, elem);
    assert i.owner[elem] !in s.cache && (forall q :: q in s.lists ==> q.0 != elem);
    var r := Free(i.Put(elem, Entry({}, [], {})), elem, i.owner[elem]);
    assert r.cache == s.cache && r.owner == s.owner && r.lists == s.lists;
  }

  /** Of an element without data, nothing is left behind. */
  lemma BindUnbind(h: Hooks, s: Store, elem: Elem, typ: Key, x: E.HandleObj, p: E.Pattern)
    requires s.Valid() && elem !in s.owner && p.Matches(x) && p.origType !in h.special
    ensures Unbound(h, Bound(s, elem, typ, x), elem, typ, p) == Returned(s)
  {
    LastUnbound(h, s, elem, typ, x, p);
    NothingLeft(s, elem);
    var i := Identified(s, elem);
    EmptiedGoes(i, elem);
    assert i.owner[elem] !in s.cache && i.cache[i.owner[elem]] == Entry({}, [], {});
    assert {} + {"events", "handle"} == {"events", "handle"};
    assert Bound(s, elem, typ, x).HasEvents(elem);
    hide TornDown, Bound, WithoutEmptyEvents, Identified, Free, Returned, Store.Valid;
  }

  lemma EventsLeft(s: Store, elem: Elem)
    requires s.HasData(elem)
    requires var e := s.cache[s.owner[elem]];
             !e.IsEmpty() && e.events == [] && "events" !in e.keys && "handle" !in e.keys
    ensures var e := s.cache[s.owner[elem]];
            WithoutEmptyEvents(s.Put(elem, Entry(e.keys + {"events", "handle"}, [], e.data)), elem) == s
  {
    var e := s.cache[s.owner[elem]];
    assert e.keys + {"events", "handle"} - {"handle", "events"} == e.keys;
    assert s.cache[s.owner[elem] := e] == s.cache;
  }

  /** Other data of the element stay as they are. */
  lemma BindUnbindData(h: Hooks, s: Store, elem: Elem, typ: Key, x: E.HandleObj, p: E.Pattern)
    requires s.Valid() && s.HasData(elem) && p.Matches(x) && p.origType !in h.special
    requires var e := s.cache[s.owner[elem]];
             !e.IsEmpty() && e.events == [] && "events" !in e.keys && "handle" !in e.keys
    ensures Unbound(h, Bound(s, elem, typ, x), elem, typ, p) == s
  {
    LastUnbound(h, s, elem, typ, x, p);
    EventsLeft(s, elem);
    assert Identified(s, elem) == s;
    assert Bound(s, elem, typ, x).HasEvents(elem);
    hide TornDown, Bound, WithoutEmptyEvents, Identified, Store.Valid;
  }

  // ---------------------------------------------------------------- off

  /** No object without event types is left. */
  lemma NoEmptyEvents(h: Hooks, s: Store, elem: Elem, t: Key, p: E.Pattern)
    ensures var r := Unbound(h, s, elem, t, p); r.HasEvents(elem) ==> r.cache[r.owner[elem]].events != []
    ensures var r := UnboundAll(h, s, elem, p); r.HasEvents(elem) ==> r.cache[r.owner[elem]].events != []
  {
  }

  /** The hooks do nothing to data or handlers. */
  ghost predicate Inert(h: Hooks) { forall n :: h.acts(n) == [] }

  /** The list of a type less what matches; nothing when nothing is left. */
  ghost predicate Thinned(s: Store, r: Store, q: (Elem, Key), p: E.Pattern) {
    if q in s.lists && Inhabited(Rest(s.lists[q], p)) then q in r.lists && r.lists[q] == Rest(s.lists[q], p)
    else q !in r.lists
  }

  lemma TornDownThins(h: Hooks, s: Store, elem: Elem, t: Key, p: E.Pattern)
    requires Inert(h) && s.HasEvents(elem)
    ensures var r := TornDown(h, s, elem, t, p);
            Thinned(s, r, (elem, t), p) && forall q :: q != (elem, t) ==> SameList(s, r, q)
  {
    var left := Filtered(s, (elem, t), p);
    var run := left.(log := s.log + [Run(elem, t, p.origType)]);
    assert Acted(h, run, h.acts(|s.log|)) == run;
    FilteredThins(s, (elem, t), p);
    hide Filtered, Acted, Rest;
    assert (elem, t) !in left.lists ==> left.lists - {(elem, t)} == left.lists;
    assert TornDown(h, s, elem, t, p).lists == left.lists;
  }

  lemma FilteredThins(s: Store, q: (Elem, Key), p: E.Pattern)
    ensures var r := Filtered(s, q, p); Thinned(s, r, q, p) && forall o :: o != q ==> SameList(s, r, o)
    ensures Filtered(s, q, p).log == s.log
  {
  }

  lemma UnboundThins(h: Hooks, s: Store, elem: Elem, t: Key, p: E.Pattern)
    requires Inert(h) && s.Valid() && s.Registered(elem, t)
    ensures var r := Unbound(h, s, elem, t, p);
            && r.Valid() && Thinned(s, r, (elem, t), p) && forall q :: q != (elem, t) ==> SameList(s, r, q)
  {
    hide TornDown, WithoutEmptyEvents, Freed, Ran, Store.Valid;
    var mid := TornDown(h, s, elem, t, p);
    TornDownThins(h, s, elem, t, p);
    TornDownKeeps(h, s, elem, t, p);
    UnboundKeeps(h, s, elem, t, p);
    EmptyEventsOnly(mid, elem);
    forall q | q != (elem, t) ensures SameList(s, Unbound(h, s, elem, t, p), q) { assert SameList(s, mid, q); }
  }

  /** What a visit of type `t` does to the handlers of type `k`. */
  ghost predicate ThinnedIf(s: Store, r: Store, q: (Elem, Key), visited: bool, p: E.Pattern) {
    if visited then Thinned(s, r, q, p) else SameList(s, r, q)
  }

  lemma ThinnedTwice(s: Store, t: Store, r: Store, q: (Elem, Key), p: E.Pattern, first: bool, more: bool)
    requires ThinnedIf(s, t, q, first, p) && ThinnedIf(t, r, q, more, p)
    ensures ThinnedIf(s, r, q, first || more, p)
  {
    if q in s.lists {
      RestExactly(s.lists[q], p);
      RestExactly(Rest(s.lists[q], p), p);
    }
  }

  lemma VisitedThins(h: Hooks, s: Store, elem: Elem, t: Key, p: E.Pattern)
    requires Inert(h) && s.Valid() && p.selector == ""
    ensures var r := Visited(h, s, elem, t, Some(p));
            && r.Valid() && forall q: (Elem, Key) :: ThinnedIf(s, r, q, q == (elem, t), Mapped(p, q.1))
  {
    if s.Registered(elem, t) { UnboundThins(h, s, elem, t, Mapped(p, t)); }
  }

  lemma {:induction false} SweptThins(h: Hooks, s: Store, elem: Elem, types: seq<Key>, p: E.Pattern)
    requires Inert(h) && s.Valid() && p.selector == ""
    ensures var r := Swept(h, s, elem, types, Some(p));
            && r.Valid() && forall q: (Elem, Key) :: ThinnedIf(s, r, q, q.0 == elem && q.1 in types, Mapped(p, q.1))
    decreases |types|
  {
    if |types| == 0 {
    } else {
      var t, r := Visited(h, s, elem, types[0], Some(p)), Swept(h, s, elem, types, Some(p));
      VisitedThins(h, s, elem, types[0], p);
      SweptThins(h, t, elem, types[1..], p);
      hide Visited, ThinnedIf;
      forall q: (Elem, Key) ensures ThinnedIf(s, r, q, q.0 == elem && q.1 in types, Mapped(p, q.1)) {
        ThinnedTwice(s, t, r, q, Mapped(p, q.1), q == (elem, types[0]), q.0 == elem && q.1 in types[1..]);
      }
    }
  }

  /** Of every type of the element the handlers that match are gone, and no other element has lost any. */
  ghost predicate AllThinned(s: Store, r: Store, elem: Elem, p: E.Pattern) {
    && (forall k :: Thinned(s, r, (elem, k), Mapped(p, k)))
    && (forall q: (Elem, Key) :: q.0 != elem ==> SameList(s, r, q))
  }

  lemma UnboundAllThins(h: Hooks, s: Store, elem: Elem, p: E.Pattern)
    requires Inert(h) && s.Valid() && p.selector == ""
    ensures AllThinned(s, UnboundAll(h, s, elem, p), elem, p)
  {
    assert forall k :: (elem, k) in s.lists ==> s.Registered(elem, k);
    if s.HasEvents(elem) {
      var types := s.cache[s.owner[elem]].events;
      var mid := Swept(h, s, elem, types, Some(p));
      SweptThins(h, s, elem, types, p);
      EmptyEventsOnly(mid, elem);
      assert forall k :: ThinnedIf(s, mid, (elem, k), k in types, Mapped(p, k));
    }
  }

  // ---------------------------------------------------------------- data

  /** A datum is stored under its name in camel case and is found again by the name it was written with. */
  lemma WriteThenRead(s: Store, elem: Elem, name: Key, pvt: bool, camel: Key -> Key)
    requires s.Valid()
    ensures var t := Asked(s, elem, Write(name), pvt, camel);
            && t.HasData(elem) && Holds(t.cache[t.owner[elem]], camel(name), pvt)
            && Found(t.cache[t.owner[elem]], name, pvt, camel)
  {
    AskedKeeps(s, elem, Write(name), pvt, camel);
  }

  /** The names of an object are stored as they are. */
  lemma MergeThenRead(s: Store, elem: Elem, names: set<Key>, pvt: bool, camel: Key -> Key)
    requires s.Valid()
    ensures var t := Asked(s, elem, Merge(names), pvt, camel);
            t.HasData(elem) && forall k :: k in names ==>
              Holds(t.cache[t.owner[elem]], k, pvt) && Found(t.cache[t.owner[elem]], k, pvt, camel)
  {
    AskedKeeps(s, elem, Merge(names), pvt, camel);
  }

  /** On an element that had no data, nothing but what is stored is found; private data are not public ones. */
  lemma NothingElseFound(s: Store, elem: Elem, r: Request, pvt: bool, camel: Key -> Key, other: Key)
    requires s.Valid() && elem !in s.owner && !r.Read?
    requires other !in Stored(r, camel) && camel(other) !in Stored(r, camel)
    ensures var t := Asked(s, elem, r, pvt, camel);
            && t.HasData(elem) && t.cache[t.owner[elem]].events == []
            && !Found(t.cache[t.owner[elem]], other, pvt, camel)
            && (pvt || (other != "data" && camel(other) != "data") ==>
                  !Found(t.cache[t.owner[elem]], other, !pvt, camel))
  {
  }

  // ---------------------------------------------------------------- what the operations of a run do

  ghost predicate Has(s: Store, elem: Elem, k: Key, pvt: bool) {
    s.HasData(elem) && Holds(s.cache[s.owner[elem]], k, pvt)
  }

  lemma RemovedMeans(h: Hooks, s: Store, elem: Elem, names: Option<seq<Key>>, pvt: bool)
    requires Quiet(h) && s.Valid()
    ensures var t := Removed(h, s, elem, names, pvt);
            && (names.Some? ==> forall k :: k in names.value ==> !Has(t, elem, k, pvt))
            && (t.HasData(elem) ==>
                  forall k, q :: Has(s, elem, k, q) && !Targeted(names, pvt, k, q) ==> Has(t, elem, k, q))
  {
    if s.HasData(elem) {
      var e := s.cache[s.owner[elem]];
      ReduceExactly(e, names, pvt);
      RemovedKeeps(h, s, elem, names, pvt);
      hide Cleaned, Reduce, Survives, Freed, Ran, Store.Valid;
      if Reduce(e, names, pvt).Some? {
        assert Reduce(e, names, pvt).value == Remnant(e, names, pvt) by { ReducedIsRemnant(e, names, pvt); }
        assert Removed(h, s, elem, names, pvt) == Rewritten(s, elem, Remnant(e, names, pvt));
      } else {
        assert elem !in Removed(h, s, elem, names, pvt).owner;
      }
    }
  }

  lemma ReducedIsRemnant(e: Entry, names: Option<seq<Key>>, pvt: bool)
    requires Reduce(e, names, pvt).Some?
    ensures Reduce(e, names, pvt).value == Remnant(e, names, pvt)
  {
  }

  /** `removeData`: the data named are gone; of an element that keeps an entry, all others stay. */
  lemma RemoveMeans(h: Hooks, camel: Key -> Key, s: Store, elem: Elem, names: Option<seq<Key>>, pvt: bool)
    requires Quiet(h) && s.Valid()
    ensures var t := Performed(h, camel, s, Do(Drop(elem, names, pvt)));
            && (names.Some? ==> forall k :: k in names.value ==> !Has(t, elem, k, pvt))
            && (t.HasData(elem) ==>
                  forall k, q :: Has(s, elem, k, q) && !Targeted(names, pvt, k, q) ==> Has(t, elem, k, q))
  {
    RemovedMeans(h, s, elem, names, pvt);
    hide Removed, Cleaned, Unbound, UnboundAll, Quiet, Store.Valid;
  }

  /** When public data are removed, the object that holds them stays only if some are left. */
  lemma NoEmptyData(e: Entry, names: Option<seq<Key>>)
    ensures var r := Reduce(e, names, false); r.Some? && "data" in r.value.keys ==> r.value.data != {}
  {
  }

  lemma TouchMeans(h: Hooks, camel: Key -> Key, s: Store, elem: Elem, stored: set<Key>, pvt: bool)
    ensures var t := Performed(h, camel, s, Do(Touch(elem, stored, pvt)));
            if s.HasData(elem) then forall k :: k in stored ==> Has(t, elem, k, pvt) else t == s
  {
    if s.HasData(elem) { WrittenGrows(s.cache[s.owner[elem]], stored, pvt); }
  }

  lemma FilteredValid(s: Store, q: (Elem, Key), p: E.Pattern)
    requires s.Valid()
    ensures Filtered(s, q, p).Valid()
  {
    assert Filtered(s, q, p).Numbers() == s.Numbers();
    assert forall o :: o in Filtered(s, q, p).lists ==> s.Registered(o.0, o.1);
  }

  /** Once the list has gone, nothing brings it back. */
  lemma TornDownGone(h: Hooks, s: Store, elem: Elem, typ: Key, p: E.Pattern)
    requires (elem, typ) !in Filtered(s, (elem, typ), p).lists
    ensures (elem, typ) !in TornDown(h, s, elem, typ, p).lists
  {
    hide Filtered, WithoutType;
  }

  lemma UnboundLeaves(h: Hooks, s: Store, elem: Elem, typ: Key, p: E.Pattern)
    requires s.Valid()
    ensures Thinned(s, Unbound(h, s, elem, typ, p), (elem, typ), p)
  {
    var q := (elem, typ);
    assert q in s.lists ==> s.HasEvents(elem);
    if s.HasEvents(elem) {
      var left := Filtered(s, q, p);
      FilteredThins(s, q, p);
      FilteredValid(s, q, p);
      if q in left.lists {
        assert TornDown(h, s, elem, typ, p) == left;
        EmptyEventsOnly(left, elem);
      } else {
        TornDownGone(h, s, elem, typ, p);
      }
      hide TornDown, Filtered, WithoutEmptyEvents, Store.Valid, Rest;
    }
  }

  /** `off( type )`, whatever the hooks do: of the handlers of this type those that match are gone, and no others. */
  lemma UnbindMeans(h: Hooks, camel: Key -> Key, s: Store, elem: Elem, typ: Key, p: E.Pattern)
    requires s.Valid()
    ensures Thinned(s, Performed(h, camel, s, Do(Unbind(elem, typ, p))), (elem, typ), p)
  {
    UnboundLeaves(h, s, elem, typ, p);
    hide Unbound, UnboundAll, Cleaned, Removed, Used, Touched, Store.Valid, Rest;
  }

  /** `off` without type and selector: of every type the handlers that match are gone, and no others. */
  lemma OffMeans(h: Hooks, camel: Key -> Key, s: Store, elem: Elem, p: E.Pattern)
    requires Inert(h) && s.Valid() && p.selector == ""
    ensures AllThinned(s, Performed(h, camel, s, Do(UnbindAll(elem, p))), elem, p)
  {
    UnboundAllThins(h, s, elem, p);
    hide UnboundAll, Unbound, Cleaned, Removed, Used, Touched, Inert, Store.Valid, AllThinned;
  }

  lemma CleanMeans(h: Hooks, camel: Key -> Key, s: Store, elem: Elem)
    requires Quiet(h) && s.Valid()
    ensures !Performed(h, camel, s, Do(Clean(elem))).HasData(elem)
  {
    CleanedKeeps(h, s, elem);
  }

  /** Binding appends the handler to its group; a new type comes behind the others, and no type is listed twice. */
  lemma BindMeans(h: Hooks, camel: Key -> Key, s: Store, elem: Elem, typ: Key, x: E.HandleObj)
    requires s.Valid()
    ensures var t := Performed(h, camel, s, Bind(elem, typ, x));
            var was := if (elem, typ) in s.lists then s.lists[(elem, typ)] else E.Groups([], []);
            && (elem, typ) in t.lists
            && t.lists[(elem, typ)].delegated == was.delegated + (if x.Delegated() then [x] else [])
            && t.lists[(elem, typ)].direct == was.direct + (if x.Delegated() then [] else [x])
    ensures var t := Performed(h, camel, s, Bind(elem, typ, x));
            && t.HasEvents(elem)
            && (s.HasEvents(elem) ==> s.cache[s.owner[elem]].events <= t.cache[t.owner[elem]].events)
            && (s.HasEvents(elem) && Once(s.cache[s.owner[elem]].events) ==> Once(t.cache[t.owner[elem]].events))
  {
  }

  ghost predicate Once(types: seq<Key>) { forall i, j :: 0 <= i < j < |types| ==> types[i] != types[j] }
}
