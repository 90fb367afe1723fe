/**
 The ids under which `jQuery.cache` keeps the data of DOM nodes: taken from a free list or a counter, freed by
 `cleanData`, which may be entered again from the event teardown it performs. Teardown hooks may clean, remove data and
 unbind handlers, of this element or of others.
 */
module DataIds {
  import opened Wrappers

  import E = EventHandlers

  type Elem = nat
  type Key = string

  /**
   A cache entry: its private keys, among them perhaps "events", "handle" and "data"; the event types in the order they
   were added; the public keys.
   */
  datatype Entry = Entry(keys: set<Key>, events: seq<Key>, data: set<Key>)
  {
    /** `isEmptyDataObject` */
    predicate IsEmpty() { keys == {} || (keys == {"data"} && data == {}) }
  }

  /** The part of the state that concerns ids. */
  datatype Ids = Ids(guid: nat, deleted: seq<nat>, owner: map<Elem, nat>, live: set<nat>)
  {
    /**
     Live ids belong to one element each, none of them is on the free list, the free list has no repeats, and all are
     below the counter. Ids are never 0, which would be falsy.
     */
    ghost predicate Valid() {
      && live == owner.Values
      && (forall a, b :: a in owner && b in owner && a != b ==> owner[a] != owner[b])
      && (forall i, j :: 0 <= i < j < |deleted| ==> deleted[i] != deleted[j])
      && (forall i :: 0 <= i < |deleted| ==> deleted[i] !in live && 0 < deleted[i] < guid)
      && (forall x :: x in live ==> 0 < x < guid)
      && 0 < guid
    }
  }

  /** `deletedIds.pop() || jQuery.guid++` for an element without id. */
  function Allocate(s: Ids, elem: Elem): (Ids, nat) {
    if |s.deleted| > 0 then
      var id := s.deleted[|s.deleted| - 1];
      (s.(deleted := s.deleted[..|s.deleted| - 1], owner := s.owner[elem := id], live := s.live + {id}), id)
    else
      (s.(guid := s.guid + 1, owner := s.owner[elem := s.guid], live := s.live + {s.guid}), s.guid)
  }

  /** The end of `cleanData`, for the id read at its start. */
  function Release(s: Ids, elem: Elem, id: nat): Ids {
    if id in s.live then s.(deleted := s.deleted + [id], owner := s.owner - {elem}, live := s.live - {id}) else s
  }

  /** Every id ever handed out is either live or on the free list. */
  ghost function Known(s: Ids): set<nat> {
    s.live + set x | x in s.deleted
  }

  lemma AllocateKeeps(s: Ids, elem: Elem)
    requires s.Valid() && elem !in s.owner
    ensures var (t, id) := Allocate(s, elem);
            && t.Valid() && t.owner == s.owner[elem := id] && id !in s.live && id !in t.deleted
            && (forall x :: x in t.deleted ==> x in s.deleted)
  {
    var (t, id) := Allocate(s, elem);
    assert forall e :: e in s.owner ==> s.owner[e] in s.owner.Values;
    assert t.live == t.owner.Values by {
      assert forall x :: x in s.owner.Values ==> exists e :: e in s.owner && s.owner[e] == x;
      forall x ensures x in t.live <==> x in t.owner.Values {
        if x == id { assert t.owner[elem] == id; }
        else if x in s.live { var e :| e in s.owner && s.owner[e] == x; assert t.owner[e] == x; }
      }
    }
  }

  /**
   Freeing an id is right exactly when it is not live any more, or still belongs to the element it was read from. The
   code tests only the former, so a teardown hook that frees the element and lets another one take the id breaks it.
   */
  lemma ReleaseExactly(s: Ids, elem: Elem, id: nat)
    requires s.Valid()
    ensures Release(s, elem, id).Valid() <==> id !in s.live || (elem in s.owner && s.owner[elem] == id)
    ensures Known(Release(s, elem, id)) == Known(s)
  {
    var t := Release(s, elem, id);
    if id in s.live {
      var e :| e in s.owner && s.owner[e] == id;
      if e == elem {
        forall x ensures x in t.live <==> x in t.owner.Values {
          if x in s.live && x != id { var b :| b in s.owner && s.owner[b] == x; assert t.owner[b] == x; }
        }
        assert forall b :: b in t.owner ==> t.owner[b] in s.owner.Values;
        assert t.Valid();
      } else {
        assert t.owner[e] == id && id !in t.live;
        assert !t.Valid();
      }
    }
  }

  // ---------------------------------------------------------------- entries

  predicate Holds(e: Entry, name: Key, pvt: bool) {
    if pvt then name in e.keys else "data" in e.keys && name in e.data
  }

  /**
   Something is left of an entry after a removal: a private key that is neither removed nor an empty "data". Without
   names, a private removal takes the entry and a public one takes "data".
   */
  ghost predicate Survives(e: Entry, names: Option<seq<Key>>, pvt: bool) {
    if pvt then names.Some? && exists k :: k in e.keys && k !in names.value && (k == "data" ==> e.data != {})
    else
      || (exists k :: k in e.keys && k != "data")
      || (names.Some? && "data" in e.keys && exists k :: k in e.data && k !in names.value)
  }

  /** The datum `k` is what a removal is about. */
  predicate Targeted(names: Option<seq<Key>>, pvt: bool, k: Key, q: bool) {
    if pvt then names.None? || (if q then k in names.value else "data" in names.value)
    else if q then k == "data" else names.None? || k in names.value
  }

  /** Deleting one key, public or private. */
  function WithoutKey(e: Entry, name: Key, pvt: bool): Entry {
    if !pvt then (if "data" in e.keys then e.(data := e.data - {name}) else e)
    else if name == "events" then e.(keys := e.keys - {name}, events := [])
    else if name == "data" then e.(keys := e.keys - {name}, data := {})
    else e.(keys := e.keys - {name})
  }

  /** `while ( i-- ) { delete thisCache[ name[ i ] ]; }` */
  function WithoutKeys(e: Entry, names: seq<Key>, pvt: bool): Entry
    decreases |names|
  {
    if |names| == 0 then e
    else WithoutKeys(WithoutKey(e, names[|names| - 1], pvt), names[..|names| - 1], pvt)
  }

  function WithoutData(e: Entry): Entry { e.(keys := e.keys - {"data"}, data := {}) }

  /** What the deletions of `internalRemoveData` leave of an entry. */
  function Remnant(e: Entry, names: Option<seq<Key>>, pvt: bool): Entry {
    var r := if names.Some? then WithoutKeys(e, names.value, pvt) else e;
    if pvt || (names.Some? && "data" in r.keys && r.data != {}) then r else WithoutData(r)
  }

  /** What `internalRemoveData` makes of an entry; None when it destroys it. */
  function Reduce(e: Entry, names: Option<seq<Key>>, pvt: bool): Option<Entry> {
    var r := Remnant(e, names, pvt);
    if (pvt && names.None?) || r.IsEmpty() then None else Some(r)
  }

  lemma {:induction false} KeysGone(e: Entry, names: seq<Key>, pvt: bool)
    ensures var r := WithoutKeys(e, names, pvt);
            && (forall k :: k in r.keys <==> k in e.keys && !(pvt && k in names))
            && (forall k :: k in r.data <==>
                  k in e.data && !(if pvt then "data" in names else "data" in e.keys && k in names))
    decreases |names|
  {
    if |names| == 0 {
    } else {
      KeysGone(WithoutKey(e, names[|names| - 1], pvt), names[..|names| - 1], pvt);
      assert forall k :: k in names <==> k in names[..|names| - 1] || k == names[|names| - 1];
    }
  }

  lemma NotEmpty(e: Entry)
    ensures !e.IsEmpty() <==> exists k :: k in e.keys && (k == "data" ==> e.data != {})
  {
    if !e.IsEmpty() && e.data == {} {
      assert e.keys == {"data"} + (e.keys - {"data"}) || "data" !in e.keys;
      var k :| k in e.keys && k != "data";
    }
  }

  lemma ReducePrivate(e: Entry, names: seq<Key>)
    ensures !WithoutKeys(e, names, true).IsEmpty() <==> Survives(e, Some(names), true)
  {
    var r := WithoutKeys(e, names, true);
    KeysGone(e, names, true);
    NotEmpty(r);
    if k :| k in e.keys && k !in names && (k == "data" ==> e.data != {}) {
      assert k in r.keys;
      if k == "data" { var x :| x in e.data; assert x in r.data; }
    }
    if k :| k in r.keys && (k == "data" ==> r.data != {}) {
      assert k in e.keys && k !in names;
      if k == "data" { var x :| x in r.data; assert x in e.data; }
    }
  }

  lemma ReducePublic(e: Entry, names: Option<seq<Key>>)
    ensures Reduce(e, names, false).Some? <==> Survives(e, names, false)
  {
    var r := if names.Some? then WithoutKeys(e, names.value, false) else e;
    if names.Some? { KeysGone(e, names.value, false); }
    var w := WithoutData(r);
    NotEmpty(w);
    assert forall k :: k in w.keys <==> k in e.keys && k != "data";
    if names.Some? && "data" in e.keys {
      assert r.data != {} ==> exists k :: k in r.data;
      assert (exists k :: k in e.data && k !in names.value) <==> r.data != {} by {
        if k :| k in e.data && k !in names.value { assert k in r.data; }
      }
    }
  }

  /** An entry goes exactly when nothing else is left; otherwise it loses what was to be removed and nothing more. */
  lemma ReduceExactly(e: Entry, names: Option<seq<Key>>, pvt: bool)
    ensures Reduce(e, names, pvt).Some? <==> Survives(e, names, pvt)
    ensures Reduce(e, names, pvt).Some? ==>
              var r := Reduce(e, names, pvt).value;
              && (names.Some? ==> forall k :: k in names.value ==> !Holds(r, k, pvt))
              && (forall k, q :: Holds(r, k, q) ==> Holds(e, k, q))
              && (forall k, q :: Holds(e, k, q) && !Targeted(names, pvt, k, q) ==> Holds(r, k, q))
  {
    if names.Some? { KeysGone(e, names.value, pvt); }
    if pvt { if names.Some? { ReducePrivate(e, names.value); } } else { ReducePublic(e, names); }
  }

  /** Nothing goes, and nothing comes but the data written and the object that holds the public data. */
  ghost predicate Grows(e: Entry, r: Entry, written: set<Key>, pvt: bool) {
    && r.events == e.events
    && (forall k, q :: Holds(e, k, q) ==> Holds(r, k, q))
    && (forall k, q :: Holds(r, k, q) ==>
          Holds(e, k, q) || (k in written && q == pvt) || (q && k == "data" && !pvt) || (!q && k in e.data))
  }

  function Written(e: Entry, stored: set<Key>, pvt: bool): Entry {
    if pvt then e.(keys := e.keys + stored) else e.(keys := e.keys + {"data"}, data := e.data + stored)
  }

  lemma WrittenGrows(e: Entry, stored: set<Key>, pvt: bool)
    ensures var r := Written(e, stored, pvt);
            Grows(e, r, stored, pvt) && e.keys <= r.keys && forall k :: k in stored ==> Holds(r, k, pvt)
  {
  }

  // ---------------------------------------------------------------- the state

  /** A run of a teardown hook: the handler list that became empty, and the type whose hook it is. */
  datatype Run = Run(elem: Elem, typ: Key, hook: Key)
  {
    function List(): (Elem, Key) { (elem, typ) }
  }

  /** There is a handler. */
  predicate Inhabited(g: E.Groups) { g.delegated != [] || g.direct != [] }

  /** The whole state, with the handler lists that are not empty. `log` records the teardown hooks that have run. */
  datatype Store = Store(
    guid: nat,
    deleted: seq<nat>,
    owner: map<Elem, nat>,              // elem[ expando ]
    cache: map<nat, Entry>,
    lists: map<(Elem, Key), E.Groups>,
    log: seq<Run>)
  {
    function Numbers(): Ids { Ids(guid, deleted, owner, cache.Keys) }

    predicate HasData(elem: Elem) { elem in owner && owner[elem] in cache }

    predicate HasEvents(elem: Elem) { HasData(elem) && "events" in cache[owner[elem]].keys }

    predicate Registered(elem: Elem, t: Key) { HasEvents(elem) && t in cache[owner[elem]].events }

    ghost predicate Valid() {
      Numbers().Valid() && forall p :: p in lists ==> Registered(p.0, p.1) && Inhabited(lists[p])
    }

    function Put(elem: Elem, e: Entry): Store
      requires HasData(elem)
    {
      this.(cache := cache[owner[elem] := e])
    }
  }

  lemma KnownElement(s: Store, elem: Elem)
    requires s.Valid() && elem in s.owner
    ensures s.HasData(elem)
  {
    assert s.owner[elem] in s.owner.Values;
  }

  /** A changed entry; the handlers of types that are not in it any more are gone. */
  function Rewritten(s: Store, elem: Elem, e: Entry): (t: Store)
    requires s.HasData(elem)
    ensures t.lists.Keys <= s.lists.Keys
  {
    s.Put(elem, e).(lists := map p | p in s.lists && (p.0 == elem ==> "events" in e.keys && p.1 in e.events)
                               :: s.lists[p])
  }

  /** The id and an empty cache entry, where they are missing. */
  function Identified(s: Store, elem: Elem): (t: Store)
    ensures t.lists == s.lists && t.HasData(elem)
  {
    var (ids, id) := if elem in s.owner then (s.Numbers(), s.owner[elem]) else Allocate(s.Numbers(), elem);
    s.(guid := ids.guid, deleted := ids.deleted, owner := ids.owner,
       cache := if id in s.cache then s.cache else s.cache[id := Entry({}, [], {})])
  }

  /** Some private data stored on an element. */
  function Used(s: Store, elem: Elem): (t: Store)
    ensures t.lists == s.lists
  {
    var t := Identified(s, elem);
    t.Put(elem, Written(t.cache[t.owner[elem]], {"used"}, true))
  }

  /** Data stored on an element that has data already, and nothing otherwise. */
  function Touched(s: Store, elem: Elem, stored: set<Key>, pvt: bool): (t: Store)
    ensures t.lists == s.lists
  {
    if s.HasData(elem) then s.Put(elem, Written(s.cache[s.owner[elem]], stored, pvt)) else s
  }

  // ---------------------------------------------------------------- cleaning and unbinding

  /**
   What a teardown hook does: clean an element, store some private data on it, store data on it if it has data already,
   remove data, unbind handlers of one type (under the mapped name `typ`), or unbind handlers of all types.
   */
  datatype Act =
    | Clean(elem: Elem)
    | Use(elem: Elem)
    | Touch(elem: Elem, stored: set<Key>, pvt: bool)
    | Drop(elem: Elem, names: Option<seq<Key>>, pvt: bool)
    | Unbind(elem: Elem, typ: Key, p: E.Pattern)
    | UnbindAll(elem: Elem, p: E.Pattern)

  /**
   The types with special treatment, what some of them are called with a selector, and what the n-th hook to run does:
   any script at all.
   */
  datatype Hooks = Hooks(special: set<Key>, delegateType: map<Key, Key>, acts: nat -> seq<Act>)

  /** The call `event.remove( elem, type )`: the handlers bound under this very type. */
  function Only(t: Key): E.Pattern { E.Pattern(false, t, None, None, "") }

  /** The call `event.remove( elem, type + namespaces, handler, selector, true )`. */
  function Mapped(p: E.Pattern, t: Key): E.Pattern { p.(mappedTypes := true, origType := t) }

  /** `type = ( selector ? special.delegateType : ... ) || type` */
  function Renamed(h: Hooks, p: E.Pattern, t: Key): Key {
    if p.selector != "" && t in h.delegateType then h.delegateType[t] else t
  }

  /** What the loop over the handlers of `event.remove` leaves. */
  function Filtered(s: Store, p: (Elem, Key), pattern: E.Pattern): (t: Store)
    ensures t.lists.Keys <= s.lists.Keys
  {
    if p !in s.lists then s
    else
      var g := E.Changed(s.lists[p], E.Change.Remove(pattern));
      s.(lists := if Inhabited(g) then s.lists[p := g] else s.lists - {p})
  }

  /** The end of `cleanData`, for the id read at its start. The handlers go with the entry. */
  function Free(s: Store, elem: Elem, id: nat): (t: Store)
    ensures t.lists.Keys <= s.lists.Keys
  {
    if id in s.cache then
      s.(deleted := s.deleted + [id], owner := s.owner - {elem}, cache := s.cache - {id},
         lists := map p | p in s.lists && p.0 != elem :: s.lists[p])
    else s
  }

  /** `cleanData` for one element. */
  function Cleaned(h: Hooks, s: Store, elem: Elem): (t: Store)
    ensures t.lists.Keys <= s.lists.Keys
    decreases s.lists.Keys, 3, 0
  {
    if !s.HasData(elem) then s
    else
      var id := s.owner[elem];
      Free(if s.HasEvents(elem) then Swept(h, s, elem, s.cache[id].events, None) else s, elem, id)
  }

  /**
   A loop over the event types of an element: of `cleanData`, which unbinds the types with special treatment, or of
   `event.remove` without type, which unbinds all that match, and takes a type visited for one to be renamed. A type
   that is gone meanwhile is not visited.
   */
  function Swept(h: Hooks, s: Store, elem: Elem, types: seq<Key>, p: Option<E.Pattern>): (t: Store)
    ensures t.lists.Keys <= s.lists.Keys
    decreases s.lists.Keys, 1, |types|
  {
    if |types| == 0 then s
    else Swept(h, Visited(h, s, elem, types[0], p), elem, types[1..], p)
  }

  function Visited(h: Hooks, s: Store, elem: Elem, t: Key, p: Option<E.Pattern>): (r: Store)
    ensures r.lists.Keys <= s.lists.Keys
    decreases s.lists.Keys, 1, 0
  {
    if !s.Registered(elem, t) then s
    else if p.Some? then Unbound(h, s, elem, Renamed(h, p.value, t), Mapped(p.value, t))
    else if t in h.special then Unbound(h, s, elem, t, Only(t))
    else s
  }

  /** `event.remove` for one type: the handlers go first, then the hook runs, then the type is deleted. */
  function Unbound(h: Hooks, s: Store, elem: Elem, t: Key, p: E.Pattern): (r: Store)
    ensures r.lists.Keys <= s.lists.Keys
    decreases s.lists.Keys, 0, 1
  {
    if !s.HasEvents(elem) then s else WithoutEmptyEvents(TornDown(h, s, elem, t, p), elem)
  }

  /** The hook is that of the type the call names, not of the type it is mapped to. */
  function TornDown(h: Hooks, s: Store, elem: Elem, t: Key, p: E.Pattern): (r: Store)
    ensures r.lists.Keys <= s.lists.Keys
    decreases s.lists.Keys, 0, 0
  {
    var left := Filtered(s, (elem, t), p);
    if (elem, t) !in s.lists || (elem, t) in left.lists then left
    else if p.origType !in h.special then WithoutType(left, elem, t)
    else
      WithoutType(Acted(h, left.(log := s.log + [Run(elem, t, p.origType)]), h.acts(|s.log|)), elem, t)
  }

  /** `event.remove` without type. */
  function UnboundAll(h: Hooks, s: Store, elem: Elem, p: E.Pattern): (r: Store)
    ensures r.lists.Keys <= s.lists.Keys
    decreases s.lists.Keys, 2, 0
  {
    if !s.HasEvents(elem) then s
    else WithoutEmptyEvents(Swept(h, s, elem, s.cache[s.owner[elem]].events, Some(p)), elem)
  }

  /** `delete events[ type ]` */
  function WithoutType(s: Store, elem: Elem, t: Key): (r: Store)
    ensures r.lists.Keys <= s.lists.Keys
  {
    if s.HasEvents(elem) then
      var e := s.cache[s.owner[elem]];
      s.Put(elem, e.(events := Others(e.events, t))).(lists := s.lists - {(elem, t)})
    else s
  }

  function Others(types: seq<Key>, t: Key): (r: seq<Key>)
    ensures forall k :: k in r <==> k in types && k != t
  {
    if |types| == 0 then [] else (if types[0] == t then [] else [types[0]]) + Others(types[1..], t)
  }

  /** What `event.remove` does when no type is left; `cleanData` then finds no events on the element. */
  function WithoutEmptyEvents(s: Store, elem: Elem): (r: Store)
    ensures r.lists.Keys <= s.lists.Keys
  {
    if s.HasEvents(elem) && s.cache[s.owner[elem]].events == [] then
      var e := s.cache[s.owner[elem]];
      var bare := e.(keys := e.keys - {"handle", "events"}, events := []);
      var t := s.Put(elem, bare);
      if bare.IsEmpty() then Free(t, elem, t.owner[elem]) else t
    else s
  }

  /** `internalRemoveData` */
  function Removed(h: Hooks, s: Store, elem: Elem, names: Option<seq<Key>>, pvt: bool): (t: Store)
    ensures t.lists.Keys <= s.lists.Keys
    decreases s.lists.Keys, 4, 0
  {
    if !s.HasData(elem) then s
    else
      var e := s.cache[s.owner[elem]];
      var t := Rewritten(s, elem, Remnant(e, names, pvt));
      if Reduce(e, names, pvt).Some? then t else Cleaned(h, t, elem)
  }

  function Did(h: Hooks, s: Store, a: Act): (t: Store)
    ensures t.lists.Keys <= s.lists.Keys
    decreases s.lists.Keys, 5, 0
  {
    match a
    case Clean(e) => Cleaned(h, s, e)
    case Use(e) => Used(s, e)
    case Touch(e, stored, pvt) => Touched(s, e, stored, pvt)
    case Drop(e, names, pvt) => Removed(h, s, e, names, pvt)
    case Unbind(e, t, p) => Unbound(h, s, e, t, p)
    case UnbindAll(e, p) => UnboundAll(h, s, e, p)
  }

  /** A hook, act by act. */
  function Acted(h: Hooks, s: Store, acts: seq<Act>): (t: Store)
    ensures t.lists.Keys <= s.lists.Keys
    decreases s.lists.Keys, 6, |acts|
  {
    if |acts| == 0 then s else Acted(h, Did(h, s, acts[0]), acts[1..])
  }

  // ---------------------------------------------------------------- what cleaning keeps

  /** Nothing is allocated, and the key "events", which is for `event.add` and `event.remove`, is left alone. */
  predicate Silent(a: Act) {
    && !a.Use?
    && (a.Drop? && a.pvt && a.names.Some? ==> "events" !in a.names.value)
    && (a.Touch? && a.pvt ==> "events" !in a.stored)
  }

  /**
   What the hooks of the file do. Those of "submit" and "change" unbind by namespace. Those of "focusin" and "focusout"
   read a counter from the document, and write it back, which it has then, or remove it.
   */
  predicate OfThisFile(a: Act) {
    match a
    case UnbindAll(_, _) => true
    case Touch(_, stored, pvt) => pvt && (stored == {"focusin"} || stored == {"focusout"})
    case Drop(_, names, pvt) => pvt && (names == Some(["focusin"]) || names == Some(["focusout"]))
    case _ => false
  }

  lemma OwnHooksAreSilent(a: Act)
    requires OfThisFile(a)
    ensures Silent(a)
  {
  }

  ghost predicate Quiet(h: Hooks) {
    forall n, i :: 0 <= i < |h.acts(n)| ==> Silent(h.acts(n)[i])
  }

  /** Some hook acts on this element. */
  ghost predicate Hooked(h: Hooks, e: Elem) {
    exists n, i :: 0 <= i < |h.acts(n)| && h.acts(n)[i].elem == e
  }

  /** The hooks run between the two states belong to lists that became empty meanwhile, and no list has two runs. */
  ghost predicate Ran(h: Hooks, s: Store, t: Store) {
    && s.log <= t.log && t.lists.Keys <= s.lists.Keys
    && (forall i, j :: |s.log| <= i < j < |t.log| ==> t.log[i].List() != t.log[j].List())
    && (forall i :: |s.log| <= i < |t.log| ==>
          t.log[i].List() in s.lists && t.log[i].List() !in t.lists && t.log[i].hook in h.special)
  }

  lemma RanTwice(h: Hooks, s: Store, t: Store, u: Store)
    requires Ran(h, s, t) && Ran(h, t, u)
    ensures Ran(h, s, u)
  {
    assert forall i :: |s.log| <= i < |t.log| ==> u.log[i] == t.log[i];
  }

  /**
   Ids are only given back: nobody gains one, and what leaves the cache joins the free list. Together with the
   validity of both states, each freed id is on the free list once. Only `elem` and elements that hooks act on are
   affected.
   */
  ghost predicate Freed(h: Hooks, s: Store, t: Store, elem: Elem) {
    && t.guid == s.guid
    && (forall e :: e in t.owner ==> e in s.owner && t.owner[e] == s.owner[e])
    && s.deleted <= t.deleted
    && Known(t.Numbers()) == Known(s.Numbers())
    && (forall e :: e in s.owner && e != elem && !Hooked(h, e) ==> KeptAsWas(s, t, e))
  }

  ghost predicate KeptAsWas(s: Store, t: Store, e: Elem) {
    && e in t.owner && e in s.owner && t.owner[e] == s.owner[e]
    && s.HasData(e) && t.HasData(e) && t.cache[s.owner[e]] == s.cache[s.owner[e]]
    && (forall k :: SameList(s, t, (e, k)))
  }

  ghost predicate SameList(s: Store, t: Store, p: (Elem, Key)) {
    (p in t.lists <==> p in s.lists) && (p in s.lists ==> t.lists[p] == s.lists[p])
  }

  /** One stretch of cleaning. */
  ghost predicate Keeps(h: Hooks, s: Store, t: Store, elem: Elem) {
    t.Valid() && Freed(h, s, t, elem) && Ran(h, s, t)
  }

  lemma FreedTwice(h: Hooks, s: Store, t: Store, u: Store, a: Elem, b: Elem)
    requires Freed(h, s, t, a) && Freed(h, t, u, b) && (a == b || Hooked(h, b))
    ensures Freed(h, s, u, a)
  {
    forall e | e in s.owner && e != a && !Hooked(h, e) ensures KeptAsWas(s, u, e) {
      assert KeptAsWas(s, t, e);
      assert KeptAsWas(t, u, e);
      forall k ensures SameList(s, u, (e, k)) { assert SameList(s, t, (e, k)) && SameList(t, u, (e, k)); }
    }
  }

  lemma KeepsTwice(h: Hooks, s: Store, t: Store, u: Store, a: Elem, b: Elem)
    requires Keeps(h, s, t, a) && Keeps(h, t, u, b) && (a == b || Hooked(h, b))
    ensures Keeps(h, s, u, a)
  {
    FreedTwice(h, s, t, u, a, b);
    RanTwice(h, s, t, u);
  }

  lemma KeepsItself(h: Hooks, s: Store, elem: Elem)
    requires s.Valid()
    ensures Keeps(h, s, s, elem)
  {
    forall e | e in s.owner ensures KeptAsWas(s, s, e) { assert s.owner[e] in s.owner.Values; }
  }

  /** A live id has not changed hands when ids were only given back. */
  lemma StillOwned(s: Store, t: Store, elem: Elem, id: nat)
    requires s.Valid() && t.Valid() && elem in s.owner && s.owner[elem] == id
    requires forall e :: e in t.owner ==> e in s.owner && t.owner[e] == s.owner[e]
    ensures id in t.cache <==> elem in t.owner
    ensures elem in t.owner ==> t.owner[elem] == id
  {
    if id in t.cache {
      var e :| e in t.owner && t.owner[e] == id;
      assert s.owner[e] == id;
    }
    if elem in t.owner { assert t.owner[elem] in t.owner.Values; }
  }

  /** Freeing an element's own id. */
  lemma FreeKeeps(h: Hooks, s: Store, elem: Elem)
    requires s.Valid() && elem in s.owner
    ensures Keeps(h, s, Free(s, elem, s.owner[elem]), elem) && elem !in Free(s, elem, s.owner[elem]).owner
  {
    assert s.owner[elem] in s.owner.Values;
    var id := s.owner[elem];
    var t := Free(s, elem, id);
    ReleaseExactly(s.Numbers(), elem, id);
    assert t.Numbers() == Release(s.Numbers(), elem, id);
    forall e | e in s.owner && e != elem ensures KeptAsWas(s, t, e) {
      assert s.owner[e] in s.owner.Values;
      assert forall k :: SameList(s, t, (e, k));
    }
  }

  /** Changing the entry of one element, its handler lists included. */
  lemma PutKeeps(h: Hooks, s: Store, elem: Elem, e: Entry, lists: map<(Elem, Key), E.Groups>)
    requires s.Valid() && s.HasData(elem) && lists.Keys <= s.lists.Keys
    requires forall p :: p in s.lists && p.0 != elem ==> p in lists && lists[p] == s.lists[p]
    requires forall p :: p in lists && p.0 == elem ==> "events" in e.keys && p.1 in e.events && Inhabited(lists[p])
    ensures Keeps(h, s, s.Put(elem, e).(lists := lists), elem)
  {
    var t := s.Put(elem, e).(lists := lists);
    assert t.cache.Keys == s.cache.Keys;
    assert t.Numbers() == s.Numbers();
    forall x | x in s.owner && x != elem ensures KeptAsWas(s, t, x) {
      assert s.owner[x] in s.owner.Values;
      assert forall k :: SameList(s, t, (x, k));
    }
    forall p | p in t.lists ensures t.Registered(p.0, p.1) && Inhabited(t.lists[p]) {
      if p.0 != elem { assert s.Registered(p.0, p.1) && s.owner[p.0] != s.owner[elem]; }
    }
  }

  /**
   However cleaning, unbinding and removal are nested in hooks: cleaning keeps the ids valid, frees the element's id,
   and runs no hook twice for one handler list.
   */
  lemma CleanedKeeps(h: Hooks, s: Store, elem: Elem)
    requires Quiet(h) && s.Valid()
    ensures Keeps(h, s, Cleaned(h, s, elem), elem) && elem !in Cleaned(h, s, elem).owner
    decreases s.lists.Keys, 3, 0
  {
    KeepsItself(h, s, elem);
    if elem in s.owner {
      KnownElement(s, elem);
      var id := s.owner[elem];
      var torn := s;
      if s.HasEvents(elem) {
        torn := Swept(h, s, elem, s.cache[id].events, None);
        SweptKeeps(h, s, elem, s.cache[id].events, None);
      }
      StillOwned(s, torn, elem, id);
      if elem in torn.owner {
        FreeKeeps(h, torn, elem);
        KeepsTwice(h, s, torn, Free(torn, elem, id), elem, elem);
      }
    }
  }

  lemma SweptKeeps(h: Hooks, s: Store, elem: Elem, types: seq<Key>, p: Option<E.Pattern>)
    requires Quiet(h) && s.Valid()
    ensures Keeps(h, s, Swept(h, s, elem, types, p), elem)
    decreases s.lists.Keys, 1, |types|
  {
    KeepsItself(h, s, elem);
    if |types| > 0 {
      var t := Visited(h, s, elem, types[0], p);
      VisitedKeeps(h, s, elem, types[0], p);
      SweptKeeps(h, t, elem, types[1..], p);
      KeepsTwice(h, s, t, Swept(h, s, elem, types, p), elem, elem);
    }
  }

  lemma VisitedKeeps(h: Hooks, s: Store, elem: Elem, t: Key, p: Option<E.Pattern>)
    requires Quiet(h) && s.Valid()
    ensures Keeps(h, s, Visited(h, s, elem, t, p), elem)
    decreases s.lists.Keys, 1, 0
  {
    KeepsItself(h, s, elem);
    if p.Some? { UnboundKeeps(h, s, elem, Renamed(h, p.value, t), Mapped(p.value, t)); }
    else { UnboundKeeps(h, s, elem, t, Only(t)); }
  }

  lemma UnboundKeeps(h: Hooks, s: Store, elem: Elem, t: Key, p: E.Pattern)
    requires Quiet(h) && s.Valid()
    ensures Keeps(h, s, Unbound(h, s, elem, t, p), elem)
    decreases s.lists.Keys, 0, 1
  {
    KeepsItself(h, s, elem);
    if s.HasEvents(elem) {
      TornDownKeeps(h, s, elem, t, p);
      var mid := TornDown(h, s, elem, t, p);
      EmptyEventsKeeps(h, mid, elem);
      KeepsTwice(h, s, mid, Unbound(h, s, elem, t, p), elem, elem);
    }
  }

  lemma UnboundAllKeeps(h: Hooks, s: Store, elem: Elem, p: E.Pattern)
    requires Quiet(h) && s.Valid()
    ensures Keeps(h, s, UnboundAll(h, s, elem, p), elem)
    decreases s.lists.Keys, 2, 0
  {
    KeepsItself(h, s, elem);
    if s.HasEvents(elem) {
      var types := s.cache[s.owner[elem]].events;
      SweptKeeps(h, s, elem, types, Some(p));
      var mid := Swept(h, s, elem, types, Some(p));
      EmptyEventsKeeps(h, mid, elem);
      KeepsTwice(h, s, mid, UnboundAll(h, s, elem, p), elem, elem);
    }
  }

  lemma EmptyEventsKeeps(h: Hooks, s: Store, elem: Elem)
    requires s.Valid()
    ensures Keeps(h, s, WithoutEmptyEvents(s, elem), elem)
  {
    KeepsItself(h, s, elem);
    if s.HasEvents(elem) && s.cache[s.owner[elem]].events == [] {
      var e := s.cache[s.owner[elem]];
      var bare := e.(keys := e.keys - {"handle", "events"}, events := []);
      assert forall p :: p in s.lists && p.0 == elem ==> s.Registered(p.0, p.1);
      PutKeeps(h, s, elem, bare, s.lists);
      var t := s.Put(elem, bare);
      assert t.(lists := s.lists) == t;
      if bare.IsEmpty() {
        FreeKeeps(h, t, elem);
        KeepsTwice(h, s, t, Free(t, elem, t.owner[elem]), elem, elem);
      }
    }
  }

  lemma ListsFiltered(s: Store, p: (Elem, Key), pattern: E.Pattern)
    requires s.Valid()
    ensures var t := Filtered(s, p, pattern);
            && t == s.(lists := t.lists)
            && (forall q :: q in s.lists && q != p ==> q in t.lists && t.lists[q] == s.lists[q])
            && (forall q :: q in t.lists ==> Inhabited(t.lists[q]))
  {
  }

  lemma FilteredKeeps(h: Hooks, s: Store, elem: Elem, t: Key, p: E.Pattern)
    requires s.Valid() && s.HasEvents(elem)
    ensures Keeps(h, s, Filtered(s, (elem, t), p), elem)
  {
    var e, r := s.cache[s.owner[elem]], Filtered(s, (elem, t), p);
    ListsFiltered(s, (elem, t), p);
    assert forall q :: q in s.lists && q.0 == elem ==> s.Registered(q.0, q.1);
    hide E.Changed;
    PutKeeps(h, s, elem, e, r.lists);
    assert s.Put(elem, e) == s;
  }

  lemma TornDownKeeps(h: Hooks, s: Store, elem: Elem, t: Key, p: E.Pattern)
    requires Quiet(h) && s.Valid() && s.HasEvents(elem)
    ensures Keeps(h, s, TornDown(h, s, elem, t, p), elem)
    decreases s.lists.Keys, 0, 0
  {
    var left, done := Filtered(s, (elem, t), p), TornDown(h, s, elem, t, p);
    FilteredKeeps(h, s, elem, t, p);
    if (elem, t) in s.lists && (elem, t) !in left.lists {
      var acted := left;
      if p.origType in h.special {
        var start := left.(log := s.log + [Run(elem, t, p.origType)]);
        RunKeeps(h, s, left, elem, t, p.origType);
        HookedActs(h, |s.log|);
        ActedKeeps(h, start, h.acts(|s.log|), elem);
        acted := Acted(h, start, h.acts(|s.log|));
        KeepsTwice(h, s, start, acted, elem, elem);
      }
      WithoutTypeKeeps(h, acted, elem, t);
      KeepsTwice(h, s, acted, done, elem, elem);
    }
  }

  lemma HookedActs(h: Hooks, n: nat)
    requires Quiet(h)
    ensures forall i :: 0 <= i < |h.acts(n)| ==> Silent(h.acts(n)[i]) && Hooked(h, h.acts(n)[i].elem)
  {
  }

  /** The moment before the hook runs. */
  lemma RunKeeps(h: Hooks, s: Store, left: Store, elem: Elem, t: Key, hook: Key)
    requires Keeps(h, s, left, elem) && left.log == s.log
    requires (elem, t) in s.lists && (elem, t) !in left.lists && hook in h.special
    ensures Keeps(h, s, left.(log := s.log + [Run(elem, t, hook)]), elem)
  {
    var r := left.(log := s.log + [Run(elem, t, hook)]);
    assert r.log[|s.log|].List() == (elem, t);
    assert r.Numbers() == left.Numbers();
    assert forall p :: p in r.lists ==> left.Registered(p.0, p.1);
    forall e | e in s.owner && e != elem && !Hooked(h, e) ensures KeptAsWas(s, r, e) {
      assert KeptAsWas(s, left, e);
      forall k ensures SameList(s, r, (e, k)) { assert SameList(s, left, (e, k)); }
    }
  }

  lemma WithoutTypeKeeps(h: Hooks, s: Store, elem: Elem, t: Key)
    requires s.Valid() && (elem, t) !in s.lists
    ensures Keeps(h, s, WithoutType(s, elem, t), elem)
  {
    KeepsItself(h, s, elem);
    if s.HasEvents(elem) {
      var e := s.cache[s.owner[elem]];
      assert forall p :: p in s.lists && p.0 == elem ==> s.Registered(p.0, p.1);
      assert s.lists - {(elem, t)} == s.lists;
      PutKeeps(h, s, elem, e.(events := Others(e.events, t)), s.lists);
    }
  }

  lemma ActedKeeps(h: Hooks, s: Store, acts: seq<Act>, elem: Elem)
    requires Quiet(h) && s.Valid()
    requires forall i :: 0 <= i < |acts| ==> Silent(acts[i]) && Hooked(h, acts[i].elem)
    ensures Keeps(h, s, Acted(h, s, acts), elem)
    decreases s.lists.Keys, 6, |acts|
  {
    KeepsItself(h, s, elem);
    if |acts| > 0 {
      var t := Did(h, s, acts[0]);
      DidKeeps(h, s, acts[0]);
      KeepsTwice(h, s, s, t, elem, acts[0].elem);
      ActedKeeps(h, t, acts[1..], elem);
      KeepsTwice(h, s, t, Acted(h, s, acts), elem, elem);
    }
  }

  lemma TouchKeeps(h: Hooks, s: Store, elem: Elem, stored: set<Key>, pvt: bool)
    requires s.Valid()
    ensures Keeps(h, s, Touched(s, elem, stored, pvt), elem)
  {
    KeepsItself(h, s, elem);
    if s.HasData(elem) {
      var e := Written(s.cache[s.owner[elem]], stored, pvt);
      assert forall p :: p in s.lists && p.0 == elem ==> s.Registered(p.0, p.1);
      PutKeeps(h, s, elem, e, s.lists);
      assert s.Put(elem, e).(lists := s.lists) == Touched(s, elem, stored, pvt);
    }
  }

  /** Every operation that allocates nothing, from a hook or from outside. */
  lemma DidKeeps(h: Hooks, s: Store, a: Act)
    requires Quiet(h) && s.Valid() && !a.Use?
    ensures Keeps(h, s, Did(h, s, a), a.elem)
    decreases s.lists.Keys, 5, 0
  {
    match a
    case Clean(e) => CleanedKeeps(h, s, e);
    case Touch(e, stored, pvt) => TouchKeeps(h, s, e, stored, pvt);
    case Drop(e, names, pvt) => RemovedKeeps(h, s, e, names, pvt);
    case Unbind(e, t, p) => UnboundKeeps(h, s, e, t, p);
    case UnbindAll(e, p) => UnboundAllKeeps(h, s, e, p);
  }

  /** Removing data keeps the ids valid, frees at most ids, and frees the element's own exactly when nothing is left. */
  lemma RemovedKeeps(h: Hooks, s: Store, elem: Elem, names: Option<seq<Key>>, pvt: bool)
    requires Quiet(h) && s.Valid()
    ensures Keeps(h, s, Removed(h, s, elem, names, pvt), elem)
    ensures elem in s.owner ==> s.HasData(elem)
    ensures elem in Removed(h, s, elem, names, pvt).owner <==>
            elem in s.owner && Survives(s.cache[s.owner[elem]], names, pvt)
    decreases s.lists.Keys, 4, 0
  {
    KeepsItself(h, s, elem);
    if elem in s.owner {
      KnownElement(s, elem);
      var e := s.cache[s.owner[elem]];
      var r := Remnant(e, names, pvt);
      var t := Rewritten(s, elem, r);
      ReduceExactly(e, names, pvt);
      PutKeeps(h, s, elem, r, t.lists);
      assert s.Put(elem, r).(lists := t.lists) == t;
      if Reduce(e, names, pvt).None? {
        CleanedKeeps(h, t, elem);
        KeepsTwice(h, s, t, Cleaned(h, t, elem), elem, elem);
      }
    }
  }

  // ---------------------------------------------------------------- which hooks run

  /** The runs for one handler list. */
  function RunsOf(log: seq<Run>, p: (Elem, Key)): (r: seq<Run>)
    ensures r != [] ==> exists i :: 0 <= i < |log| && log[i].List() == p
  {
    if |log| == 0 then []
    else RunsOf(log[..|log| - 1], p) + if log[|log| - 1].List() == p then [log[|log| - 1]] else []
  }

  lemma RunsOfOneMore(log: seq<Run>, r: Run, p: (Elem, Key))
    ensures RunsOf(log + [r], p) == RunsOf(log, p) + if r.List() == p then [r] else []
  {
    assert (log + [r])[..|log|] == log;
  }

  /** No handler of the list matches. */
  predicate Misses(g: E.Groups, pattern: E.Pattern) {
    (forall x :: x in g.delegated ==> !pattern.Matches(x)) && (forall x :: x in g.direct ==> !pattern.Matches(x))
  }

  /** All handlers of the list were bound under this type. */
  predicate AllOf(g: E.Groups, k: Key) {
    (forall x :: x in g.delegated ==> x.origType == k) && (forall x :: x in g.direct ==> x.origType == k)
  }

  function Rest(g: E.Groups, pattern: E.Pattern): E.Groups { E.Changed(g, E.Change.Remove(pattern)) }

  lemma {:induction false} AllSurvive(xs: seq<E.HandleObj>, pattern: E.Pattern)
    requires forall x :: x in xs ==> !pattern.Matches(x)
    ensures E.Survivors(xs, pattern) == xs
    decreases |xs|
  {
    if |xs| == 0 {
    } else {
      AllSurvive(xs[1..], pattern);
      assert !pattern.Matches(xs[0]) && xs == [xs[0]] + xs[1..];
    }
  }

  lemma NoneSurvives(xs: seq<E.HandleObj>, pattern: E.Pattern)
    ensures (forall x :: x in xs ==> pattern.Matches(x)) <==> E.Survivors(xs, pattern) == []
  {
    var r := E.Survivors(xs, pattern);
    if r != [] { assert r[0] in r; }
  }

  lemma RestExactly(g: E.Groups, pattern: E.Pattern)
    ensures Misses(g, pattern) ==> Rest(g, pattern) == g
    ensures Misses(Rest(g, pattern), pattern)
    ensures pattern == Only(pattern.origType) ==> (AllOf(g, pattern.origType) <==> !Inhabited(Rest(g, pattern)))
  {
    NoneSurvives(g.delegated, pattern);
    NoneSurvives(g.direct, pattern);
    if Misses(g, pattern) {
      AllSurvive(g.delegated, pattern);
      AllSurvive(g.direct, pattern);
    }
  }

  /** An act takes no handler of the list away but by cleaning the element. */
  ghost predicate Spares(a: Act, p: (Elem, Key), g: E.Groups) {
    match a
    case Unbind(e, t, pattern) => (e, t) == p ==> Misses(g, pattern)
    case UnbindAll(e, pattern) => e == p.0 ==> Misses(g, Mapped(pattern, p.1))
    case _ => true
  }

  ghost predicate Spared(h: Hooks, s: Store, p: (Elem, Key)) {
    p in s.lists ==> forall n, i :: 0 <= i < |h.acts(n)| ==> Spares(h.acts(n)[i], p, s.lists[p])
  }

  ghost predicate Watched(h: Hooks, s: Store, p: (Elem, Key)) {
    Quiet(h) && s.Valid() && p.1 in h.special && Spared(h, s, p)
  }

  /**
   What may have become of a list: it is as it was, or without the handlers of its own type, and its hook has not run;
   or it is gone, and the hook has run once if all handlers were of its own type, and otherwise not.
   */
  ghost predicate Fate(s: Store, t: Store, p: (Elem, Key)) {
    if p !in s.lists then p !in t.lists && RunsOf(t.log, p) == RunsOf(s.log, p)
    else if p in t.lists then
      (t.lists[p] == s.lists[p] || t.lists[p] == Rest(s.lists[p], Only(p.1))) && RunsOf(t.log, p) == RunsOf(s.log, p)
    else
      RunsOf(t.log, p) == RunsOf(s.log, p) + if AllOf(s.lists[p], p.1) then [Run(p.0, p.1, p.1)] else []
  }

  lemma FateTwice(s: Store, t: Store, u: Store, p: (Elem, Key))
    requires s.Valid() && t.Valid() && Fate(s, t, p) && Fate(t, u, p)
    ensures Fate(s, u, p)
  {
    if p in s.lists && p in t.lists {
      RestExactly(s.lists[p], Only(p.1));
      RestExactly(t.lists[p], Only(p.1));
      if t.lists[p] != s.lists[p] {
        assert Misses(t.lists[p], Only(p.1)) && Inhabited(t.lists[p]);
        SomeOther(t.lists[p], p.1);
      }
    }
  }

  lemma SomeOther(g: E.Groups, k: Key)
    requires Inhabited(g) && Misses(g, Only(k))
    ensures !AllOf(g, k)
  {
    if g.delegated != [] { assert !Only(k).Matches(g.delegated[0]); } else { assert !Only(k).Matches(g.direct[0]); }
  }

  lemma FateItself(s: Store, p: (Elem, Key))
    ensures Fate(s, s, p)
  {
  }

  /** A list that an act spares is spared in all that becomes of it. */
  lemma SparesLess(a: Act, p: (Elem, Key), s: Store, t: Store)
    requires p in s.lists && p in t.lists && Spares(a, p, s.lists[p]) && Fate(s, t, p)
    ensures Spares(a, p, t.lists[p])
  {
    FewerHandlers(s, t, p);
  }

  lemma FewerHandlers(s: Store, t: Store, p: (Elem, Key))
    requires p in s.lists && p in t.lists && Fate(s, t, p)
    ensures forall x :: x in t.lists[p].delegated ==> x in s.lists[p].delegated
    ensures forall x :: x in t.lists[p].direct ==> x in s.lists[p].direct
  {
  }

  lemma StillSpared(h: Hooks, s: Store, t: Store, p: (Elem, Key))
    requires Spared(h, s, p) && Fate(s, t, p)
    ensures Spared(h, t, p)
  {
    if p in t.lists {
      forall n, i | 0 <= i < |h.acts(n)| ensures Spares(h.acts(n)[i], p, t.lists[p]) {
        SparesLess(h.acts(n)[i], p, s, t);
      }
    }
  }

  lemma FreeFate(s: Store, elem: Elem, id: nat, p: (Elem, Key))
    requires elem == p.0 && p in s.lists ==> !AllOf(s.lists[p], p.1)
    ensures Fate(s, Free(s, elem, id), p)
  {
  }

  lemma FilteredFate(s: Store, q: (Elem, Key), pattern: E.Pattern, p: (Elem, Key))
    requires q == p && p in s.lists ==> Misses(s.lists[p], pattern)
    ensures SameList(s, Filtered(s, q, pattern), p) || !s.Valid()
  {
    if p in s.lists { RestExactly(s.lists[p], pattern); }
  }

  /** The call is about another list, spares this one, or is the one `cleanData` makes for it. */
  ghost predicate Mild(h: Hooks, s: Store, q: (Elem, Key), pattern: E.Pattern, p: (Elem, Key)) {
    q == p && p in s.lists ==> Misses(s.lists[p], pattern) || (pattern == Only(p.1) && p.1 in h.special)
  }

  lemma TornDownFate(h: Hooks, s: Store, elem: Elem, t: Key, pattern: E.Pattern, p: (Elem, Key))
    requires Watched(h, s, p) && s.HasEvents(elem) && Mild(h, s, (elem, t), pattern, p)
    ensures Fate(s, TornDown(h, s, elem, t, pattern), p)
    decreases s.lists.Keys, 0, 0
  {
    var left := Filtered(s, (elem, t), pattern);
    FilteredKeeps(h, s, elem, t, pattern);
    if (elem, t) == p && p in s.lists { RestExactly(s.lists[p], pattern); }
    else { FilteredFate(s, (elem, t), pattern, p); }
    assert left.log == s.log;
    if (elem, t) in s.lists && (elem, t) !in left.lists {
      var acted := left;
      if pattern.origType in h.special {
        var r := Run(elem, t, pattern.origType);
        var start := left.(log := s.log + [r]);
        RunKeeps(h, s, left, elem, t, pattern.origType);
        RunsOfOneMore(s.log, r, p);
        assert Fate(s, start, p);
        StillSpared(h, s, start, p);
        acted := Acted(h, start, h.acts(|s.log|));
        HookedActs(h, |s.log|);
        ActedFate(h, start, h.acts(|s.log|), p);
        ActedKeeps(h, start, h.acts(|s.log|), elem);
        FateTwice(s, start, acted, p);
      }
      SameLists(acted, elem, t);
    }
  }

  lemma SameLists(s: Store, elem: Elem, t: Key)
    requires s.Valid() && (elem, t) !in s.lists
    ensures var r := WithoutType(s, elem, t); r.lists == s.lists && r.log == s.log
  {
  }

  lemma EmptyEventsOnly(s: Store, elem: Elem)
    requires s.Valid()
    ensures var r := WithoutEmptyEvents(s, elem); r.lists == s.lists && r.log == s.log
  {
    assert forall p :: p in s.lists ==> s.Registered(p.0, p.1);
  }

  lemma UnboundFate(h: Hooks, s: Store, elem: Elem, t: Key, pattern: E.Pattern, p: (Elem, Key))
    requires Watched(h, s, p) && Mild(h, s, (elem, t), pattern, p)
    ensures Fate(s, Unbound(h, s, elem, t, pattern), p)
    decreases s.lists.Keys, 0, 1
  {
    if s.HasEvents(elem) {
      TornDownFate(h, s, elem, t, pattern, p);
      TornDownKeeps(h, s, elem, t, pattern);
      var mid := TornDown(h, s, elem, t, pattern);
      EmptyEventsOnly(mid, elem);
    }
  }

  /** The list is not left with handlers of its own type only. */
  ghost predicate NotAll(s: Store, p: (Elem, Key)) { p in s.lists ==> !AllOf(s.lists[p], p.1) }

  /** With a pattern, the loop spares the list. */
  ghost predicate Gentle(s: Store, elem: Elem, q: Option<E.Pattern>, p: (Elem, Key)) {
    q.Some? && elem == p.0 && p in s.lists ==> Misses(s.lists[p], Mapped(q.value, p.1))
  }

  lemma VisitedFate(h: Hooks, s: Store, elem: Elem, t: Key, q: Option<E.Pattern>, p: (Elem, Key))
    requires Watched(h, s, p) && Gentle(s, elem, q, p)
    ensures Fate(s, Visited(h, s, elem, t, q), p)
    ensures q.None? && (elem, t) == p ==> NotAll(Visited(h, s, elem, t, q), p)
    decreases s.lists.Keys, 1, 0, 0
  {
    if s.Registered(elem, t) && (q.Some? || t in h.special) {
      if q.Some? { UnboundFate(h, s, elem, Renamed(h, q.value, t), Mapped(q.value, t), p); }
      else { UnboundFate(h, s, elem, t, Only(t), p); }
    }
    if q.None? && (elem, t) == p && p in s.lists { VisitedGone(h, s, p); }
  }

  /** The call of `cleanData` leaves no handlers of the type's own name. */
  lemma VisitedGone(h: Hooks, s: Store, p: (Elem, Key))
    requires Watched(h, s, p) && p in s.lists
    ensures NotAll(Visited(h, s, p.0, p.1, None), p)
  {
    assert s.Registered(p.0, p.1);
    var torn := TornDown(h, s, p.0, p.1, Only(p.1));
    TornDownLeaves(h, s, p);
    TornDownKeeps(h, s, p.0, p.1, Only(p.1));
    EmptyEventsOnly(torn, p.0);
  }

  lemma TornDownLeaves(h: Hooks, s: Store, p: (Elem, Key))
    requires p in s.lists
    ensures NotAll(TornDown(h, s, p.0, p.1, Only(p.1)), p)
  {
    RestExactly(s.lists[p], Only(p.1));
    if p in Filtered(s, p, Only(p.1)).lists { SomeOther(Rest(s.lists[p], Only(p.1)), p.1); }
  }

  lemma VisitedWatched(h: Hooks, s: Store, elem: Elem, t: Key, q: Option<E.Pattern>, p: (Elem, Key))
    requires Watched(h, s, p) && Gentle(s, elem, q, p)
    ensures var r := Visited(h, s, elem, t, q);
            && Fate(s, r, p) && Watched(h, r, p) && Gentle(r, elem, q, p) && s.Valid() && r.Valid() && Quiet(h)
            && (q.None? && (elem, t) == p ==> NotAll(r, p))
    decreases s.lists.Keys, 1, 0, 1
  {
    var r := Visited(h, s, elem, t, q);
    VisitedFate(h, s, elem, t, q, p);
    VisitedKeeps(h, s, elem, t, q);
    StillSpared(h, s, r, p);
    StillGentle(s, r, elem, q, p);
  }

  lemma SweptFate(h: Hooks, s: Store, elem: Elem, types: seq<Key>, q: Option<E.Pattern>, p: (Elem, Key))
    requires Watched(h, s, p) && Gentle(s, elem, q, p)
    ensures Fate(s, Swept(h, s, elem, types, q), p)
    ensures q.None? && elem == p.0 && p.1 in types ==> NotAll(Swept(h, s, elem, types, q), p)
    decreases s.lists.Keys, 1, |types|
  {
    hide Fate, Watched, Gentle, Visited, NotAll;
    if |types| == 0 {
      FateItself(s, p);
    } else {
      var t, end := Visited(h, s, elem, types[0], q), Swept(h, s, elem, types, q);
      VisitedWatched(h, s, elem, types[0], q, p);
      SweptFate(h, t, elem, types[1..], q, p);
      SweptKeeps(h, t, elem, types[1..], q);
      FateTwice(s, t, end, p);
      if NotAll(t, p) { NeverAllAgain(t, end, p); }
    }
  }

  lemma StillGentle(s: Store, t: Store, elem: Elem, q: Option<E.Pattern>, p: (Elem, Key))
    requires Gentle(s, elem, q, p) && Fate(s, t, p)
    ensures Gentle(t, elem, q, p)
  {
    if p in t.lists { FewerHandlers(s, t, p); }
  }

  lemma NeverAllAgain(s: Store, t: Store, p: (Elem, Key))
    requires Fate(s, t, p) && t.Valid() && NotAll(s, p)
    ensures NotAll(t, p)
  {
    if p in t.lists {
      RestExactly(s.lists[p], Only(p.1));
      if t.lists[p] != s.lists[p] { SomeOther(t.lists[p], p.1); }
    }
  }

  lemma CleanedFate(h: Hooks, s: Store, elem: Elem, p: (Elem, Key))
    requires Watched(h, s, p)
    ensures Fate(s, Cleaned(h, s, elem), p)
    decreases s.lists.Keys, 3, 0
  {
    if s.HasData(elem) {
      var id := s.owner[elem];
      var torn := s;
      assert p in s.lists ==> s.Registered(p.0, p.1);
      if s.HasEvents(elem) {
        torn := Swept(h, s, elem, s.cache[id].events, None);
        SweptFate(h, s, elem, s.cache[id].events, None, p);
        SweptKeeps(h, s, elem, s.cache[id].events, None);
      }
      FreeFate(torn, elem, id, p);
      CleanedKeeps(h, s, elem);
      FateTwice(s, torn, Cleaned(h, s, elem), p);
    }
  }

  lemma UnboundAllFate(h: Hooks, s: Store, elem: Elem, pattern: E.Pattern, p: (Elem, Key))
    requires Watched(h, s, p) && Gentle(s, elem, Option.Some(pattern), p)
    ensures Fate(s, UnboundAll(h, s, elem, pattern), p)
    decreases s.lists.Keys, 2, 0
  {
    if s.HasEvents(elem) {
      var types := s.cache[s.owner[elem]].events;
      SweptFate(h, s, elem, types, Some(pattern), p);
      SweptKeeps(h, s, elem, types, Some(pattern));
      var mid := Swept(h, s, elem, types, Some(pattern));
      EmptyEventsOnly(mid, elem);
    }
  }

  lemma RemovedFate(h: Hooks, s: Store, elem: Elem, names: Option<seq<Key>>, pvt: bool, p: (Elem, Key))
    requires Watched(h, s, p)
    requires pvt && names.Some? ==> "events" !in names.value
    ensures Fate(s, Removed(h, s, elem, names, pvt), p)
    decreases s.lists.Keys, 4, 0
  {
    if s.HasData(elem) {
      var e := s.cache[s.owner[elem]];
      var r := Remnant(e, names, pvt);
      var t := Rewritten(s, elem, r);
      EventsStay(e, names, pvt);
      RewrittenSame(s, elem, r);
      hide Remnant, Rewritten;
      FateItself(s, p);
      if Reduce(e, names, pvt).None? {
        assert forall q :: q in s.lists && q.0 == elem ==> s.Registered(q.0, q.1);
        PutKeeps(h, s, elem, r, s.lists);
        assert s.Put(elem, r).(lists := s.lists) == t;
        CleanedFate(h, t, elem, p);
        FateTwice(s, t, Cleaned(h, t, elem), p);
      }
    }
  }

  lemma RewrittenSame(s: Store, elem: Elem, e: Entry)
    requires s.Valid() && s.HasData(elem)
    requires var was := s.cache[s.owner[elem]]; e.events == was.events && ("events" in e.keys <==> "events" in was.keys)
    ensures Rewritten(s, elem, e) == s.Put(elem, e)
  {
    assert forall q :: q in s.lists ==> s.Registered(q.0, q.1);
    assert Rewritten(s, elem, e).lists == s.lists;
  }

  lemma {:induction false} EventsStay(e: Entry, names: Option<seq<Key>>, pvt: bool)
    requires pvt && names.Some? ==> "events" !in names.value
    ensures var r := Remnant(e, names, pvt); r.events == e.events && ("events" in r.keys <==> "events" in e.keys)
    decreases if names.Some? then |names.value| else 0
  {
    if names.Some? && names.value != [] {
      var n := |names.value| - 1;
      EventsStay(WithoutKey(e, names.value[n], pvt), Some(names.value[..n]), pvt);
    }
  }

  lemma DidFate(h: Hooks, s: Store, a: Act, p: (Elem, Key))
    requires Watched(h, s, p) && Silent(a)
    requires p in s.lists ==> Spares(a, p, s.lists[p])
    ensures Fate(s, Did(h, s, a), p)
    decreases s.lists.Keys, 5, 0
  {
    match a
    case Clean(e) => CleanedFate(h, s, e, p);
    case Touch(e, stored, pvt) => assert Did(h, s, a).log == s.log;
    case Drop(e, names, pvt) => RemovedFate(h, s, e, names, pvt, p);
    case Unbind(e, t, pattern) => UnboundFate(h, s, e, t, pattern, p);
    case UnbindAll(e, pattern) => UnboundAllFate(h, s, e, pattern, p);
  }

  lemma DidWatched(h: Hooks, s: Store, a: Act, p: (Elem, Key))
    requires Watched(h, s, p) && Silent(a)
    requires p in s.lists ==> Spares(a, p, s.lists[p])
    ensures var t := Did(h, s, a); Fate(s, t, p) && Watched(h, t, p) && s.Valid() && t.Valid()
    decreases s.lists.Keys, 5, 1
  {
    DidFate(h, s, a, p);
    DidKeeps(h, s, a);
    StillSpared(h, s, Did(h, s, a), p);
  }

  lemma ActsSpare(s: Store, t: Store, acts: seq<Act>, p: (Elem, Key))
    requires Fate(s, t, p)
    requires p in s.lists ==> forall i :: 0 <= i < |acts| ==> Spares(acts[i], p, s.lists[p])
    ensures p in t.lists ==> forall i :: 0 <= i < |acts| ==> Spares(acts[i], p, t.lists[p])
  {
    if p in t.lists {
      forall i | 0 <= i < |acts| ensures Spares(acts[i], p, t.lists[p]) { SparesLess(acts[i], p, s, t); }
    }
  }

  lemma ActedFate(h: Hooks, s: Store, acts: seq<Act>, p: (Elem, Key))
    requires Watched(h, s, p)
    requires forall i :: 0 <= i < |acts| ==> Silent(acts[i])
    requires p in s.lists ==> forall i :: 0 <= i < |acts| ==> Spares(acts[i], p, s.lists[p])
    ensures Fate(s, Acted(h, s, acts), p)
    decreases s.lists.Keys, 6, |acts|
  {
    hide Did, Spares, Silent, Fate, Watched;
    if |acts| == 0 {
      FateItself(s, p);
    } else {
      var t := Did(h, s, acts[0]);
      DidWatched(h, s, acts[0], p);
      ActsSpare(s, t, acts, p);
      ActedFate(h, t, acts[1..], p);
      FateTwice(s, t, Acted(h, s, acts), p);
    }
  }

  /**
   Cleaning runs the hook of a special type exactly once if all handlers of its list were bound under that type, and not
   at all otherwise, however the hooks clean, remove and unbind meanwhile, as long as they leave this list alone.
   */
  lemma HookRunsExactly(h: Hooks, s: Store, elem: Elem, k: Key)
    requires Quiet(h) && s.Valid() && (elem, k) in s.lists && k in h.special && Spared(h, s, (elem, k))
    ensures RunsOf(Cleaned(h, s, elem).log, (elem, k))
         == RunsOf(s.log, (elem, k)) + if AllOf(s.lists[(elem, k)], k) then [Run(elem, k, k)] else []
  {
    CleanedFate(h, s, elem, (elem, k));
    CleanedKeeps(h, s, elem);
    var t := Cleaned(h, s, elem);
    assert (elem, k) in t.lists ==> t.Registered(elem, k);
  }

  /**
   `$(d).on("focus", "input", f)` stores `f` under "focusin", with "focus" as its original type. Cleaning then does not
   run the hook of "focusin". Nor does `$(d).off("focus", "input")`, which takes the handler out.
   */
  lemma FocusInside(acts: nat -> seq<Act>)
    ensures var h := Hooks({"focusin"}, map["focus" := "focusin"], acts);
            var g := E.Groups([E.HandleObj("focus", 1, "input", "")], []);
            var s := Store(2, [], map[1 := 1], map[1 := Entry({"events", "handle"}, ["focusin"], {})],
                           map[(1, "focusin") := g], []);
            s.Valid() && Cleaned(h, s, 1).log == [] && Cleaned(h, s, 1).lists == map[]
            && var p := E.Pattern(false, "focus", None, None, "input");
               var t := Unbound(h, s, 1, "focusin", p); t.log == [] && t.lists == map[]
  {
    var h := Hooks({"focusin"}, map["focus" := "focusin"], acts);
    var x := E.HandleObj("focus", 1, "input", "");
    var g := E.Groups([x], []);
    var s := Store(2, [], map[1 := 1], map[1 := Entry({"events", "handle"}, ["focusin"], {})],
                   map[(1, "focusin") := g], []);
    assert s.Valid() by { assert s.owner[1] in s.owner.Values; assert s.owner.Values == {1}; }
    var p := E.Pattern(false, "focus", None, None, "input");
    NoneSurvives([x], p);
    HookUntouched(h, s, g);
    OffUntouched(h, s, p, g);
  }

  lemma HookUntouched(h: Hooks, s: Store, g: E.Groups)
    requires s.owner == map[1 := 1] && s.cache == map[1 := Entry({"events", "handle"}, ["focusin"], {})] && s.log == []
    requires s.lists == map[(1, "focusin") := g] && Inhabited(g) && Misses(g, Only("focusin"))
    ensures Cleaned(h, s, 1).log == [] && Cleaned(h, s, 1).lists == map[]
  {
    RestExactly(g, Only("focusin"));
    assert Filtered(s, (1, "focusin"), Only("focusin")) == s;
    assert TornDown(h, s, 1, "focusin", Only("focusin")) == s && WithoutEmptyEvents(s, 1) == s;
    assert Visited(h, s, 1, "focusin", None) == s;
    OneType(h, s, 1, "focusin");
    hide Swept, Visited;
    assert Cleaned(h, s, 1) == Free(s, 1, 1);
  }

  lemma OffUntouched(h: Hooks, s: Store, p: E.Pattern, g: E.Groups)
    requires s.owner == map[1 := 1] && s.cache == map[1 := Entry({"events", "handle"}, ["focusin"], {})] && s.log == []
    requires s.lists == map[(1, "focusin") := g] && !Inhabited(Rest(g, p)) && p.origType !in h.special
    ensures var t := Unbound(h, s, 1, "focusin", p); t.log == [] && t.lists == map[]
  {
    var left := Filtered(s, (1, "focusin"), p);
    assert left == s.(lists := map[]) by { assert s.lists - {(1, "focusin")} == map[]; }
    var torn := TornDown(h, s, 1, "focusin", p);
    assert torn == WithoutType(left, 1, "focusin");
    hide TornDown;
    assert torn.lists == map[] && torn.log == [];
  }

  /**
   `$(d).off(".a", "input")` with a direct handler of "focus" and a delegated one of namespace "a", which stands under
   "focusin". Whether the hook of "focusin" runs depends on which of the two was bound first.
   */
  lemma OrderMatters(focusFirst: bool)
    ensures var h := Hooks({"focusin"}, map["focus" := "focusin"], n => []);
            var events := if focusFirst then ["focus", "focusin"] else ["focusin", "focus"];
            var s := Store(2, [], map[1 := 1], map[1 := Entry({"events", "handle"}, events, {})],
                           map[(1, "focus") := DirectFocus(), (1, "focusin") := DelegatedFocus()], []);
            var t := UnboundAll(h, s, 1, InNamespaceA());
            && s.Valid() && t.lists == map[(1, "focus") := DirectFocus()]
            && t.log == if focusFirst then [] else [Run(1, "focusin", "focusin")]
  {
    var h := Hooks({"focusin"}, map["focus" := "focusin"], n => []);
    var events := if focusFirst then ["focus", "focusin"] else ["focusin", "focus"];
    var s := Store(2, [], map[1 := 1], map[1 := Entry({"events", "handle"}, events, {})],
                   map[(1, "focus") := DirectFocus(), (1, "focusin") := DelegatedFocus()], []);
    assert s.Valid() by { assert s.owner[1] in s.owner.Values; assert s.owner.Values == {1}; }
    var t := Visited(h, s, 1, events[0], Some(InNamespaceA()));
    OffFocusin(h, s, events[0]);
    assert t.Registered(1, "focus") && !t.Registered(1, "focusin");
    assert Visited(h, t, 1, events[1], Some(InNamespaceA())) == t by {
      if !focusFirst { NothingThere(h, t, 1, "focusin", Mapped(InNamespaceA(), "focus")); }
    }
    TwoTypes(h, s, 1, events[0], events[1], Some(InNamespaceA()));
    hide Swept, Visited;
    assert WithoutEmptyEvents(t, 1) == t;
  }

  lemma NothingThere(h: Hooks, s: Store, elem: Elem, t: Key, p: E.Pattern)
    requires (elem, t) !in s.lists && s.HasEvents(elem) && s.cache[s.owner[elem]].events != []
    ensures Unbound(h, s, elem, t, p) == s
  {
    assert TornDown(h, s, elem, t, p) == s;
  }

  lemma TwoTypes(h: Hooks, s: Store, elem: Elem, a: Key, b: Key, p: Option<E.Pattern>)
    ensures Swept(h, s, elem, [a, b], p) == Visited(h, Visited(h, s, elem, a, p), elem, b, p)
  {
    var t := Visited(h, s, elem, a, p);
    var u := Visited(h, t, elem, b, p);
    assert [a, b][1..] == [b] && [b][1..] == [];
    assert Swept(h, t, elem, [b], p) == Swept(h, u, elem, [], p) == u;
  }

  /** The delegated handler goes, and the hook is looked up under the type visited. */
  lemma OffFocusin(h: Hooks, s: Store, k: Key)
    requires h.special == {"focusin"} && h.delegateType == map["focus" := "focusin"] && h.acts(0) == []
    requires k == "focus" || k == "focusin"
    requires s.owner == map[1 := 1] && 1 in s.cache && "events" in s.cache[1].keys && s.log == []
    requires "focus" in s.cache[1].events && "focusin" in s.cache[1].events
    requires s.lists == map[(1, "focus") := DirectFocus(), (1, "focusin") := DelegatedFocus()]
    ensures var t := Visited(h, s, 1, k, Some(InNamespaceA()));
            && t.lists == map[(1, "focus") := DirectFocus()] && t.owner == s.owner
            && t.cache == s.cache[1 := s.cache[1].(events := Others(s.cache[1].events, "focusin"))]
            && t.log == if k == "focus" then [] else [Run(1, "focusin", "focusin")]
  {
    var q, g := Mapped(InNamespaceA(), k), DelegatedFocus();
    assert Renamed(h, InNamespaceA(), k) == "focusin";
    assert Rest(g, q) == E.Groups([], []) by { assert q.Matches(g.delegated[0]); NoneSurvives(g.delegated, q); }
    var left := Filtered(s, (1, "focusin"), q);
    assert left.lists == map[(1, "focus") := DirectFocus()];
    var ran := left.(log := [Run(1, "focusin", "focusin")]);
    assert Acted(h, ran, []) == ran;
    assert [] + [Run(1, "focusin", "focusin")] == [Run(1, "focusin", "focusin")];
    var torn := TornDown(h, s, 1, "focusin", q);
    assert torn == WithoutType(if k == "focus" then left else ran, 1, "focusin");
    assert "focus" in Others(s.cache[1].events, "focusin");
    assert WithoutEmptyEvents(torn, 1) == torn;
  }

  function DirectFocus(): E.Groups { E.Groups([], [E.HandleObj("focus", 1, "", "b")]) }

  function DelegatedFocus(): E.Groups { E.Groups([E.HandleObj("focus", 2, "input", "a")], []) }

  function InNamespaceA(): E.Pattern { E.Pattern(false, "", None, Some(n => n == "a"), "input") }

  lemma OneType(h: Hooks, s: Store, elem: Elem, k: Key)
    ensures Swept(h, s, elem, [k], None) == Visited(h, s, elem, k, None)
  {
    var t := Visited(h, s, elem, k, None);
    assert [k][1..] == [] && Swept(h, t, elem, [], None) == t;
  }

  // ---------------------------------------------------------------- hooks that allocate

  /** With hooks of any kind, the end of a clean is right exactly when the id is not live or still the element's. */
  lemma CleanedExactly(h: Hooks, s: Store, elem: Elem)
    requires s.HasEvents(elem) && Swept(h, s, elem, s.cache[s.owner[elem]].events, None).Numbers().Valid()
    ensures var id, torn := s.owner[elem], Swept(h, s, elem, s.cache[s.owner[elem]].events, None);
            Cleaned(h, s, elem).Numbers().Valid()
            <==> id !in torn.cache || (elem in torn.owner && torn.owner[elem] == id)
  {
    var id, torn := s.owner[elem], Swept(h, s, elem, s.cache[s.owner[elem]].events, None);
    ReleaseExactly(torn.Numbers(), elem, id);
    assert Free(torn, elem, id).Numbers() == Release(torn.Numbers(), elem, id);
  }

  /** Hooks that only store data. */
  ghost predicate Storing(h: Hooks) {
    forall n, i :: 0 <= i < |h.acts(n)| ==> Stores(h.acts(n)[i])
  }

  predicate Stores(a: Act) { a.Use? || a.Touch? }

  /** The id is the element's, or nobody's. */
  ghost predicate Held(s: Store, elem: Elem, id: nat) {
    s.Valid() && if elem in s.owner then s.owner[elem] == id else id !in s.cache
  }

  /** Nobody's id changes. */
  ghost predicate Same(s: Store, t: Store) {
    t.Valid() && forall e :: e in s.owner ==> e in t.owner && t.owner[e] == s.owner[e]
  }

  lemma PutStays(s: Store, elem: Elem, e: Entry, lists: map<(Elem, Key), E.Groups>)
    requires s.Valid() && s.HasData(elem)
    requires forall p :: p in lists && p.0 != elem ==> p in s.lists
    requires forall p :: p in lists && p.0 == elem ==> "events" in e.keys && p.1 in e.events
    requires forall p :: p in lists ==> Inhabited(lists[p])
    ensures Same(s, s.Put(elem, e).(lists := lists)) && s.Put(elem, e).(lists := lists).Numbers() == s.Numbers()
  {
    var t := s.Put(elem, e).(lists := lists);
    assert t.cache.Keys == s.cache.Keys && t.Numbers() == s.Numbers();
    forall p | p in t.lists ensures t.Registered(p.0, p.1) {
      if p.0 != elem { assert s.Registered(p.0, p.1) && s.owner[p.0] != s.owner[elem]; }
    }
  }

  lemma IdentifiedKeeps(s: Store, elem: Elem)
    requires s.Valid()
    ensures var t := Identified(s, elem);
            && Same(s, t) && t.lists == s.lists && t.log == s.log
            && t.Numbers() == (if elem in s.owner then s.Numbers() else Allocate(s.Numbers(), elem).0)
            && (elem in s.owner ==> t == s)
            && (elem !in s.owner ==>
                  t.cache == s.cache[t.owner[elem] := Entry({}, [], {})] && t.owner[elem] !in s.cache)
  {
    if elem in s.owner {
      KnownElement(s, elem);
      assert Identified(s, elem) == s;
    } else {
      var (ids, id) := Allocate(s.Numbers(), elem);
      AllocateKeeps(s.Numbers(), elem);
      var t := Identified(s, elem);
      assert t.Numbers() == ids;
      forall p | p in t.lists ensures t.Registered(p.0, p.1) { assert s.Registered(p.0, p.1); }
    }
  }

  lemma UsedKeeps(s: Store, elem: Elem)
    requires s.Valid()
    ensures Same(s, Used(s, elem)) && Used(s, elem).lists == s.lists
  {
    IdentifiedKeeps(s, elem);
    var t := Identified(s, elem);
    assert forall p :: p in t.lists ==> t.Registered(p.0, p.1);
    PutStays(t, elem, Written(t.cache[t.owner[elem]], {"used"}, true), t.lists);
    assert t.Put(elem, Written(t.cache[t.owner[elem]], {"used"}, true)).(lists := t.lists) == Used(s, elem);
  }

  lemma StoreActs(h: Hooks, s: Store, acts: seq<Act>)
    requires s.Valid() && forall i :: 0 <= i < |acts| ==> Stores(acts[i])
    ensures Same(s, Acted(h, s, acts)) && Acted(h, s, acts).lists == s.lists
    decreases |acts|
  {
    if |acts| > 0 {
      if acts[0].Use? { UsedKeeps(s, acts[0].elem); }
      else { TouchKeeps(h, s, acts[0].elem, acts[0].stored, acts[0].pvt); }
      StoreActs(h, Did(h, s, acts[0]), acts[1..]);
    }
  }

  lemma TornDownStays(h: Hooks, s: Store, elem: Elem, t: Key, p: E.Pattern)
    requires Storing(h) && s.Valid() && s.HasEvents(elem)
    ensures Same(s, TornDown(h, s, elem, t, p))
  {
    var left := Filtered(s, (elem, t), p);
    FilteredKeeps(h, s, elem, t, p);
    ListsFiltered(s, (elem, t), p);
    hide Filtered;
    if (elem, t) in s.lists && (elem, t) !in left.lists {
      var acted := left;
      if p.origType in h.special {
        var start := left.(log := s.log + [Run(elem, t, p.origType)]);
        SameNumbers(left, start);
        acted := Acted(h, start, h.acts(|s.log|));
        StoreActs(h, start, h.acts(|s.log|));
      }
      WithoutTypeStays(h, acted, elem, t);
    }
  }

  lemma WithoutTypeStays(h: Hooks, s: Store, elem: Elem, t: Key)
    requires s.Valid() && (elem, t) !in s.lists
    ensures Same(s, WithoutType(s, elem, t))
  {
    WithoutTypeKeeps(h, s, elem, t);
    assert WithoutType(s, elem, t).owner == s.owner;
  }

  lemma SameNumbers(s: Store, t: Store)
    requires s.Valid() && t == s.(log := t.log)
    ensures t.Valid()
  {
    assert t.Numbers() == s.Numbers();
    assert forall p :: p in t.lists ==> s.Registered(p.0, p.1);
  }

  lemma UnboundHeld(h: Hooks, s: Store, elem: Elem, t: Key, p: E.Pattern)
    requires Storing(h) && s.Valid() && s.HasEvents(elem)
    ensures Held(Unbound(h, s, elem, t, p), elem, s.owner[elem])
  {
    TornDownStays(h, s, elem, t, p);
    EmptyEventsHeld(h, TornDown(h, s, elem, t, p), elem);
  }

  lemma EmptyEventsHeld(h: Hooks, s: Store, elem: Elem)
    requires s.Valid() && elem in s.owner
    ensures Held(WithoutEmptyEvents(s, elem), elem, s.owner[elem])
  {
    EmptyEventsKeeps(h, s, elem);
    StillOwned(s, WithoutEmptyEvents(s, elem), elem, s.owner[elem]);
  }

  lemma SweptHeld(h: Hooks, s: Store, elem: Elem, types: seq<Key>, p: Option<E.Pattern>, id: nat)
    requires Storing(h) && Held(s, elem, id)
    ensures Held(Swept(h, s, elem, types, p), elem, id)
    decreases |types|
  {
    if |types| > 0 {
      if s.Registered(elem, types[0]) {
        if p.Some? { UnboundHeld(h, s, elem, Renamed(h, p.value, types[0]), Mapped(p.value, types[0])); }
        else { UnboundHeld(h, s, elem, types[0], Only(types[0])); }
      }
      SweptHeld(h, Visited(h, s, elem, types[0], p), elem, types[1..], p, id);
    }
  }

  /** Hooks that allocate and never free are harmless too: an id freed early is freed after the last hook. */
  lemma StoringKeeps(h: Hooks, s: Store, elem: Elem)
    requires Storing(h) && s.Valid()
    ensures Cleaned(h, s, elem).Valid() && elem !in Cleaned(h, s, elem).owner
  {
    if elem in s.owner {
      KnownElement(s, elem);
      var id := s.owner[elem];
      var torn := if s.HasEvents(elem) then Swept(h, s, elem, s.cache[id].events, None) else s;
      if s.HasEvents(elem) { SweptHeld(h, s, elem, s.cache[id].events, None, id); }
      if elem in torn.owner { FreeKeeps(h, torn, elem); }
    }
  }

  /**
   Element 1 is cleaned. Its hook cleans it again and then stores data on element 2, which takes the id just freed; the
   end of the outer clean frees that id once more, under its new owner.
   */
  lemma StolenId()
    ensures var h := Hooks({"x"}, map[], n => [Clean(1), Use(2)]);
            var g := E.Groups([], [E.HandleObj("x", 1, "", "")]);
            var s := Store(2, [], map[1 := 1], map[1 := Entry({"events", "handle"}, ["x"], {})],
                           map[(1, "x") := g], []);
            s.Valid() && !Cleaned(h, s, 1).Numbers().Valid()
            && 2 in Cleaned(h, s, 1).owner && Cleaned(h, s, 1).owner[2] in Cleaned(h, s, 1).deleted
  {
    var h := Hooks({"x"}, map[], n => [Clean(1), Use(2)]);
    var x := E.HandleObj("x", 1, "", "");
    var g := E.Groups([], [x]);
    var s := Store(2, [], map[1 := 1], map[1 := Entry({"events", "handle"}, ["x"], {})], map[(1, "x") := g], []);
    assert s.Valid() by { assert s.owner[1] in s.owner.Values; assert s.owner.Values == {1}; }
    assert Rest(g, Only("x")) == E.Groups([], []) by { assert Only("x").Matches(x); NoneSurvives([x], Only("x")); }
    assert Filtered(s, (1, "x"), Only("x")) == s.(lists := map[]) by { assert s.lists - {(1, "x")} == map[]; }
    var start := s.(lists := map[], log := [Run(1, "x", "x")]);
    assert [] + [Run(1, "x", "x")] == [Run(1, "x", "x")];
    HookSteals(h, start);
    var stolen := Acted(h, start, h.acts(0));
    assert TornDown(h, s, 1, "x", Only("x")) == stolen && Visited(h, s, 1, "x", None) == stolen;
    OneType(h, s, 1, "x");
    FreedForOther(stolen);
  }

  /** Freeing id 1 in the name of element 1, when it has gone to element 2. */
  lemma FreedForOther(s: Store)
    requires s.owner == map[2 := 1] && s.deleted == [] && s.cache.Keys == {1}
    ensures var t := Free(s, 1, 1); t.owner == map[2 := 1] && t.deleted == [1] && !t.Numbers().Valid()
  {
    var t := Free(s, 1, 1);
    assert t.owner == map[2 := 1] && t.deleted == [1];
    assert t.owner[2] in t.owner.Values;
  }

  /** The hook: the type it belongs to has no handlers any more, so the inner clean runs no hook. */
  lemma HookSteals(h: Hooks, s: Store)
    requires h.acts(0) == [Clean(1), Use(2)] && s.lists == map[] && s.deleted == []
    requires s.owner == map[1 := 1] && s.cache == map[1 := Entry({"events", "handle"}, ["x"], {})]
    ensures var r := Acted(h, s, h.acts(0));
            r.owner == map[2 := 1] && r.deleted == [] && r.cache.Keys == {1} && !r.HasData(1)
  {
    NothingLeft(h, s, 1, "x");
    TwoActs(h, s, 1, 2);
    hide Cleaned, Acted;
    var freed := Free(s, 1, 1);
    assert freed.deleted == [1] && freed.owner == map[] && freed.cache == map[];
    hide Free;
    TakesFreedId(freed);
  }

  lemma TakesFreedId(s: Store)
    requires s.deleted == [1] && s.owner == map[] && s.cache == map[]
    ensures var r := Used(s, 2); r.owner == map[2 := 1] && r.deleted == [] && r.cache.Keys == {1}
  {
  }

  /** Cleaning an element whose only type has no handlers any more. */
  lemma NothingLeft(h: Hooks, s: Store, elem: Elem, k: Key)
    requires s.HasEvents(elem) && s.cache[s.owner[elem]].events == [k] && (elem, k) !in s.lists
    ensures Cleaned(h, s, elem) == Free(s, elem, s.owner[elem])
  {
    var p := Only(k);
    assert TornDown(h, s, elem, k, p) == s;
    assert WithoutEmptyEvents(s, elem) == s;
    assert Unbound(h, s, elem, k, p) == s;
    OneType(h, s, elem, k);
  }

  lemma TwoActs(h: Hooks, s: Store, a: Elem, b: Elem)
    ensures Acted(h, s, [Clean(a), Use(b)]) == Used(Cleaned(h, s, a), b)
  {
    var t := Cleaned(h, s, a);
    var u := Used(t, b);
    assert [Clean(a), Use(b)][1..] == [Use(b)] && [Use(b)][1..] == [];
    assert Acted(h, u, []) == u && Acted(h, t, [Use(b)]) == u;
  }

  // ---------------------------------------------------------------- storing data and binding

  /** What `internalData` is asked: one datum to read or to write, an object of data to merge, or everything. */
  datatype Request = Read(name: Key) | Write(name: Key) | Merge(names: set<Key>) | All

  /** The keys a request stores: a single name in camel case, an object's names as they are. */
  function Stored(r: Request, camel: Key -> Key): set<Key> {
    match r
    case Read(_) => {}
    case Write(name) => {camel(name)}
    case Merge(names) => names
    case All => {}
  }

  /** As it is first, then in camel case. */
  predicate Found(e: Entry, name: Key, pvt: bool, camel: Key -> Key) {
    Holds(e, name, pvt) || Holds(e, camel(name), pvt)
  }

  /** `internalData`. A lookup by name of data that is not there allocates nothing. */
  function Asked(s: Store, elem: Elem, r: Request, pvt: bool, camel: Key -> Key): Store {
    if r.Read? && (!s.HasData(elem) || (!pvt && "data" !in s.cache[s.owner[elem]].keys)) then s
    else
      var t := Identified(s, elem);
      t.Put(elem, Written(t.cache[t.owner[elem]], Stored(r, camel), pvt))
  }

  /** What `event.add` does to the data of the element. */
  function Bound(s: Store, elem: Elem, typ: Key, x: E.HandleObj): Store {
    var t := Identified(s, elem);
    var e := t.cache[t.owner[elem]];
    var g := if (elem, typ) in s.lists then s.lists[(elem, typ)] else E.Groups([], []);
    t.Put(elem, WithType(e, typ)).(lists := s.lists[(elem, typ) := E.Changed(g, E.Change.Add(x))])
  }

  function WithType(e: Entry, typ: Key): Entry {
    var types := if "events" in e.keys then e.events else [];
    e.(keys := e.keys + {"events", "handle"}, events := if typ in types then types else types + [typ])
  }

  /** Asking gives an id only where there is none and data come or may come, and touches no other entry. */
  lemma AskedKeeps(s: Store, elem: Elem, r: Request, pvt: bool, camel: Key -> Key)
    requires s.Valid()
    ensures var t := Asked(s, elem, r, pvt, camel);
            && t.Valid() && t.lists == s.lists && t.log == s.log
            && t.Numbers() == (if elem in s.owner || r.Read? then s.Numbers() else Allocate(s.Numbers(), elem).0)
            && (forall e :: e in s.owner && e != elem ==> KeptAsWas(s, t, e))
            && (elem in s.owner ==>
                  && s.HasData(elem) && t.HasData(elem)
                  && Grows(s.cache[s.owner[elem]], t.cache[t.owner[elem]], Stored(r, camel), pvt))
            && (!r.Read? ==>
                  t.HasData(elem) && forall k :: k in Stored(r, camel) ==> Holds(t.cache[t.owner[elem]], k, pvt))
            && (r.Read? && elem !in s.owner ==> t == s)
  {
    var t := Asked(s, elem, r, pvt, camel);
    if elem in s.owner { KnownElement(s, elem); }
    if r.Read? && (!s.HasData(elem) || (!pvt && "data" !in s.cache[s.owner[elem]].keys)) {
      forall e | e in s.owner ensures KeptAsWas(s, t, e) { assert s.owner[e] in s.owner.Values; }
    } else {
      var i := Identified(s, elem);
      var was := i.cache[i.owner[elem]];
      IdentifiedKeeps(s, elem);
      WrittenGrows(was, Stored(r, camel), pvt);
      assert forall q :: q in i.lists && q.0 == elem ==> i.Registered(q.0, q.1);
      PutStays(i, elem, Written(was, Stored(r, camel), pvt), i.lists);
      assert i.Put(elem, Written(was, Stored(r, camel), pvt)).(lists := i.lists) == t;
      OthersKept(s, i, t, elem);
    }
  }

  /** Identifying an element and changing its entry leave the others alone. */
  lemma OthersKept(s: Store, i: Store, t: Store, elem: Elem)
    requires s.Valid() && i == Identified(s, elem) && i.Valid()
    requires t.owner == i.owner && i.owner[elem] in t.cache
    requires t.cache == i.cache[i.owner[elem] := t.cache[i.owner[elem]]]
    requires forall q :: q in s.lists && q.0 != elem ==> q in t.lists && t.lists[q] == s.lists[q]
    requires forall q :: q in t.lists && q.0 != elem ==> q in s.lists
    ensures forall e :: e in s.owner && e != elem ==> KeptAsWas(s, t, e)
  {
    IdentifiedKeeps(s, elem);
    forall e | e in s.owner && e != elem ensures KeptAsWas(s, t, e) {
      assert s.owner[e] in s.owner.Values;
      assert i.owner[e] != i.owner[elem];
      assert forall k :: SameList(s, t, (e, k));
    }
  }

  /** Binding touches no other element, and gives an id only where there is none. */
  lemma BoundKeeps(s: Store, elem: Elem, typ: Key, x: E.HandleObj)
    requires s.Valid()
    ensures var t := Bound(s, elem, typ, x);
            && t.Valid() && t.log == s.log
            && t.Numbers() == (if elem in s.owner then s.Numbers() else Allocate(s.Numbers(), elem).0)
            && (forall e :: e in s.owner && e != elem ==> KeptAsWas(s, t, e))
  {
    var i, t := Identified(s, elem), Bound(s, elem, typ, x);
    var e := WithType(i.cache[i.owner[elem]], typ);
    IdentifiedKeeps(s, elem);
    BoundLists(s, elem, typ, x);
    BoundTypes(s, elem, typ, x);
    BoundOthers(s, elem, typ, x);
    assert t == i.Put(elem, e).(lists := t.lists);
    hide Bound, Identified, WithType;
    PutStays(i, elem, e, t.lists);
  }

  lemma BoundTypes(s: Store, elem: Elem, typ: Key, x: E.HandleObj)
    requires s.Valid()
    ensures var i := Identified(s, elem);
            var e := WithType(i.cache[i.owner[elem]], typ);
            forall q :: q in Bound(s, elem, typ, x).lists && q.0 == elem ==> "events" in e.keys && q.1 in e.events
  {
    IdentifiedKeeps(s, elem);
    assert forall q :: q in s.lists ==> Identified(s, elem).Registered(q.0, q.1);
    BoundLists(s, elem, typ, x);
  }

  lemma BoundOthers(s: Store, elem: Elem, typ: Key, x: E.HandleObj)
    requires s.Valid()
    ensures forall e :: e in s.owner && e != elem ==> KeptAsWas(s, Bound(s, elem, typ, x), e)
  {
    BoundLists(s, elem, typ, x);
    IdentifiedKeeps(s, elem);
    OthersKept(s, Identified(s, elem), Bound(s, elem, typ, x), elem);
  }

  /** Of the element itself, binding adds the type, and the handler to the list of this type only. */
  lemma BoundExactly(s: Store, elem: Elem, typ: Key, x: E.HandleObj)
    requires s.Valid()
    ensures var t := Bound(s, elem, typ, x);
            && (forall k :: t.Registered(elem, k) <==> k == typ || s.Registered(elem, k))
            && (forall k :: k != typ ==> SameList(s, t, (elem, k)))
            && (elem, typ) in t.lists
            && (var g := t.lists[(elem, typ)]; if x.Delegated() then x in g.delegated else x in g.direct)
  {
    IdentifiedKeeps(s, elem);
    BoundLists(s, elem, typ, x);
    if elem in s.owner { KnownElement(s, elem); }
  }

  lemma BoundLists(s: Store, elem: Elem, typ: Key, x: E.HandleObj)
    requires s.Valid()
    ensures var t := Bound(s, elem, typ, x);
            && t.lists.Keys == s.lists.Keys + {(elem, typ)}
            && (forall q :: q in t.lists && q != (elem, typ) ==> t.lists[q] == s.lists[q])
            && (forall q :: q in t.lists ==> Inhabited(t.lists[q]))
  {
  }

  // ---------------------------------------------------------------- whole runs

  /** What may happen: a number drawn elsewhere, a request, a handler bound, or one of the other operations. */
  datatype Op =
    | TakeGuid
    | Ask(elem: Elem, request: Request, pvt: bool)
    | Bind(elem: Elem, typ: Key, x: E.HandleObj)
    | Do(a: Act)

  function Performed(h: Hooks, camel: Key -> Key, s: Store, op: Op): Store {
    match op
    case TakeGuid => s.(guid := s.guid + 1)
    case Ask(elem, r, pvt) => Asked(s, elem, r, pvt, camel)
    case Bind(elem, typ, x) => Bound(s, elem, typ, x)
    case Do(a) => Did(h, s, a)
  }

  function Fresh(): Store { Store(1, [], map[], map[], map[], []) }

  function After(h: Hooks, camel: Key -> Key, ops: seq<Op>): Store
    decreases |ops|
  {
    if |ops| == 0 then Fresh() else Performed(h, camel, After(h, camel, ops[..|ops| - 1]), ops[|ops| - 1])
  }

  /** The numbers other code has drawn from the counter. */
  ghost function Taken(h: Hooks, camel: Key -> Key, ops: seq<Op>): set<nat>
    decreases |ops|
  {
    if |ops| == 0 then {}
    else
      var before, op := ops[..|ops| - 1], ops[|ops| - 1];
      Taken(h, camel, before) + if op.TakeGuid? then {After(h, camel, before).guid} else {}
  }

  /** Every number below the counter was drawn elsewhere or is an id, live or on the free list, and never both. */
  ghost predicate Accounted(s: Store, taken: set<nat>) {
    && (forall x :: 0 < x < s.guid <==> x in taken || x in Known(s.Numbers()))
    && taken !! Known(s.Numbers())
  }

  lemma AllocateAccounts(s: Store, t: Store, elem: Elem, taken: set<nat>)
    requires s.Valid() && Accounted(s, taken)
    requires t.Numbers() == (if elem in s.owner then s.Numbers() else Allocate(s.Numbers(), elem).0)
    ensures Accounted(t, taken)
  {
    assert t.guid == t.Numbers().guid;
    if elem !in s.owner {
      var n := |s.deleted|;
      if n > 0 {
        assert forall x :: x in s.deleted <==> x in s.deleted[..n - 1] || x == s.deleted[n - 1];
        assert Known(t.Numbers()) == Known(s.Numbers());
      } else {
        assert Known(t.Numbers()) == Known(s.Numbers()) + {s.guid};
      }
    }
  }

  /** Each operation keeps the ids right. */
  lemma PerformedKeeps(h: Hooks, camel: Key -> Key, s: Store, op: Op)
    requires Quiet(h) && s.Valid()
    ensures Performed(h, camel, s, op).Valid()
  {
    var t := Performed(h, camel, s, op);
    match op
    case TakeGuid =>
      assert t.Numbers() == s.Numbers().(guid := t.guid);
      assert forall p :: p in t.lists ==> s.Registered(p.0, p.1);
    case Ask(elem, r, pvt) => AskedKeeps(s, elem, r, pvt, camel);
    case Bind(elem, typ, x) => BoundKeeps(s, elem, typ, x);
    case Do(a) => if a.Use? { UsedKeeps(s, a.elem); } else { DidKeeps(h, s, a); }
  }

  /** And it accounts for the number it may draw. */
  lemma PerformedAccounts(h: Hooks, camel: Key -> Key, s: Store, op: Op, taken: set<nat>)
    requires Quiet(h) && s.Valid() && Accounted(s, taken)
    ensures Accounted(Performed(h, camel, s, op), taken + if op.TakeGuid? then {s.guid} else {})
  {
    var t := Performed(h, camel, s, op);
    assert taken + {} == taken;
    hide Asked, Bound, Did;
    match op
    case TakeGuid => assert Known(t.Numbers()) == Known(s.Numbers());
    case Ask(elem, r, pvt) => AskedAccounts(s, elem, r, pvt, camel, taken);
    case Bind(elem, typ, x) =>
      BoundKeeps(s, elem, typ, x);
      AllocateAccounts(s, t, elem, taken);
    case Do(a) => DidAccounts(h, s, a, taken);
  }

  lemma AskedAccounts(s: Store, elem: Elem, r: Request, pvt: bool, camel: Key -> Key, taken: set<nat>)
    requires s.Valid() && Accounted(s, taken)
    ensures Accounted(Asked(s, elem, r, pvt, camel), taken)
  {
    var t := Asked(s, elem, r, pvt, camel);
    AskedKeeps(s, elem, r, pvt, camel);
    hide Asked;
    if elem in s.owner || !r.Read? { AllocateAccounts(s, t, elem, taken); }
    else { assert t.guid == t.Numbers().guid; }
  }

  lemma DidAccounts(h: Hooks, s: Store, a: Act, taken: set<nat>)
    requires Quiet(h) && s.Valid() && Accounted(s, taken)
    ensures Accounted(Did(h, s, a), taken)
  {
    if a.Use? {
      IdentifiedKeeps(s, a.elem);
      assert Did(h, s, a).cache.Keys == Identified(s, a.elem).cache.Keys;
      AllocateAccounts(s, Did(h, s, a), a.elem, taken);
    } else {
      DidKeeps(h, s, a);
      assert Did(h, s, a).guid == s.guid;
    }
  }

  /**
   In every run, with whatever teardown hooks that allocate nothing: live ids belong to one element each, the free list
   has no live id and no repeats, and no number is ever lost.
   */
  lemma {:induction false} AlwaysValid(h: Hooks, camel: Key -> Key, ops: seq<Op>)
    requires Quiet(h)
    ensures After(h, camel, ops).Valid() && Accounted(After(h, camel, ops), Taken(h, camel, ops))
    decreases |ops|
  {
    if |ops| == 0 {
    } else {
      var before := ops[..|ops| - 1];
      AlwaysValid(h, camel, before);
      PerformedKeeps(h, camel, After(h, camel, before), ops[|ops| - 1]);
      PerformedAccounts(h, camel, After(h, camel, before), ops[|ops| - 1], Taken(h, camel, before));
    }
  }

  // ---------------------------------------------------------------- the store

  /** An entry with the same or fewer event types. */
  ghost predicate Fewer(e: Entry, than: Entry) {
    forall k :: "events" in e.keys && k in e.events ==> "events" in than.keys && k in than.events
  }

  class DataStore {
    var guid: nat
    var deletedIds: seq<nat>
    var owner: map<Elem, nat>              // elem[ expando ]
    var cache: map<nat, Entry>
    var lists: map<(Elem, Key), E.Groups>  // the handler lists that are not empty
    var log: seq<Run>                      // the teardown hooks that have run
    const hooks: Hooks
    const camel: Key -> Key

    ghost function Snap(): Store
      reads this
    {
      Store(guid, deletedIds, owner, cache, lists, log)
    }

    predicate HasEvents(elem: Elem)
      reads this
    {
      elem in owner && owner[elem] in cache && "events" in cache[owner[elem]].keys
    }

    constructor (hooks: Hooks, camel: Key -> Key)
      ensures Snap() == After(hooks, camel, []) && this.hooks == hooks && this.camel == camel
    {
      guid, deletedIds, owner, cache, lists, log := 1, [], map[], map[], map[], [];
      this.hooks, this.camel := hooks, camel;
    }

    /** One operation of a run. */
    method Perform(op: Op)
      modifies this
      ensures Snap() == Performed(hooks, camel, old(Snap()), op)
      ensures Quiet(hooks) && old(Snap().Valid()) ==> Snap().Valid()
    {
      if Quiet(hooks) && Snap().Valid() { PerformedKeeps(hooks, camel, Snap(), op); }
      hide Quiet, Store.Valid, Asked, Bound, Did;
      match op
      case TakeGuid => var _ := TakeGuid();
      case Ask(elem, r, pvt) => var _ := Data(elem, r, pvt);
      case Bind(elem, typ, x) => EventAdd(elem, typ, x);
      case Do(a) => RunAct(a);
    }

    /** Other code draws from the same counter. */
    method TakeGuid() returns (g: nat)
      modifies this`guid
      ensures g == old(guid) && guid == g + 1
    {
      g := guid;
      guid := guid + 1;
    }

    /** `id = elem[ internalKey ] = deletedIds.pop() || jQuery.guid++`, and `cache[ id ] = {}`. */
    method Identify(elem: Elem)
      modifies this`guid, this`deletedIds, this`owner, this`cache
      ensures Snap() == Identified(old(Snap()), elem)
    {
      if elem !in owner {
        var id := guid;
        if |deletedIds| > 0 {
          id := deletedIds[|deletedIds| - 1];
          deletedIds := deletedIds[..|deletedIds| - 1];
        } else {
          guid := guid + 1;
        }
        owner := owner[elem := id];
      }
      if owner[elem] !in cache { cache := cache[owner[elem] := Entry({}, [], {})]; }
    }

    /** `internalData` */
    method Data(elem: Elem, request: Request, pvt: bool) returns (found: bool)
      modifies this`guid, this`deletedIds, this`owner, this`cache
      ensures Snap() == Asked(old(Snap()), elem, request, pvt, camel)
      ensures request.Read? ==>
                (found <==> old(Snap().HasData(elem)) && Found(old(cache[owner[elem]]), request.name, pvt, camel))
    {
      if request.Read? && (elem !in owner || owner[elem] !in cache || (!pvt && "data" !in cache[owner[elem]].keys)) {
        return false;
      }
      Identify(elem);
      var entry := cache[owner[elem]];
      if !pvt { entry := entry.(keys := entry.keys + {"data"}); }
      var stored := Stored(request, camel);
      entry := if pvt then entry.(keys := entry.keys + stored) else entry.(data := entry.data + stored);
      assert entry == Written(cache[owner[elem]], stored, pvt);
      SetEntry(elem, entry);
      found := request.Read? && Found(entry, request.name, pvt, camel);
    }

    method SetEntry(elem: Elem, entry: Entry)
      requires Snap().HasData(elem)
      modifies this`cache
      ensures Snap() == old(Snap()).Put(elem, entry)
    {
      cache := cache[owner[elem] := entry];
    }

    /** The parts of `event.add` that touch the data of the element. */
    method EventAdd(elem: Elem, typ: Key, x: E.HandleObj)
      modifies this`guid, this`deletedIds, this`owner, this`cache, this`lists
      ensures Snap() == Bound(old(Snap()), elem, typ, x)
    {
      Identify(elem);
      var entry := cache[owner[elem]];
      if "events" !in entry.keys { entry := entry.(keys := entry.keys + {"events"}, events := []); }
      entry := entry.(keys := entry.keys + {"handle"});
      if typ !in entry.events { entry := entry.(events := entry.events + [typ]); }
      assert entry == WithType(cache[owner[elem]], typ);
      SetEntry(elem, entry);
      var handlers := if (elem, typ) in lists then lists[(elem, typ)] else E.Groups([], []);
      lists := lists[(elem, typ) := E.Changed(handlers, E.Change.Add(x))];
    }

    // ---------------------------------------------------------------- freeing

    /** `internalRemoveData` */
    method RemoveData(elem: Elem, names: Option<seq<Key>>, pvt: bool)
      modifies this
      ensures Snap() == Removed(hooks, old(Snap()), elem, names, pvt)
      decreases lists.Keys, 5, 0
    {
      if elem !in owner || owner[elem] !in cache { return; }
      ghost var before := Snap();
      var entry := cache[owner[elem]];
      if names.Some? {
        entry := WithoutKeys(entry, names.value, pvt);
        Rewrite(elem, entry, before);
        if pvt {
          if !entry.IsEmpty() { return; }
        } else if "data" in entry.keys && entry.data != {} { return; }
      }
      if !pvt {
        entry := WithoutData(entry);
        Rewrite(elem, entry, before);
        if !entry.IsEmpty() { return; }
      } else {
        Rewrite(elem, entry, before);
      }
      CleanData(elem);
    }

    /** An entry with fewer keys; with "events" go the handlers. */
    method Rewrite(elem: Elem, entry: Entry, ghost before: Store)
      requires before.HasData(elem) && owner == before.owner && owner[elem] in cache
      requires Snap() == before || exists e :: Snap() == Rewritten(before, elem, e) && Fewer(entry, e)
      modifies this`cache, this`lists
      ensures Snap() == Rewritten(before, elem, entry)
    {
      SetEntry(elem, entry);
      lists := map p | p in lists && (p.0 == elem ==> "events" in entry.keys && p.1 in entry.events) :: lists[p];
      assert lists == Rewritten(before, elem, entry).lists;
    }

    /** `cleanData` for one element. */
    method CleanData(elem: Elem)
      modifies this
      ensures Snap() == Cleaned(hooks, old(Snap()), elem)
      decreases lists.Keys, if HasEvents(elem) then 4 else 0, 0
    {
      if elem in owner && owner[elem] in cache {
        var id := owner[elem];
        if HasEvents(elem) { Sweep(elem, cache[id].events, None); }
        FreeId(elem, id);
      }
    }

    /** `if ( cache[ id ] ) { ... deletedIds.push( id ); }` */
    method FreeId(elem: Elem, id: nat)
      modifies this
      ensures Snap() == Free(old(Snap()), elem, id)
    {
      if id in cache {
        cache := cache - {id};
        owner := owner - {elem};
        deletedIds := deletedIds + [id];
        lists := map p | p in lists && p.0 != elem :: lists[p];
      }
    }

    /** `for ( type in data.events )` of `cleanData`, and `for ( type in events )` of `event.remove`. */
    method Sweep(elem: Elem, types: seq<Key>, p: Option<E.Pattern>)
      modifies this
      ensures Snap() == Swept(hooks, old(Snap()), elem, types, p)
      decreases lists.Keys, 3, 0
    {
      for i := 0 to |types|
        invariant lists.Keys <= old(lists.Keys)
        invariant Swept(hooks, old(Snap()), elem, types, p) == Swept(hooks, Snap(), elem, types[i..], p)
      {
        assert types[i..][0] == types[i] && types[i..][1..] == types[i + 1..];
        if HasEvents(elem) && types[i] in cache[owner[elem]].events {
          if p.Some? {
            EventRemove(elem, Renamed(hooks, p.value, types[i]), Mapped(p.value, types[i]));
          } else if types[i] in hooks.special {
            EventRemove(elem, types[i], Only(types[i]));
          }
        }
      }
    }

    /** `event.remove` for one type. */
    method EventRemove(elem: Elem, t: Key, p: E.Pattern)
      modifies this
      ensures Snap() == Unbound(hooks, old(Snap()), elem, t, p)
      decreases lists.Keys, 0, 2
    {
      if HasEvents(elem) {
        var handled := (elem, t) in lists;
        FilterList((elem, t), p);
        if handled && (elem, t) !in lists {
          if p.origType in hooks.special {
            var script := hooks.acts(|log|);
            log := log + [Run(elem, t, p.origType)];
            RunHook(script);
          }
          DeleteType(elem, t);
        }
        DropEvents(elem);
      }
    }

    /** The loop over the handlers, `EventHandlers.HandlerList.Remove`. */
    method FilterList(p: (Elem, Key), pattern: E.Pattern)
      modifies this`lists
      ensures Snap() == Filtered(old(Snap()), p, pattern)
    {
      if p in lists {
        var rest := E.Changed(lists[p], E.Change.Remove(pattern));
        lists := if Inhabited(rest) then lists[p := rest] else lists - {p};
      }
    }

    /** `event.remove` without type. */
    method RemoveEvents(elem: Elem, p: E.Pattern)
      modifies this
      ensures Snap() == UnboundAll(hooks, old(Snap()), elem, p)
      decreases lists.Keys, 4, 0
    {
      if HasEvents(elem) {
        Sweep(elem, cache[owner[elem]].events, Some(p));
        DropEvents(elem);
      }
    }

    /** `delete events[ type ]` */
    method DeleteType(elem: Elem, t: Key)
      modifies this`cache, this`lists
      ensures Snap() == WithoutType(old(Snap()), elem, t)
    {
      if HasEvents(elem) {
        var e := cache[owner[elem]];
        SetEntry(elem, e.(events := Others(e.events, t)));
        lists := lists - {(elem, t)};
      }
    }

    /**
     `if ( jQuery.isEmptyObject( events ) )`: "handle" and "events" are removed. No type is left, so the clean this may
     lead to runs no hook.
     */
    method DropEvents(elem: Elem)
      modifies this
      ensures Snap() == WithoutEmptyEvents(old(Snap()), elem)
      decreases lists.Keys, 0, 1
    {
      if HasEvents(elem) && cache[owner[elem]].events == [] {
        var e := cache[owner[elem]];
        var bare := e.(keys := e.keys - {"handle", "events"}, events := []);
        SetEntry(elem, bare);
        if bare.IsEmpty() { CleanData(elem); }
      }
    }

    method RunHook(acts: seq<Act>)
      modifies this
      ensures Snap() == Acted(hooks, old(Snap()), acts)
      decreases lists.Keys, 7, 0
    {
      for i := 0 to |acts|
        invariant lists.Keys <= old(lists.Keys)
        invariant Acted(hooks, old(Snap()), acts) == Acted(hooks, Snap(), acts[i..])
      {
        assert acts[i..][0] == acts[i] && acts[i..][1..] == acts[i + 1..];
        RunAct(acts[i]);
      }
    }

    method RunAct(a: Act)
      modifies this
      ensures Snap() == Did(hooks, old(Snap()), a)
      decreases lists.Keys, 6, 0
    {
      match a
      case Clean(e) => CleanData(e);
      case Use(e) =>
        Identify(e);
        SetEntry(e, Written(cache[owner[e]], {"used"}, true));
      case Touch(e, stored, pvt) =>
        if e in owner && owner[e] in cache { SetEntry(e, Written(cache[owner[e]], stored, pvt)); }
      case Drop(e, names, pvt) => RemoveData(e, names, pvt);
      case Unbind(e, t, p) => EventRemove(e, t, p);
      case UnbindAll(e, p) => RemoveEvents(e, p);
    }
  }
}
