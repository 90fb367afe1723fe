/**
 `tokenize` with its cache, and the part of `select` that takes tokens out of the list it got. The cached lists are
 heap objects; a caller gets a new outer list that still shares the inner ones with the cache.
 */
module SelectorSource {
  import opened Wrappers
  import opened Tokenizer
  import opened MemoCache

  /** One array of tokens. */
  class TokenList {
    var tokens: seq<Token>

    constructor (ts: seq<Token>)
      ensures tokens == ts
    {
      tokens := ts;
    }
  }

  /** The array of groups. */
  class GroupList {
    var groups: seq<TokenList>

    constructor (gs: seq<TokenList>)
      ensures groups == gs
    {
      groups := gs;
    }

    ghost predicate Holds(content: seq<seq<Token>>)
      reads this, groups
    {
      |groups| == |content| && forall i :: 0 <= i < |groups| ==> groups[i].tokens == content[i]
    }
  }

  /** What the ID shortcut of `select` finds: it does not apply, there is no such element, or there is one. */
  datatype IdLookup = NotApplicable | Missing | Found(context: nat)

  /** What `select` hands on: an error, its final results, or what `compile` and the compiled function get. */
  datatype Selected =
    | BadSelector
    | Finished(found: seq<nat>)
    | ToCompile(selector: string, list: GroupList, seed: Option<seq<nat>>, context: nat, outermost: nat)

  /** The parts of the engine that `select` asks. `parentContext` is `testContext( context.parentNode )`. */
  datatype Finder = Finder(
    isRelative: string -> bool,
    needsContext: string -> bool,
    hasSibling: string -> bool,
    parentContext: nat -> Option<nat>,
    byId: (Token, nat) -> IdLookup,
    find: (Token, nat) -> Option<seq<nat>>)

  /** `rsibling.test( text ) && testContext( context.parentNode ) || context` */
  function Expanded(fd: Finder, text: string, context: nat): nat {
    if fd.hasSibling(text) && fd.parentContext(context).Some? then fd.parentContext(context).value else context
  }

  function Shortcut(fd: Finder, tokens: seq<Token>, context: nat): IdLookup {
    if |tokens| > 2 && tokens[0].typ == "ID" && fd.isRelative(tokens[1].typ) then fd.byId(tokens[0], context)
    else NotApplicable
  }

  /** The tokens left when the ID shortcut has been taken, and the context they are matched in. */
  function Unshifted(fd: Finder, tokens: seq<Token>, context: nat): (seq<Token>, nat) {
    var s := Shortcut(fd, tokens, context);
    if s.Found? then (tokens[1..], s.context) else (tokens, context)
  }

  /** What the search for the `i`-th token finds; a leading sibling combinator widens the context. */
  function Search(fd: Finder, tokens: seq<Token>, context: nat, i: nat): Option<seq<nat>>
    requires i < |tokens|
  {
    fd.find(tokens[i], Expanded(fd, tokens[0].typ, context))
  }

  /** `i` is the last token of the last compound that some search answers. */
  ghost predicate IsSeed(fd: Finder, tokens: seq<Token>, context: nat, i: nat) {
    && i < |tokens| && Search(fd, tokens, context, i).Some?
    && (forall k :: i <= k < |tokens| ==> !fd.isRelative(tokens[k].typ))
    && (forall k :: i < k < |tokens| ==> Search(fd, tokens, context, k).None?)
  }

  /** The tokens without the `i`-th. */
  function Spliced(tokens: seq<Token>, i: nat): seq<Token>
    requires i < |tokens|
  {
    tokens[..i] + tokens[i + 1..]
  }

  /**
   The tokens do not need their context, and a seed set was found for the `i`-th of them; the rest of the tokens is what
   is still to be matched.
   */
  ghost predicate Seeded(fd: Finder, tokens: seq<Token>, context: nat, i: nat, rest: seq<Token>, seed: seq<nat>) {
    && !fd.needsContext(ToSelector(tokens)) && IsSeed(fd, tokens, context, i)
    && rest == Spliced(tokens, i) && Search(fd, tokens, context, i) == Some(seed)
  }

  /**
   What `select` makes of the only group of a selector: `rest` are the tokens handed to `compile`, and the string
   handed over with them always spells them.
   */
  ghost predicate Narrowed(fd: Finder, tokens: seq<Token>, context: nat, r: Selected, rest: seq<Token>) {
    var (left, where) := Unshifted(fd, tokens, context);
    match r
    case BadSelector => false
    case Finished(found) =>
      if Shortcut(fd, tokens, context).Missing? then found == []
      else exists i :: Seeded(fd, left, where, i, rest, found) && (|found| == 0 || |ToSelector(rest)| == 0)
    case ToCompile(selector, _, seed, ctx, outermost) =>
      && !Shortcut(fd, tokens, context).Missing?
      && selector == ToSelector(rest) && ctx == where && outermost == Expanded(fd, selector, where)
      && (if seed.None? then
            rest == left && (fd.needsContext(ToSelector(left)) || forall i :: !IsSeed(fd, left, where, i))
          else |seed.value| > 0 && |selector| > 0 && exists i :: Seeded(fd, left, where, i, rest, seed.value))
  }

  class Source {
    const l: Lexer
    const cache: KeyCache<string, GroupList>
    ghost var owned: set<object>

    /** The list under a key is among the given objects and spells what a fresh run of the lexer gives for the key. */
    static ghost predicate Entry(l: Lexer, k: string, list: GroupList, among: set<object>)
      requires l.Valid()
      reads among
    {
      && list in among
      && (forall t :: t in list.groups ==> t in among)
      && Accepted(Lex(l, k)) && list.Holds(Lex(l, k).groups)
    }

    ghost predicate Valid()
      reads this, cache, owned
    {
      && l.Valid()
      && this !in owned && cache !in owned
      && (forall k :: k in cache.live ==> Entry(l, k, cache.live[k], owned))
    }

    constructor (l: Lexer, limit: nat)
      requires l.Valid()
      ensures Valid() && fresh(cache) && cache.State() == Memo([], map[])
    {
      this.l := l;
      cache := new KeyCache(limit);
      owned := {};
    }

    // -------------------------------------------------------------- the lexer

    /** A regular expression with its pre-filter; the one of pseudos lexes its argument again. */
    method Filtered(typ: string, left: string) returns (f: Filtered)
      requires Valid()
      ensures f == Filter(l, typ, left)
      decreases |left|, 0
    {
      var a := l.attempt(typ, left);
      assert l.Fits(a, left);
      match a
      case NoMatch => return Rejected;
      case Fails => return Thrown;
      case Plain(len, matches) => return Kept(len, matches);
      case Pseudo(len, isChild, name, argument, quoted, simple) =>
        if isChild { return Rejected; }
        if quoted.Some? { return Kept(len, [name, quoted.value]); }
        if argument.None? { return Kept(len, [name]); }
        var unquoted := argument.value;
        if !simple && |unquoted| > 0 && l.looksPseudo(unquoted) {
          var excess := ParseOnly(unquoted);
          if excess.None? { return Thrown; }
          if excess.value > 0 {
            return Kept(Shortened(len, unquoted, excess.value), [name, Argument(unquoted, excess.value)]);
          }
        }
        return Kept(len, [name, unquoted]);
    }

    /** The main loop; `matched` is false before the first round only. */
    method Parse(selector: string) returns (r: Scanned)
      requires Valid()
      ensures r == Lex(l, selector)
      decreases |selector|, |l.types| + 4
    {
      var soFar, groups, seps, matched := selector, [], [], false;
      while |soFar| > 0
        invariant |soFar| <= |selector| && (matched ==> |groups| > 0)
        invariant Lex(l, selector) == Scan(l, soFar, groups, seps, !matched)
        decreases |soFar|
      {
        var o := NewGroup(soFar, groups, seps, matched);
        o := TakeCombinator(o);
        var f := FilterAll(o.left, o.tokens, o.matched, |selector|);
        if f.Stopped? { return Failed; }
        soFar, groups, seps, matched := f.left, o.groups + [f.tokens], o.seps, f.matched;
        if !matched { return Scanned(groups, seps, soFar); }
      }
      r := Scanned(groups, seps, soFar);
    }

    /** "Comma and first run"; the result holds the open group apart from the finished ones. */
    method NewGroup(soFar: string, groups: seq<seq<Token>>, seps: seq<string>, matched: bool) returns (o: Round)
      requires l.Valid() && |soFar| > 0 && (matched ==> |groups| > 0)
      ensures o == Open(l, soFar, groups, seps, !matched)
    {
      if !matched { return Round(groups, seps, [], soFar, false); }
      var comma := l.comma(soFar);
      if comma == 0 { return Round(groups[..|groups| - 1], seps, groups[|groups| - 1], soFar, false); }
      if comma == |soFar| { return Round(groups, seps + [[]], [], soFar, false); }
      return Round(groups, seps + [soFar[..comma]], [], soFar[comma..], false);
    }

    method TakeCombinator(o: Round) returns (r: Round)
      requires l.Valid() && !o.matched
      ensures r == Combine(l, o)
    {
      r := o;
      var combinator := l.combinator(o.left);
      if combinator.Some? {
        var len := combinator.value.0;
        r := o.(tokens := o.tokens + [Token(o.left[..len], combinator.value.1, [])],
                left := o.left[len..], matched := true);
      }
    }

    /** `for ( type in Expr.filter )` */
    method FilterAll(left: string, before: seq<Token>, already: bool, ghost bound: nat) returns (f: Filtering)
      requires Valid() && |left| <= bound
      ensures f == Filters(l, 0, left, before, already)
      decreases bound, 1
    {
      hide Filters, Filter;
      var soFar, tokens, matched := left, before, already;
      for k := 0 to |l.types|
        invariant |soFar| <= |left|
        invariant Filters(l, 0, left, before, already) == Filters(l, k, soFar, tokens, matched)
      {
        FiltersStep(l, k, soFar, tokens, matched);
        var r := Filtered(l.types[k], soFar);
        if r.Thrown? { return Stopped; }
        if r.Kept? {
          tokens := tokens + [Token(soFar[..r.len], l.types[k], r.matches)];
          soFar := soFar[r.len..];
          matched := true;
        }
      }
      FiltersEnd(l, soFar, tokens, matched);
      f := Went(soFar, tokens, matched);
    }

    /** `tokenize( selector, true )`: the number of characters that do not belong to a selector; None if it throws. */
    method ParseOnly(selector: string) returns (excess: Option<nat>)
      requires Valid()
      ensures excess == if Lex(l, selector).Failed? then None else Some(|Lex(l, selector).left|)
      decreases |selector|, |l.types| + 5
    {
      if selector in cache.live { return Some(0); }
      var r := Parse(selector);
      excess := if r.Failed? then None else Some(|r.left|);
    }

    /** `tokenize( selector )`: a new list of groups, or None if it throws. */
    method Tokenize(selector: string) returns (list: Option<GroupList>)
      requires Valid()
      modifies this`owned, cache
      ensures Valid() && fresh(owned - old(owned)) && old(owned) <= owned
      ensures list.Some? <==> Accepted(Lex(l, selector))
      ensures list.Some? ==> fresh(list.value) && list.value !in owned && list.value.Holds(Lex(l, selector).groups)
      ensures list.Some? ==> forall t :: t in list.value.groups ==> t in owned
      ensures if selector in old(cache.live) || list.None? then cache.State() == old(cache.State())
              else exists kept: GroupList :: cache.State() == Put(old(cache.State()), cache.cacheLength, selector, kept)
    {
      if selector in cache.live {
        var copy := new GroupList(cache.live[selector].groups);
        return Some(copy);
      }
      var r := Parse(selector);
      if r.Failed? || |r.left| > 0 { return None; }
      var kept := Remember(selector, r.groups);
      var copy := new GroupList(kept.groups);
      list := Some(copy);
    }

    /** `tokenCache( selector, groups )` */
    method Remember(selector: string, content: seq<seq<Token>>) returns (kept: GroupList)
      requires Valid() && Accepted(Lex(l, selector)) && content == Lex(l, selector).groups
      modifies this`owned, cache
      ensures Valid() && fresh(owned - old(owned)) && old(owned) <= owned
      ensures kept in owned && fresh(kept) && kept.Holds(content) && forall t :: t in kept.groups ==> t in owned
      ensures cache.State() == Put(old(cache.State()), cache.cacheLength, selector, kept)
    {
      ghost var extra;
      kept, extra := NewEntry(l, selector, content);
      Install(selector, kept, extra);
    }

    /**
     `select` up to the call of `compile`. Whatever it takes out of the tokens, the cache stays truthful: nothing it
     writes to is reachable from the cache.
     */
    method Select(fd: Finder, selector: string, seed: Option<seq<nat>>, context: nat) returns (r: Selected)
      requires Valid()
      modifies this`owned, cache
      ensures Valid()
      ensures r.BadSelector? <==> !Accepted(Lex(l, selector))
      ensures r.ToCompile? ==> fresh(r.list) && r.list !in owned
      ensures r.ToCompile? && seed.None? && |Lex(l, selector).groups| == 1 ==>
                |r.list.groups| == 1 && r.list.groups[0] !in owned
                && Narrowed(fd, Lex(l, selector).groups[0], context, r, r.list.groups[0].tokens)
      ensures r.Finished? ==> seed.None? && |Lex(l, selector).groups| == 1
                              && exists rest :: Narrowed(fd, Lex(l, selector).groups[0], context, r, rest)
      ensures !r.BadSelector? && (seed.Some? || |Lex(l, selector).groups| != 1) ==>
                r.ToCompile? && r.selector == selector && r.seed == seed && r.context == context
                && r.outermost == Expanded(fd, selector, context) && r.list.Holds(Lex(l, selector).groups)
    {
      hide Narrowed;
      var answer := Tokenize(selector);
      if answer.None? { return BadSelector; }
      var list := answer.value;
      if seed.Some? || |list.groups| != 1 {
        return ToCompile(selector, list, seed, context, Expanded(fd, selector, context));
      }
      OnlyGroup(l, selector);
      var tokens;
      r, tokens := NarrowOnly(fd, list, selector, context);
    }

    method Install(selector: string, kept: GroupList, ghost extra: set<object>)
      requires Valid() && this !in extra && cache !in extra && Entry(l, selector, kept, extra)
      modifies this`owned, cache
      ensures Valid() && owned == old(owned) + extra
      ensures cache.State() == Put(old(cache.State()), cache.cacheLength, selector, kept)
    {
      forall k | k in cache.live ensures Entry(l, k, cache.live[k], owned + extra) {
        EntryGrows(l, k, cache.live[k], owned, owned + extra);
      }
      EntryGrows(l, selector, kept, extra, owned + extra);
      owned := owned + extra;
      cache.Store(selector, kept);
    }
  }

  /** The search for a seed set, from the last token back to the nearest combinator. */
  method LastSeed(fd: Finder, tokens: seq<Token>, context: nat) returns (i: Option<nat>)
    ensures i.Some? ==> IsSeed(fd, tokens, context, i.value)
    ensures i.None? ==> forall k :: !IsSeed(fd, tokens, context, k)
  {
    var j := |tokens|;
    while j > 0
      invariant 0 <= j <= |tokens|
      invariant forall k :: j <= k < |tokens| ==> !fd.isRelative(tokens[k].typ) && Search(fd, tokens, context, k).None?
    {
      j := j - 1;
      if fd.isRelative(tokens[j].typ) { return None; }
      if Search(fd, tokens, context, j).Some? { return Some(j); }
    }
    i := None;
  }

  lemma WithoutFirst(tokens: seq<Token>)
    requires |tokens| > 0
    ensures |tokens[0].value| <= |ToSelector(tokens)|
    ensures ToSelector(tokens)[|tokens[0].value|..] == ToSelector(tokens[1..])
  {
    assert tokens == [tokens[0]] + tokens[1..];
    ToSelectorAppend([tokens[0]], tokens[1..]);
    assert [tokens[0]][..0] == [];
    assert ToSelector([tokens[0]]) == [] + tokens[0].value == tokens[0].value;
  }

  /** The single-group part of `select`. It writes on a copy of the group only; `list` is the caller's own. */
  method NarrowOnly(fd: Finder, list: GroupList, text: string, context: nat) returns (r: Selected, tokens: TokenList)
    requires |list.groups| == 1 && ToSelector(list.groups[0].tokens) == text
    modifies list
    ensures list.groups == [tokens] && fresh(tokens)
    ensures Narrowed(fd, old(list.groups[0].tokens), context, r, tokens.tokens)
    ensures r.ToCompile? ==> r.list == list
  {
    ghost var all := list.groups[0].tokens;
    tokens := new TokenList(list.groups[0].tokens);
    list.groups := [tokens];
    var selector, where := text, context;
    match Shortcut(fd, tokens.tokens, context) {
      case NotApplicable =>
      case Missing => return Finished([]), tokens;
      case Found(c) =>
        WithoutFirst(all);
        where, selector := c, selector[|tokens.tokens[0].value|..];
        tokens.tokens := tokens.tokens[1..];
    }
    if fd.needsContext(selector) {
      return ToCompile(selector, list, None, where, Expanded(fd, selector, where)), tokens;
    }
    var i := LastSeed(fd, tokens.tokens, where);
    if i.None? { return ToCompile(selector, list, None, where, Expanded(fd, selector, where)), tokens; }
    var seed := Search(fd, tokens.tokens, where, i.value).value;
    ghost var left := Unshifted(fd, all, context).0;
    assert tokens.tokens == left;
    tokens.tokens := Spliced(tokens.tokens, i.value);
    assert Seeded(fd, left, where, i.value, tokens.tokens, seed);
    selector := ToSelector(tokens.tokens);
    if |seed| == 0 || |selector| == 0 { return Finished(seed), tokens; }
    r := ToCompile(selector, list, Some(seed), where, Expanded(fd, selector, where));
  }

  method NewEntry(l: Lexer, selector: string, content: seq<seq<Token>>)
      returns (kept: GroupList, ghost extra: set<object>)
    requires l.Valid() && Accepted(Lex(l, selector)) && content == Lex(l, selector).groups
    ensures fresh(extra) && kept in extra && kept.Holds(content) && (forall t :: t in kept.groups ==> t in extra)
    ensures Source.Entry(l, selector, kept, extra)
  {
    var groups := Stored(content);
    kept := new GroupList(groups);
    extra := {kept} + (set t: object | t in groups);
  }

  lemma EntryGrows(l: Lexer, k: string, list: GroupList, a: set<object>, b: set<object>)
    requires l.Valid() && a <= b && Source.Entry(l, k, list, a)
    ensures Source.Entry(l, k, list, b)
  {
  }

  /** The arrays that hold the groups. */
  method Stored(content: seq<seq<Token>>) returns (groups: seq<TokenList>)
    ensures |groups| == |content|
    ensures forall i :: 0 <= i < |groups| ==> fresh(groups[i]) && groups[i].tokens == content[i]
  {
    groups := [];
    for i := 0 to |content|
      invariant |groups| == i
      invariant forall k :: 0 <= k < i ==> fresh(groups[k]) && groups[k].tokens == content[k]
    {
      var one := new TokenList(content[i]);
      groups := groups + [one];
    }
  }
}
