/**
 The selector lexer. The regular expressions are abstract: each one says how long a non-empty prefix it takes. What is
 modelled is the loop around them, with the recursive call that finds the end of an unquoted pseudo argument.
 */
module Tokenizer {
  import opened Wrappers

  datatype Token = Token(value: string, typ: string, matches: seq<string>)

  /**
   What one entry of `matchExpr`, followed by its pre-filter, does with the text. `Fails` is a pre-filter that throws.
   The pre-filter of "PSEUDO" is the function `PreFilter` below.
   */
  datatype Attempt =
    | NoMatch
    | Fails
    | Plain(len: nat, matches: seq<string>)
    | Pseudo(len: nat, isChild: bool, name: string, argument: Option<string>, quoted: Option<string>, simple: bool)

  datatype Lexer = Lexer(
    comma: string -> nat,
    combinator: string -> Option<(nat, string)>,
    types: seq<string>,
    attempt: (string, string) -> Attempt,
    looksPseudo: string -> bool)
  {
    /** Each expression takes a non-empty prefix; an argument lies between ":", a name, "(" and ")". */
    ghost predicate Valid() {
      && (forall s :: comma(s) <= |s|)
      && (forall s :: combinator(s).Some? ==> 0 < combinator(s).value.0 <= |s|)
      && (forall t, s :: Fits(attempt(t, s), s))
    }

    predicate Fits(a: Attempt, s: string) {
      match a
      case NoMatch => true
      case Fails => true
      case Plain(len, _) => 0 < len <= |s|
      case Pseudo(len, _, _, argument, _, _) => 0 < len <= |s| && (argument.Some? ==> |argument.value| + 3 <= len)
    }
  }

  // ---------------------------------------------------------------- the lexer as a function

  datatype Filtered = Rejected | Thrown | Kept(len: nat, matches: seq<string>)

  datatype Filtering = Stopped | Went(left: string, tokens: seq<Token>, matched: bool)

  /** `seps` are the separators consumed in front of the groups after the first. */
  datatype Scanned = Failed | Scanned(groups: seq<seq<Token>>, seps: seq<string>, left: string)

  /** `s.indexOf( c, from )` */
  function IndexOf(s: string, c: char, from: nat): (p: int)
    ensures -1 <= p < |s| && (p == -1 || (from <= p && s[p] == c))
    ensures forall i :: from <= i < (if p == -1 then |s| else p) ==> s[i] != c
    decreases |s| - from
  {
    if from >= |s| then -1 else if s[from] == c then from else IndexOf(s, c, from + 1)
  }

  /** The first `end` characters, where a negative `end` counts from the back, as `slice( 0, end )` does. */
  function SliceTo(s: string, end: int): string {
    var stop := if end < 0 then |s| + end else end;
    if stop <= 0 then [] else if stop >= |s| then s else s[..stop]
  }

  /** How many characters of a match of length `len` an excess of `excess` characters in the argument leaves. */
  function Shortened(len: nat, unquoted: string, excess: nat): (r: nat)
    requires |unquoted| + 3 <= len && 0 < excess <= |unquoted|
    ensures 0 < r < len
  {
    len + (IndexOf(unquoted, ')', |unquoted| - excess) - |unquoted|)
  }

  /** One entry of the filter loop: the expression and its pre-filter. */
  function Filter(l: Lexer, typ: string, left: string): (r: Filtered)
    requires l.Valid()
    ensures r.Kept? ==> 0 < r.len <= |left|
    decreases |left|, 0
  {
    var a := l.attempt(typ, left);
    assert l.Fits(a, left);
    match a
    case NoMatch => Rejected
    case Fails => Thrown
    case Plain(len, matches) => Kept(len, matches)
    case Pseudo(len, isChild, name, argument, quoted, simple) =>
      if isChild then Rejected
      else if quoted.Some? then Kept(len, [name, quoted.value])
      else if argument.None? then Kept(len, [name])
      else if simple || |argument.value| == 0 || !l.looksPseudo(argument.value) then Kept(len, [name, argument.value])
      else
        var r := Scan(l, argument.value, [], [], true);
        if r.Failed? then Thrown
        else if |r.left| == 0 then Kept(len, [name, argument.value])
        else Kept(Shortened(len, argument.value, |r.left|), [name, Argument(argument.value, |r.left|)])
  }

  /** The argument without its excess: it ends at the next closing parenthesis. */
  function Argument(unquoted: string, excess: nat): string
    requires 0 < excess <= |unquoted|
  {
    SliceTo(unquoted, IndexOf(unquoted, ')', |unquoted| - excess) - |unquoted|)
  }

  /** The loop over the filter types from the `k`-th on. */
  function Filters(l: Lexer, k: nat, left: string, tokens: seq<Token>, matched: bool): (r: Filtering)
    requires l.Valid() && k <= |l.types|
    ensures r.Went? ==> |r.left| <= |left| && (r.matched <==> matched || |r.left| < |left|)
    ensures r.Went? ==> (r.matched && !matched ==> |r.tokens| > 0) && |r.tokens| >= |tokens|
    decreases |left|, 1 + |l.types| - k
  {
    if k == |l.types| then Went(left, tokens, matched)
    else
      match Filter(l, l.types[k], left)
      case Rejected => Filters(l, k + 1, left, tokens, matched)
      case Thrown => Stopped
      case Kept(len, matches) =>
        Filters(l, k + 1, left[len..], tokens + [Token(left[..len], l.types[k], matches)], true)
  }

  lemma FiltersStep(l: Lexer, k: nat, left: string, tokens: seq<Token>, matched: bool)
    requires l.Valid() && k < |l.types|
    ensures Filters(l, k, left, tokens, matched)
         == match Filter(l, l.types[k], left)
            case Rejected => Filters(l, k + 1, left, tokens, matched)
            case Thrown => Stopped
            case Kept(len, matches) =>
              Filters(l, k + 1, left[len..], tokens + [Token(left[..len], l.types[k], matches)], true)
  {
  }

  lemma FiltersEnd(l: Lexer, left: string, tokens: seq<Token>, matched: bool)
    requires l.Valid()
    ensures Filters(l, |l.types|, left, tokens, matched) == Went(left, tokens, matched)
  {
  }

  /** A round in the making: the finished groups, the open group, the text left, and whether something has matched. */
  datatype Round = Round(groups: seq<seq<Token>>, seps: seq<string>, tokens: seq<Token>, left: string, matched: bool)

  /** "Comma and first run". A comma that would leave nothing is not consumed, but it opens a group all the same. */
  function Open(l: Lexer, left: string, groups: seq<seq<Token>>, seps: seq<string>, first: bool): (r: Round)
    requires l.Valid() && (first || |groups| > 0)
    ensures |r.left| <= |left| && !r.matched
  {
    var comma := if first then 0 else l.comma(left);
    var sep := if comma == |left| then [] else left[..comma];
    if first then Round(groups, seps, [], left, false)
    else if comma > 0 then Round(groups, seps + [sep], [], left[|sep|..], false)
    else Round(groups[..|groups| - 1], seps, groups[|groups| - 1], left, false)
  }

  function Combine(l: Lexer, o: Round): (r: Round)
    requires l.Valid() && !o.matched
    ensures |r.left| <= |o.left| && (r.matched <==> |r.left| < |o.left|) && (r.matched ==> |r.tokens| > 0)
    ensures r.groups == o.groups && r.seps == o.seps
  {
    match l.combinator(o.left)
    case None => o
    case Some((len, typ)) =>
      Round(o.groups, o.seps, o.tokens + [Token(o.left[..len], typ, [])], o.left[len..], true)
  }

  /** The main loop from a state on; `first` says that no round has been made. */
  function Scan(l: Lexer, left: string, groups: seq<seq<Token>>, seps: seq<string>, first: bool): (r: Scanned)
    requires l.Valid() && (first || |groups| > 0)
    ensures r.Scanned? ==> |r.left| <= |left|
    decreases |left|, |l.types| + 3
  {
    if |left| == 0 then Scanned(groups, seps, left)
    else
      var o := Combine(l, Open(l, left, groups, seps, first));
      var f := Filters(l, 0, o.left, o.tokens, o.matched);
      if f.Stopped? then Failed
      else if !f.matched then Scanned(o.groups + [f.tokens], o.seps, f.left)
      else Scan(l, f.left, o.groups + [f.tokens], o.seps, false)
  }

  /** The answer of `tokenize`. */
  function Lex(l: Lexer, selector: string): Scanned
    requires l.Valid()
  {
    Scan(l, selector, [], [], true)
  }

  predicate Accepted(r: Scanned) { r.Scanned? && |r.left| == 0 }

  // ---------------------------------------------------------------- nothing is lost

  /** `toSelector` */
  function ToSelector(tokens: seq<Token>): string {
    if |tokens| == 0 then [] else ToSelector(tokens[..|tokens| - 1]) + tokens[|tokens| - 1].value
  }

  /** The groups written out with their separators. */
  function Written(groups: seq<seq<Token>>, seps: seq<string>): string
    requires |groups| == |seps| + 1
  {
    if |seps| == 0 then ToSelector(groups[0])
    else Extend(Written(groups[..|groups| - 1], seps[..|seps| - 1]), seps[|seps| - 1], ToSelector(groups[|groups| - 1]))
  }

  function Extend(written: string, sep: string, last: string): string { written + sep + last }

  predicate Consistent(groups: seq<seq<Token>>, seps: seq<string>, first: bool) {
    if first then |groups| == 0 && |seps| == 0 else |groups| == |seps| + 1
  }

  /** What has been consumed. */
  function Text(groups: seq<seq<Token>>, seps: seq<string>, first: bool): string
    requires Consistent(groups, seps, first)
  {
    if first then [] else Written(groups, seps)
  }

  lemma WrittenSnoc(groups: seq<seq<Token>>, seps: seq<string>, tokens: seq<Token>, sep: string)
    requires |groups| == |seps| + 1
    ensures Written(groups + [tokens], seps + [sep]) == Extend(Written(groups, seps), sep, ToSelector(tokens))
  {
    assert (groups + [tokens])[..|groups|] == groups && (seps + [sep])[..|seps|] == seps;
  }

  lemma ToSelectorSnoc(tokens: seq<Token>, token: Token)
    ensures ToSelector(tokens + [token]) == ToSelector(tokens) + token.value
  {
    assert (tokens + [token])[..|tokens|] == tokens;
  }

  lemma {:induction false} ToSelectorAppend(a: seq<Token>, b: seq<Token>)
    ensures ToSelector(a + b) == ToSelector(a) + ToSelector(b)
    decreases |b|
  {
    if |b| == 0 {
      assert a + b == a;
    } else {
      var front, last := b[..|b| - 1], b[|b| - 1];
      assert a + b == (a + front) + [last];
      ToSelectorSnoc(a + front, last);
      ToSelectorAppend(a, front);
      Regroup(ToSelector(a), ToSelector(front), last.value);
    }
  }

  lemma Cut<T>(s: seq<T>, len: nat)
    requires len <= |s|
    ensures s[..len] + s[len..] == s
  {
  }

  /** Taking a token moves its text from what is left to what is written. */
  lemma TakeToken(tokens: seq<Token>, left: string, len: nat, typ: string, matches: seq<string>)
    requires len <= |left|
    ensures ToSelector(tokens + [Token(left[..len], typ, matches)]) + left[len..] == ToSelector(tokens) + left
  {
    ToSelectorSnoc(tokens, Token(left[..len], typ, matches));
    Regroup(ToSelector(tokens), left[..len], left[len..]);
    Cut(left, len);
  }

  lemma {:induction false} FiltersKeep(l: Lexer, k: nat, left: string, tokens: seq<Token>, matched: bool)
    requires l.Valid() && k <= |l.types|
    ensures var r := Filters(l, k, left, tokens, matched);
            r.Went? ==> ToSelector(r.tokens) + r.left == ToSelector(tokens) + left
    decreases |left|, |l.types| - k
  {
    if k < |l.types| {
      var f := Filter(l, l.types[k], left);
      match f
      case Rejected => FiltersKeep(l, k + 1, left, tokens, matched);
      case Thrown =>
      case Kept(len, matches) =>
        FiltersKeep(l, k + 1, left[len..], tokens + [Token(left[..len], l.types[k], matches)], true);
        TakeToken(tokens, left, len, l.types[k], matches);
    }
  }

  /** The text of a round: finished groups, separators and the open group. */
  function RoundText(o: Round): string
    requires |o.groups| == |o.seps|
  {
    Written(o.groups + [o.tokens], o.seps)
  }

  /** With the finished groups fixed, the text depends on the open group alone, which stands at its end. */
  lemma {:induction false} OpenGroup(groups: seq<seq<Token>>, seps: seq<string>, a: seq<Token>, x: string,
      b: seq<Token>, y: string)
    requires |groups| == |seps| && ToSelector(a) + x == ToSelector(b) + y
    ensures Written(groups + [a], seps) + x == Written(groups + [b], seps) + y
  {
    if |seps| > 0 {
      var sep, before := seps[|seps| - 1], seps[..|seps| - 1];
      assert before + [sep] == seps;
      WrittenSnoc(groups, before, a, sep);
      WrittenSnoc(groups, before, b, sep);
      Regroup(Written(groups, before) + sep, ToSelector(a), x);
      Regroup(Written(groups, before) + sep, ToSelector(b), y);
    }
  }

  lemma OpenKeeps(l: Lexer, left: string, groups: seq<seq<Token>>, seps: seq<string>, first: bool)
    requires l.Valid() && Consistent(groups, seps, first)
    ensures var o := Open(l, left, groups, seps, first);
            |o.groups| == |o.seps| && RoundText(o) + o.left == Text(groups, seps, first) + left
  {
    var o := Open(l, left, groups, seps, first);
    if first {
    } else if l.comma(left) > 0 {
      var sep := o.seps[|seps|];
      WrittenSnoc(groups, seps, [], sep);
      Consumed(Written(groups, seps), sep, left);
    } else {
      assert groups[..|groups| - 1] + [groups[|groups| - 1]] == groups;
    }
  }

  lemma Consumed(written: string, sep: string, left: string)
    requires |sep| <= |left| && left[..|sep|] == sep
    ensures Extend(written, sep, []) + left[|sep|..] == written + left
  {
    Regroup(written, sep, left[|sep|..]);
    assert written + sep + [] == written + sep;
    Cut(left, |sep|);
  }

  lemma CombineKeeps(l: Lexer, o: Round)
    requires l.Valid() && !o.matched && |o.groups| == |o.seps|
    ensures var r := Combine(l, o); RoundText(r) + r.left == RoundText(o) + o.left
  {
    match l.combinator(o.left)
    case None =>
    case Some((len, typ)) =>
      TakeToken(o.tokens, o.left, len, typ, []);
      OpenGroup(o.groups, o.seps, Combine(l, o).tokens, o.left[len..], o.tokens, o.left);
  }

  /** One round of the main loop loses nothing. */
  lemma RoundKeeps(l: Lexer, left: string, groups: seq<seq<Token>>, seps: seq<string>, first: bool)
    requires l.Valid() && Consistent(groups, seps, first)
    ensures var o := Combine(l, Open(l, left, groups, seps, first));
            var f := Filters(l, 0, o.left, o.tokens, o.matched);
            && |o.groups| == |o.seps|
            && (f.Went? ==> Written(o.groups + [f.tokens], o.seps) + f.left == Text(groups, seps, first) + left)
  {
    var before := Open(l, left, groups, seps, first);
    OpenKeeps(l, left, groups, seps, first);
    CombineKeeps(l, before);
    var o := Combine(l, before);
    FiltersKeep(l, 0, o.left, o.tokens, o.matched);
    var f := Filters(l, 0, o.left, o.tokens, o.matched);
    if f.Went? { OpenGroup(o.groups, o.seps, f.tokens, f.left, o.tokens, o.left); }
  }

  lemma {:induction false} ScanKeeps(l: Lexer, left: string, groups: seq<seq<Token>>, seps: seq<string>, first: bool)
    requires l.Valid() && Consistent(groups, seps, first)
    ensures var r := Scan(l, left, groups, seps, first);
            r.Scanned? ==>
              && Consistent(r.groups, r.seps, first && |left| == 0)
              && Text(r.groups, r.seps, first && |left| == 0) + r.left == Text(groups, seps, first) + left
    decreases |left|
  {
    if |left| == 0 {
    } else {
      var o := Combine(l, Open(l, left, groups, seps, first));
      var f := Filters(l, 0, o.left, o.tokens, o.matched);
      RoundKeeps(l, left, groups, seps, first);
      if f.Went? && f.matched { ScanKeeps(l, f.left, o.groups + [f.tokens], o.seps, false); }
    }
  }

  /** The values of the tokens, the separators and the rest make up the selector. */
  lemma TokensMakeUpTheSelector(l: Lexer, selector: string)
    requires l.Valid()
    ensures var r := Lex(l, selector);
            r.Scanned? ==>
              && Consistent(r.groups, r.seps, |selector| == 0)
              && Text(r.groups, r.seps, |selector| == 0) + r.left == selector
              && |r.left| <= |selector| && r.left == selector[|selector| - |r.left|..]
  {
    ScanKeeps(l, selector, [], [], true);
    RestIsTail(Lex(l, selector), selector);
  }

  lemma RestIsTail(r: Scanned, selector: string)
    requires r.Scanned? ==>
               && Consistent(r.groups, r.seps, |selector| == 0)
               && Text(r.groups, r.seps, |selector| == 0) + r.left == [] + selector
    ensures r.Scanned? ==>
              && Text(r.groups, r.seps, |selector| == 0) + r.left == selector
              && |r.left| <= |selector| && r.left == selector[|selector| - |r.left|..]
  {
    assert [] + selector == selector;
    if r.Scanned? { Tail(Text(r.groups, r.seps, |selector| == 0), r.left, selector); }
  }

  lemma Tail<T>(front: seq<T>, rest: seq<T>, s: seq<T>)
    requires front + rest == s
    ensures |rest| <= |s| && rest == s[|s| - |rest|..]
  {
  }

  /** `toSelector` of the only group gives the selector back. */
  lemma OnlyGroup(l: Lexer, selector: string)
    requires l.Valid() && Accepted(Lex(l, selector)) && |Lex(l, selector).groups| == 1
    ensures ToSelector(Lex(l, selector).groups[0]) == selector
  {
    TokensMakeUpTheSelector(l, selector);
    var r := Lex(l, selector);
    assert ToSelector(r.groups[0]) + r.left == ToSelector(r.groups[0]);
  }

  // ---------------------------------------------------------------- no empty group

  lemma {:induction false} ScanFills(l: Lexer, left: string, groups: seq<seq<Token>>, seps: seq<string>, first: bool)
    requires l.Valid() && (first || |groups| > 0) && forall g :: g in groups ==> |g| > 0
    ensures Accepted(Scan(l, left, groups, seps, first)) ==>
            forall g :: g in Scan(l, left, groups, seps, first).groups ==> |g| > 0
    decreases |left|
  {
    if |left| == 0 {
    } else {
      var o := Combine(l, Open(l, left, groups, seps, first));
      var f := Filters(l, 0, o.left, o.tokens, o.matched);
      if f.Went? && f.matched { ScanFills(l, f.left, o.groups + [f.tokens], o.seps, false); }
    }
  }

  /** A selector that lexes has no empty group: neither a comma at the end nor two in a row get through. */
  lemma NoEmptyGroup(l: Lexer, selector: string)
    requires l.Valid() && Accepted(Lex(l, selector))
    ensures (forall g :: g in Lex(l, selector).groups ==> |g| > 0)
    ensures |Lex(l, selector).groups| == 0 <==> |selector| == 0
  {
    ScanFills(l, selector, [], [], true);
    TokensMakeUpTheSelector(l, selector);
  }
}
