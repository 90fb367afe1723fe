/**
 What the lexer recognises: the text behind a comma is a selector of its own, and in a group the next token is the
 combinator the text begins with, or what the first expression that matches takes of it.
 */
module TokenizerMeaning {
  import opened Wrappers
  import opened Tokenizer

  // ---------------------------------------------------------------- commas

  /** A result with groups in front. */
  function Behind(groups: seq<seq<Token>>, seps: seq<string>, r: Scanned): Scanned {
    match r
    case Failed => Failed
    case Scanned(gs, ss, left) => Scanned(groups + gs, seps + ss, left)
  }

  /** Finished groups play no part in the rest of the scan. */
  lemma {:induction false} ScanBehind(l: Lexer, left: string, gs: seq<seq<Token>>, ss: seq<string>,
      groups: seq<seq<Token>>, seps: seq<string>)
    requires l.Valid() && |gs| > 0
    ensures Scan(l, left, groups + gs, seps + ss, false) == Behind(groups, seps, Scan(l, left, gs, ss, false))
    decreases |left|
  {
    if |left| == 0 {
    } else {
      OpenBehind(l, left, gs, ss, groups, seps);
      var o := Combine(l, Open(l, left, gs, ss, false));
      var f := Filters(l, 0, o.left, o.tokens, o.matched);
      if f.Went? {
        Regroup(groups, o.groups, [f.tokens]);
        if f.matched { ScanBehind(l, f.left, o.groups + [f.tokens], o.seps, groups, seps); }
      }
    }
  }

  lemma OpenBehind(l: Lexer, left: string, gs: seq<seq<Token>>, ss: seq<string>,
      groups: seq<seq<Token>>, seps: seq<string>)
    requires l.Valid() && |gs| > 0
    ensures var o, b := Open(l, left, gs, ss, false), Open(l, left, groups + gs, seps + ss, false);
            b == o.(groups := groups + o.groups, seps := seps + o.seps)
  {
    var n := |gs| - 1;
    assert (groups + gs)[..|groups| + n] == groups + gs[..n] && (groups + gs)[|groups| + n] == gs[n];
    if l.comma(left) > 0 { Regroup(seps, ss, [Open(l, left, gs, ss, false).seps[|ss|]]); }
  }

  /** The text behind a comma is lexed as a selector of its own, and its groups follow those before the comma. */
  lemma CommaSplits(l: Lexer, left: string, groups: seq<seq<Token>>, seps: seq<string>)
    requires l.Valid() && |groups| > 0 && 0 < l.comma(left) < |left|
    ensures var n := l.comma(left);
            Scan(l, left, groups, seps, false) == Behind(groups, seps + [left[..n]], Lex(l, left[n..]))
  {
    var n := l.comma(left);
    var rest, sep := left[n..], left[..n];
    var o, b := Combine(l, Open(l, rest, [], [], true)), Combine(l, Open(l, left, groups, seps, false));
    assert b == o.(groups := groups, seps := seps + [sep]);
    var f := Filters(l, 0, o.left, o.tokens, o.matched);
    if f.Went? {
      assert [] + [f.tokens] == [f.tokens] && seps + [sep] + [] == seps + [sep];
      if f.matched { ScanBehind(l, f.left, [f.tokens], [], groups, seps + [sep]); }
    }
  }

  /** A comma with nothing behind it opens a group but is not consumed: one has to match it otherwise, or it is left. */
  lemma TrailingComma(l: Lexer, left: string, groups: seq<seq<Token>>, seps: seq<string>)
    requires l.Valid() && |groups| > 0 && 0 < l.comma(left) == |left|
    ensures Scan(l, left, groups, seps, false) == Behind(groups, seps + [[]], Lex(l, left))
  {
    var o, b := Combine(l, Open(l, left, [], [], true)), Combine(l, Open(l, left, groups, seps, false));
    assert left[..0] == [] && left[0..] == left;
    assert b == o.(groups := groups, seps := seps + [[]]);
    var f := Filters(l, 0, o.left, o.tokens, o.matched);
    if f.Went? {
      assert [] + [f.tokens] == [f.tokens] && seps + [[]] + [] == seps + [[]];
      if f.matched { ScanBehind(l, f.left, [f.tokens], [], groups, seps + [[]]); }
    }
  }

  // ---------------------------------------------------------------- one group

  lemma {:induction false} FiltersAppend(l: Lexer, k: nat, left: string, tokens: seq<Token>, matched: bool)
    requires l.Valid() && k <= |l.types|
    ensures var f := Filters(l, k, left, tokens, matched); f.Went? ==> tokens <= f.tokens
    decreases |left|, |l.types| - k
  {
    if k < |l.types| {
      match Filter(l, l.types[k], left)
      case Rejected => FiltersAppend(l, k + 1, left, tokens, matched);
      case Thrown =>
      case Kept(len, matches) =>
        var t := Token(left[..len], l.types[k], matches);
        FiltersAppend(l, k + 1, left[len..], tokens + [t], true);
        assert tokens <= tokens + [t];
    }
  }

  /** Finished groups stay, the open one may grow, and others may follow. */
  ghost predicate Longer(a: seq<seq<Token>>, b: seq<seq<Token>>)
    requires |a| > 0
  {
    var n := |a| - 1;
    |b| > n && b[..n] == a[..n] && a[n] <= b[n]
  }

  lemma LongerTwice(a: seq<seq<Token>>, b: seq<seq<Token>>, c: seq<seq<Token>>)
    requires |a| > 0 && Longer(a, b) && Longer(b, c)
    ensures Longer(a, c)
  {
    var n, m := |a| - 1, |b| - 1;
    assert c[..m][..n] == c[..n] && b[..m][..n] == b[..n];
    if n < m { assert c[..m][n] == b[..m][n]; }
  }

  lemma RoundLonger(l: Lexer, left: string, groups: seq<seq<Token>>, seps: seq<string>, tokens: seq<Token>)
    requires l.Valid() && |groups| > 0
    ensures var o := Combine(l, Open(l, left, groups, seps, false));
            o.tokens <= tokens ==> Longer(groups, o.groups + [tokens])
  {
    var n := |groups| - 1;
    var b := Open(l, left, groups, seps, false);
    var o := Combine(l, b);
    assert b.tokens <= o.tokens;
    assert (groups + [tokens])[..n] == groups[..n];
    assert (groups[..n] + [tokens])[..n] == groups[..n];
  }

  /** A scan only adds: to the open group, and groups behind it. */
  lemma {:induction false} ScanAppends(l: Lexer, left: string, groups: seq<seq<Token>>, seps: seq<string>)
    requires l.Valid() && |groups| > 0
    ensures var r := Scan(l, left, groups, seps, false); r.Scanned? ==> Longer(groups, r.groups)
    decreases |left|
  {
    if |left| > 0 {
      var o := Combine(l, Open(l, left, groups, seps, false));
      var f := Filters(l, 0, o.left, o.tokens, o.matched);
      FiltersAppend(l, 0, o.left, o.tokens, o.matched);
      if f.Went? {
        var next := o.groups + [f.tokens];
        RoundLonger(l, left, groups, seps, f.tokens);
        if f.matched {
          ScanAppends(l, f.left, next, o.seps);
          var r := Scan(l, f.left, next, o.seps, false);
          hide Longer, Combine, Open, Filters;
          if r.Scanned? { LongerTwice(groups, next, r.groups); }
        }
      }
    }
  }

  /** The open group once a token has been taken from the front of the text. */
  ghost predicate Takes(r: Scanned, groups: seq<seq<Token>>, t: Token)
    requires |groups| > 0
  {
    var n := |groups| - 1;
    r.Scanned? ==> |r.groups| > n && r.groups[..n] == groups[..n] && groups[n] + [t] <= r.groups[n]
  }

  /** Where there is no comma, a combinator at the front of the text is the next token of the open group. */
  lemma CombinatorTaken(l: Lexer, left: string, groups: seq<seq<Token>>, seps: seq<string>, len: nat, typ: string)
    requires l.Valid() && |groups| > 0 && |left| > 0 && l.comma(left) == 0 && l.combinator(left) == Some((len, typ))
    ensures Takes(Scan(l, left, groups, seps, false), groups, Token(left[..len], typ, []))
  {
    var n := |groups| - 1;
    var o := Combine(l, Open(l, left, groups, seps, false));
    assert o.tokens == groups[n] + [Token(left[..len], typ, [])] && o.groups == groups[..n];
    FiltersAppend(l, 0, o.left, o.tokens, o.matched);
    GroupTaken(l, left, groups, seps, Token(left[..len], typ, []));
  }

  /** The round goes on with these tokens in front. */
  lemma GroupTaken(l: Lexer, left: string, groups: seq<seq<Token>>, seps: seq<string>, t: Token)
    requires l.Valid() && |groups| > 0 && |left| > 0
    requires var o := Combine(l, Open(l, left, groups, seps, false));
             var f := Filters(l, 0, o.left, o.tokens, o.matched);
             o.groups == groups[..|groups| - 1] && (f.Went? ==> groups[|groups| - 1] + [t] <= f.tokens)
    ensures Takes(Scan(l, left, groups, seps, false), groups, t)
  {
    var o := Combine(l, Open(l, left, groups, seps, false));
    var f := Filters(l, 0, o.left, o.tokens, o.matched);
    if f.Went? && f.matched { ScanAppends(l, f.left, o.groups + [f.tokens], o.seps); }
  }

  /** Expression `k` is the first that takes something. */
  ghost predicate FirstKept(l: Lexer, left: string, from: nat, k: nat)
    requires l.Valid()
  {
    && from <= k < |l.types| && Filter(l, l.types[k], left).Kept?
    && forall j :: from <= j < k ==> Filter(l, l.types[j], left).Rejected?
  }

  lemma {:induction false} FirstTaken(l: Lexer, from: nat, left: string, tokens: seq<Token>, matched: bool, k: nat)
    requires l.Valid() && FirstKept(l, left, from, k)
    ensures var f, e := Filters(l, from, left, tokens, matched), Filter(l, l.types[k], left);
            f.Went? ==> tokens + [Token(left[..e.len], l.types[k], e.matches)] <= f.tokens
    decreases k - from
  {
    if from < k {
      FirstTaken(l, from + 1, left, tokens, matched, k);
    } else {
      var e := Filter(l, l.types[k], left);
      FiltersAppend(l, k + 1, left[e.len..], tokens + [Token(left[..e.len], l.types[k], e.matches)], true);
    }
  }

  /** Where there is neither comma nor combinator, the first expression that matches gives the next token. */
  lemma FilterTaken(l: Lexer, left: string, groups: seq<seq<Token>>, seps: seq<string>, k: nat)
    requires l.Valid() && |groups| > 0 && |left| > 0 && l.comma(left) == 0 && l.combinator(left).None?
    requires FirstKept(l, left, 0, k)
    ensures var e := Filter(l, l.types[k], left);
            Takes(Scan(l, left, groups, seps, false), groups, Token(left[..e.len], l.types[k], e.matches))
  {
    var e := Filter(l, l.types[k], left);
    FirstTaken(l, 0, left, groups[|groups| - 1], false, k);
    GroupTaken(l, left, groups, seps, Token(left[..e.len], l.types[k], e.matches));
  }

  lemma AfterFirstRound(l: Lexer, selector: string, f: Filtering)
    requires l.Valid() && |selector| > 0
    requires var o := Combine(l, Open(l, selector, [], [], true));
             o.groups == [] && o.seps == [] && f == Filters(l, 0, o.left, o.tokens, o.matched)
    ensures Lex(l, selector)
         == if f.Stopped? then Failed
            else if f.matched then Scan(l, f.left, [f.tokens], [], false)
            else Scanned([f.tokens], [], f.left)
  {
    hide Filters, Combine, Open;
    assert f.Went? ==> [] + [f.tokens] == [f.tokens];
  }

  /** The first round begins with this token. */
  lemma FirstRound(l: Lexer, selector: string, t: Token)
    requires l.Valid() && |selector| > 0
    requires var o := Combine(l, Open(l, selector, [], [], true));
             var f := Filters(l, 0, o.left, o.tokens, o.matched);
             o.groups == [] && o.seps == [] && (f.Went? ==> [t] <= f.tokens)
    ensures Starts(Lex(l, selector), t)
  {
    hide Filters, Open, Combine, Scan, Lex;
    var o := Combine(l, Open(l, selector, [], [], true));
    var f := Filters(l, 0, o.left, o.tokens, o.matched);
    AfterFirstRound(l, selector, f);
    if f.Went? && f.matched { ScanAppends(l, f.left, [f.tokens], []); }
  }

  /** The same at the start of a selector: its first token opens the first group. A comma there is nothing special. */
  lemma FirstCombinator(l: Lexer, selector: string, len: nat, typ: string)
    requires l.Valid() && |selector| > 0 && l.combinator(selector) == Some((len, typ))
    ensures Starts(Lex(l, selector), Token(selector[..len], typ, []))
  {
    var o := Combine(l, Open(l, selector, [], [], true));
    FiltersAppend(l, 0, o.left, o.tokens, o.matched);
    FirstRound(l, selector, Token(selector[..len], typ, []));
    hide Lex;
  }

  lemma FirstFilter(l: Lexer, selector: string, k: nat)
    requires l.Valid() && |selector| > 0 && l.combinator(selector).None? && FirstKept(l, selector, 0, k)
    ensures var e := Filter(l, l.types[k], selector);
            Starts(Lex(l, selector), Token(selector[..e.len], l.types[k], e.matches))
  {
    hide Lex, Filters;
    var e := Filter(l, l.types[k], selector);
    FirstTaken(l, 0, selector, [], false, k);
    FirstRound(l, selector, Token(selector[..e.len], l.types[k], e.matches));
  }

  ghost predicate Starts(r: Scanned, t: Token) {
    r.Scanned? ==> |r.groups| > 0 && |r.groups[0]| > 0 && r.groups[0][0] == t
  }

  lemma {:induction false} NothingKept(l: Lexer, from: nat, left: string, tokens: seq<Token>)
    requires l.Valid() && from <= |l.types|
    requires forall j :: from <= j < |l.types| ==> Filter(l, l.types[j], left).Rejected?
    ensures Filters(l, from, left, tokens, false) == Went(left, tokens, false)
    decreases |l.types| - from
  {
    if from == |l.types| {
    } else {
      NothingKept(l, from + 1, left, tokens);
    }
  }

  /** Where nothing matches the scan ends, and all the text that is there is left. */
  lemma NothingTaken(l: Lexer, left: string, groups: seq<seq<Token>>, seps: seq<string>)
    requires l.Valid() && |groups| > 0 && |left| > 0 && l.comma(left) == 0 && l.combinator(left).None?
    requires forall j :: 0 <= j < |l.types| ==> Filter(l, l.types[j], left).Rejected?
    ensures Scan(l, left, groups, seps, false) == Scanned(groups, seps, left)
  {
    NothingKept(l, 0, left, groups[|groups| - 1]);
    assert groups[..|groups| - 1] + [groups[|groups| - 1]] == groups;
  }

  // ---------------------------------------------------------------- pseudo arguments

  /**
   An unquoted argument that looks like a selector is taken as far as it lexes as one, up to the next closing
   parenthesis. All other arguments are taken as they are.
   */
  lemma PseudoTaken(l: Lexer, typ: string, left: string, len: nat, name: string, argument: string)
    requires l.Valid() && l.attempt(typ, left) == Pseudo(len, false, name, Some(argument), None, false)
    requires |argument| > 0
    ensures var r, f := Lex(l, argument), Filter(l, typ, left);
            && (!l.looksPseudo(argument) || Accepted(r) ==> f == Kept(len, [name, argument]))
            && (l.looksPseudo(argument) && r.Failed? ==> f == Thrown)
            && (l.looksPseudo(argument) && r.Scanned? && |r.left| > 0 ==>
                  forall p :: |argument| - |r.left| <= p < |argument| && argument[p] == ')'
                              && (forall q :: |argument| - |r.left| <= q < p ==> argument[q] != ')') ==>
                    f == Kept(len - (|argument| - p), [name, argument[..p]]))
  {
    var r := Lex(l, argument);
    assert l.Fits(l.attempt(typ, left), left);
    if r.Scanned? && |r.left| > 0 {
      var from := |argument| - |r.left|;
      forall p | from <= p < |argument| && argument[p] == ')' && (forall q :: from <= q < p ==> argument[q] != ')')
        ensures IndexOf(argument, ')', from) == p
      {
      }
    }
  }

  /** A child filter is left to its own expression; a quoted argument is taken without its quotes; others stay. */
  lemma OtherPseudos(l: Lexer, typ: string, left: string, len: nat, name: string, argument: string, quoted: string)
    requires l.Valid() && |argument| + 3 <= len <= |left|
    ensures l.attempt(typ, left) == Pseudo(len, true, name, Some(argument), None, false) ==>
              Filter(l, typ, left) == Rejected
    ensures l.attempt(typ, left) == Pseudo(len, false, name, Some(argument), Some(quoted), false) ==>
              Filter(l, typ, left) == Kept(len, [name, quoted])
    ensures l.attempt(typ, left) == Pseudo(len, false, name, Some(argument), None, true) ==>
              Filter(l, typ, left) == Kept(len, [name, argument])
    ensures l.attempt(typ, left) == Pseudo(len, false, name, None, None, false) ==>
              Filter(l, typ, left) == Kept(len, [name])
  {
  }

  // ---------------------------------------------------------------- an input

  /** Tag names of one letter, `>` and `,`. */
  function Letters(): Lexer {
    Lexer(s => if |s| > 0 && s[0] == ',' then 1 else 0,
          s => if |s| > 0 && s[0] == '>' then Some((1, ">")) else None,
          ["TAG"],
          (t, s) => if |s| > 0 && 'a' <= s[0] <= 'z' then Plain(1, [s[..1]]) else NoMatch,
          s => false)
  }

  function Tag(c: char): Token { Token([c], "TAG", [[c]]) }

  lemma LettersValid()
    ensures Letters().Valid()
  {
  }

  lemma LetterFiltered(c: char, rest: string)
    requires 'a' <= c <= 'z'
    ensures Letters().Valid() && Filters(Letters(), 0, [c] + rest, [], false) == Went(rest, [Tag(c)], true)
  {
    var l, s := Letters(), [c] + rest;
    LettersValid();
    assert s[..1] == [c] && s[1..] == rest;
    assert Filter(l, "TAG", s) == Kept(1, [[c]]);
    assert [] + [Tag(c)] == [Tag(c)];
    FiltersStep(l, 0, s, [], false);
    FiltersEnd(l, rest, [Tag(c)], true);
  }

  /** One round over a letter. */
  lemma LetterTaken(c: char, rest: string)
    requires 'a' <= c <= 'z'
    ensures Letters().Valid() && Lex(Letters(), [c] + rest) == Scan(Letters(), rest, [[Tag(c)]], [], false)
  {
    var l, s := Letters(), [c] + rest;
    LettersValid();
    LetterFiltered(c, rest);
    assert Combine(l, Open(l, s, [], [], true)) == Round([], [], [], s, false);
    assert [] + [[Tag(c)]] == [[Tag(c)]];
    hide Filters, Combine, Open;
  }

  lemma OneLetter(c: char)
    requires 'a' <= c <= 'z'
    ensures Letters().Valid() && Lex(Letters(), [c]) == Scanned([[Tag(c)]], [], [])
  {
    LetterTaken(c, []);
    assert [c] + [] == [c];
  }

  /** `a,b` is two groups of one token. */
  lemma TwoGroups()
    ensures Letters().Valid() && Lex(Letters(), "a,b") == Scanned([[Tag('a')], [Tag('b')]], [","], [])
  {
    hide Lex, Scan;
    var l := Letters();
    LettersValid();
    LetterTaken('a', ",b");
    OneLetter('b');
    assert "a,b" == ['a'] + ",b" && "b" == ['b'] && ",b"[..1] == "," && ",b"[1..] == "b";
    CommaSplits(l, ",b", [[Tag('a')]], []);
    assert [[Tag('a')]] + [[Tag('b')]] == [[Tag('a')], [Tag('b')]] && [] + [","] + [] == [","];
  }
}
