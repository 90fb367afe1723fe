/**
 The credit card check: it writes the digits, alternately doubled, into one string and then adds up the characters of
 that string. The specification is the formula of ISO/IEC 7812-1, Annex B.
 */
module Luhn {
  import opened Digits

  // ---------------------------------------------------------------- the standard

  function DigitOf(c: char): (d: nat)
    requires IsDigit(c)
    ensures d <= 9
  {
    c as int - '0' as int
  }

  /** What a digit adds: itself, or the sum of the digits of its double. */
  function Contribution(d: nat, doubled: bool): nat {
    if doubled then 2 * d / 10 + 2 * d % 10 else d
  }

  /** The sum over all digits, from the right; every second digit is doubled. */
  function LuhnSum(s: string, doubled: bool): nat
    requires AllDigits(s)
  {
    if |s| == 0 then 0
    else Contribution(DigitOf(s[|s| - 1]), doubled) + LuhnSum(s[..|s| - 1], !doubled)
  }

  /** The numbers the check stands for. Non-digits never pass, and neither does a number of zeros. */
  predicate ValidNumber(s: string) {
    && 14 <= |s| <= 16
    && AllDigits(s)
    && (exists i :: 0 <= i < |s| && s[i] != '0')
    && LuhnSum(s, false) % 10 == 0
  }

  // ---------------------------------------------------------------- the code

  function Without(s: string, c: char): (r: string)
    ensures c !in r
    ensures forall x :: x != c ==> multiset(r)[x] == multiset(s)[x]
  {
    if |s| == 0 then []
    else
      assert s == s[..|s| - 1] + [s[|s| - 1]];
      Without(s[..|s| - 1], c) + if s[|s| - 1] == c then [] else [s[|s| - 1]]
  }

  /** The card number in a field: no spaces, no dashes. */
  function Strip(value: string): string { Without(Without(value, ' '), '-') }

  lemma {:induction false} WithoutAppend(a: string, b: string, c: char)
    ensures Without(a + b, c) == Without(a, c) + Without(b, c)
    decreases |b|
  {
    if |b| == 0 {
      assert a + b == a;
    } else {
      assert (a + b)[..|a + b| - 1] == a + b[..|b| - 1];
      WithoutAppend(a, b[..|b| - 1], c);
    }
  }

  /** Stripping works on each character alone: spaces and dashes go, everything else stays, in order. */
  lemma StripMeans(a: string, b: string, c: char)
    ensures Strip([]) == [] && Strip(a + b) == Strip(a) + Strip(b)
    ensures Strip([c]) == if c == ' ' || c == '-' then [] else [c]
  {
    WithoutAppend(a, b, ' ');
    WithoutAppend(Without(a, ' '), Without(b, ' '), '-');
    assert Without([c], ' ') == if c == ' ' then [] else [c];
    assert Without([c], '-') == if c == '-' then [] else [c];
  }

  /** A number of JavaScript, as far as it occurs here. */
  datatype Number = NaN | Num(n: nat)

  function ParseChar(c: char): Number { if IsDigit(c) then Num(DigitOf(c)) else NaN }

  function Plus(a: Number, b: Number): Number { if a.NaN? || b.NaN? then NaN else Num(a.n + b.n) }

  function Double(a: Number): Number { if a.NaN? then NaN else Num(2 * a.n) }

  /** A number below 20 as text. */
  function Show(a: Number): string
    requires a.Num? ==> a.n < 20
  {
    if a.NaN? then "NaN" else if a.n < 10 then ['0' + a.n as char] else ['1', '0' + (a.n - 10) as char]
  }

  /** `parseInt(s) > 0`; what other strings than digits give makes no difference to the outcome. */
  predicate ParsesPositive(s: string, other: string -> bool) {
    if AllDigits(s) then exists i :: 0 <= i < |s| && s[i] != '0' else other(s)
  }

  /** The sum of the characters of a string, the way the second loop adds them. */
  function CharSum(s: string): Number {
    if |s| == 0 then Num(0) else Plus(CharSum(s[..|s| - 1]), ParseChar(s[|s| - 1]))
  }

  /** What the first loop writes for one character. */
  function Piece(c: char, doubled: bool): string {
    var digit := ParseChar(c);
    Show(if doubled then Double(digit) else digit)
  }

  /** The sum over the digits that the first loop has still to write. */
  function Rest(s: string, doubled: bool): Number {
    if |s| == 0 then Num(0)
    else Plus(CharSum(Piece(s[|s| - 1], doubled)), Rest(s[..|s| - 1], !doubled))
  }

  lemma {:induction false} CharSumAppend(a: string, b: string)
    ensures CharSum(a + b) == Plus(CharSum(a), CharSum(b))
    decreases |b|
  {
    if |b| == 0 {
      assert a + b == a;
    } else {
      assert (a + b)[..|a + b| - 1] == a + b[..|b| - 1];
      CharSumAppend(a, b[..|b| - 1]);
    }
  }

  /** The characters of a written digit add up to its contribution; those of NaN to nothing. */
  lemma ShownSum(c: char, doubled: bool)
    ensures CharSum(Piece(c, doubled)) == if IsDigit(c) then Num(Contribution(DigitOf(c), doubled)) else NaN
  {
    ShowSum(if doubled then Double(ParseChar(c)) else ParseChar(c));
    if IsDigit(c) { Doubled(DigitOf(c)); }
  }

  lemma ShowSum(a: Number)
    requires a.Num? ==> a.n < 20
    ensures CharSum(Show(a)) == if a.NaN? then NaN else Num(if a.n < 10 then a.n else 1 + (a.n - 10))
  {
    if a.NaN? {
      assert "NaN" == "Na" + ['N'];
      CharSumAppend("Na", ['N']);
      OneChar('N');
    } else if a.n < 10 {
      OneChar('0' + a.n as char);
    } else {
      TwoChars('1', '0' + (a.n - 10) as char);
    }
  }

  lemma OneChar(c: char)
    ensures CharSum([c]) == ParseChar(c)
  {
    assert [c][..0] == [];
  }

  lemma TwoChars(a: char, b: char)
    ensures CharSum([a, b]) == Plus(ParseChar(a), ParseChar(b))
  {
    assert [a, b] == [a] + [b];
    CharSumAppend([a], [b]);
    OneChar(a);
    OneChar(b);
  }

  lemma {:induction false} RestIsLuhnSum(s: string, doubled: bool)
    ensures Rest(s, doubled) == if AllDigits(s) then Num(LuhnSum(s, doubled)) else NaN
    decreases |s|
  {
    if |s| == 0 {
    } else {
      var front := s[..|s| - 1];
      RestIsLuhnSum(front, !doubled);
      ShownSum(s[|s| - 1], doubled);
      LastDigit(s);
    }
  }

  lemma LastDigit(s: string)
    requires |s| > 0
    ensures AllDigits(s) <==> AllDigits(s[..|s| - 1]) && IsDigit(s[|s| - 1])
  {
    assert s == s[..|s| - 1] + [s[|s| - 1]];
  }

  /** `_creditCard` on the value of a field. */
  method CreditCard(value: string, other: string -> bool) returns (valid: bool)
    ensures valid <==> ValidNumber(Strip(value))
  {
    valid := false;
    var cardNumber := Strip(value);
    var numDigits := |cardNumber|;
    if 14 <= numDigits <= 16 && ParsesPositive(cardNumber, other) {
      var luhn := Written(cardNumber);
      var sum := AddUp(luhn);
      RestIsLuhnSum(cardNumber, false);
      valid := sum.Num? && sum.n % 10 == 0;
    }
  }

  /** The do-while loop: the digits from the last to the first, every second one doubled. */
  method Written(cardNumber: string) returns (luhn: string)
    requires |cardNumber| > 0
    ensures CharSum(luhn) == Rest(cardNumber, false)
  {
    var i, pos := |cardNumber| - 1, 1;
    luhn := [];
    WholeLeft(cardNumber, false);
    while true
      invariant 0 <= i < |cardNumber| && pos == |cardNumber| - i
      invariant Plus(CharSum(luhn), Rest(cardNumber[..i + 1], pos % 2 == 0)) == Rest(cardNumber, false)
      decreases i
    {
      OneWritten(luhn, cardNumber, i, pos % 2 == 0);
      Parity(pos);
      luhn, pos := luhn + Piece(cardNumber[i], pos % 2 == 0), pos + 1;
      i := i - 1;
      if i < 0 { break; }
    }
    NoneLeft(cardNumber, CharSum(luhn), pos % 2 == 0);
  }

  lemma WholeLeft(s: string, doubled: bool)
    ensures Plus(CharSum([]), Rest(s[..|s|], doubled)) == Rest(s, doubled)
  {
    assert s[..|s|] == s;
  }

  lemma NoneLeft(s: string, sum: Number, doubled: bool)
    ensures Plus(sum, Rest(s[..0], doubled)) == sum
  {
  }

  lemma Parity(pos: nat)
    ensures ((pos + 1) % 2 == 0) == !(pos % 2 == 0)
  {
  }

  lemma OneWritten(luhn: string, s: string, i: nat, doubled: bool)
    requires i < |s|
    ensures Plus(CharSum(luhn + Piece(s[i], doubled)), Rest(s[..i], !doubled))
            == Plus(CharSum(luhn), Rest(s[..i + 1], doubled))
  {
    assert s[..i + 1][..i] == s[..i] && s[..i + 1][i] == s[i];
    CharSumAppend(luhn, Piece(s[i], doubled));
    PlusAssociates(CharSum(luhn), CharSum(Piece(s[i], doubled)), Rest(s[..i], !doubled));
  }

  lemma PlusAssociates(a: Number, b: Number, c: Number)
    ensures Plus(Plus(a, b), c) == Plus(a, Plus(b, c))
  {
  }

  /** The second loop. */
  method AddUp(luhn: string) returns (sum: Number)
    ensures sum == CharSum(luhn)
  {
    sum := Num(0);
    for i := 0 to |luhn|
      invariant sum == CharSum(luhn[..i])
    {
      assert luhn[..i + 1][..i] == luhn[..i];
      sum := Plus(sum, ParseChar(luhn[i]));
    }
    assert luhn[..|luhn|] == luhn;
  }

  // ---------------------------------------------------------------- which numbers there are

  function Zeros(n: nat): (s: string)
    ensures |s| == n && AllDigits(s) && forall i :: 0 <= i < n ==> s[i] == '0'
  {
    seq(n, _ => '0')
  }

  lemma {:induction false} ZerosAddNothing(s: string, doubled: bool)
    requires AllDigits(s) && forall i :: 0 <= i < |s| ==> s[i] == '0'
    ensures LuhnSum(s, doubled) == 0
    decreases |s|
  {
    if |s| > 0 { ZerosAddNothing(s[..|s| - 1], !doubled); }
  }

  /** The sum of zeros alone would be right, but they are no number. */
  lemma ZerosAreRejected(s: string)
    requires AllDigits(s) && forall i :: 0 <= i < |s| ==> s[i] == '0'
    ensures LuhnSum(s, false) % 10 == 0 && !ValidNumber(s)
  {
    ZerosAddNothing(s, false);
  }

  /** 1 is doubled, 8 is not: 18 behind zeros is a number, 81 is none. */
  lemma Eighteen(n: nat)
    requires 12 <= n <= 14
    ensures ValidNumber(Zeros(n) + "18") && !ValidNumber(Zeros(n) + "81")
  {
    LastTwo(Zeros(n), '1', '8');
    LastTwo(Zeros(n), '8', '1');
    ZerosAddNothing(Zeros(n), false);
    assert (Zeros(n) + "18")[n] == '1';
  }

  lemma LastTwo(front: string, a: char, b: char)
    requires AllDigits(front) && IsDigit(a) && IsDigit(b)
    ensures var s := front + [a, b];
            AllDigits(s) && LuhnSum(s, false) == DigitOf(b) + Contribution(DigitOf(a), true) + LuhnSum(front, false)
  {
    var s := front + [a, b];
    assert s[..|s| - 1] == front + [a] && (front + [a])[..|front|] == front;
  }

  /** There are numbers of 14, 15 and 16 digits, and of no other length. */
  lemma LengthsAccepted(n: nat)
    ensures (exists s :: |s| == n && ValidNumber(s)) <==> 14 <= n <= 16
  {
    if 14 <= n <= 16 {
      Eighteen(n - 2);
      assert |Zeros(n - 2) + "18"| == n;
    }
  }

  // ---------------------------------------------------------------- what the sum detects

  /** Whether the digit at `k` is doubled, given whether the last one is. */
  predicate DoubledAt(s: string, k: nat, doubled: bool) { doubled == ((|s| - 1 - k) % 2 == 0) }

  lemma StillDigits(s: string, k: nat, c: char)
    requires AllDigits(s) && k < |s| && IsDigit(c)
    ensures AllDigits(s[k := c])
    ensures k == |s| - 1 ==> s[k := c][..|s| - 1] == s[..|s| - 1]
    ensures k < |s| - 1 ==> s[k := c][..|s| - 1] == s[..|s| - 1][k := c]
  {
  }

  /** The place a digit has decides what it adds, and nothing else depends on it. */
  lemma {:induction false} ChangeOne(s: string, k: nat, c: char, doubled: bool, d: bool)
    requires AllDigits(s) && k < |s| && IsDigit(c) && d == DoubledAt(s, k, doubled) && AllDigits(s[k := c])
    ensures LuhnSum(s[k := c], doubled) - LuhnSum(s, doubled)
         == Contribution(DigitOf(c), d) - Contribution(DigitOf(s[k]), d)
    decreases |s|
  {
    StillDigits(s, k, c);
    if k < |s| - 1 {
      StillDigits(s[..|s| - 1], k, c);
      ChangeOne(s[..|s| - 1], k, c, !doubled, d);
    }
  }

  /** Doubling permutes the digits, so contributions of different digits differ by less than ten. */
  lemma ContributionsDiffer(a: nat, b: nat, doubled: bool)
    requires a <= 9 && b <= 9
    ensures (Contribution(a, doubled) - Contribution(b, doubled)) % 10 == 0 <==> a == b
  {
    Doubled(a);
    Doubled(b);
    SmallMultiple(Contribution(a, doubled) - Contribution(b, doubled));
  }

  /** Swapping neighbours leaves the sum alone only for equal digits and for 0 with 9. */
  lemma SwapsSeen(a: nat, b: nat, d: bool)
    requires a <= 9 && b <= 9
    ensures (Contribution(b, d) - Contribution(a, d) + (Contribution(a, !d) - Contribution(b, !d))) % 10 == 0
       <==> a == b || (a == 0 && b == 9) || (a == 9 && b == 0)
  {
    Doubled(a);
    Doubled(b);
    SmallMultiple(Contribution(b, d) - Contribution(a, d) + (Contribution(a, !d) - Contribution(b, !d)));
  }

  lemma Doubled(d: nat)
    requires d <= 9
    ensures Contribution(d, true) == if d < 5 then 2 * d else 2 * d - 9
  {
  }

  lemma SmallMultiple(x: int)
    requires -20 < x < 20
    ensures x % 10 == 0 <==> x == -10 || x == 0 || x == 10
  {
  }

  lemma SameRemainder(sum: int, before: int, change: int)
    requires before % 10 == 0 && sum - before == change
    ensures sum % 10 == 0 <==> change % 10 == 0
  {
  }

  lemma OneDigitChanges(s: string, k: nat, c: char)
    requires AllDigits(s) && k < |s| && IsDigit(c) && AllDigits(s[k := c]) && LuhnSum(s, false) % 10 == 0
    ensures LuhnSum(s[k := c], false) % 10 == 0 <==> c == s[k]
  {
    var d := DoubledAt(s, k, false);
    ChangeOne(s, k, c, false, d);
    ContributionsDiffer(DigitOf(c), DigitOf(s[k]), d);
    SameRemainder(LuhnSum(s[k := c], false), LuhnSum(s, false),
        Contribution(DigitOf(c), d) - Contribution(DigitOf(s[k]), d));
  }

  /** No number with one character changed is valid again. */
  lemma OneCharacterChanged(s: string, k: nat, c: char)
    requires ValidNumber(s) && k < |s| && c != s[k]
    ensures !ValidNumber(s[k := c])
  {
    if IsDigit(c) {
      StillDigits(s, k, c);
      OneDigitChanges(s, k, c);
    } else {
      assert s[k := c][k] == c;
    }
  }

  lemma Alternates(s: string, k: nat, c: char)
    requires k + 1 < |s|
    ensures !DoubledAt(s, k, false) == DoubledAt(s[k := c], k + 1, false)
  {
  }

  /**
   What the sum gains when the digits `x` and `y` of neighbouring places are swapped; `x` stood at a place with `d`.
   */
  function SwapGain(x: char, y: char, d: bool): int
    requires IsDigit(x) && IsDigit(y)
  {
    Contribution(DigitOf(y), d) - Contribution(DigitOf(x), d)
        + (Contribution(DigitOf(x), !d) - Contribution(DigitOf(y), !d))
  }

  lemma CharactersSeen(x: char, y: char, d: bool)
    requires IsDigit(x) && IsDigit(y)
    ensures SwapGain(x, y, d) % 10 == 0 <==> x == y || (x == '0' && y == '9') || (x == '9' && y == '0')
  {
    SwapsSeen(DigitOf(x), DigitOf(y), d);
  }

  lemma TwoDigitsSwap(s: string, k: nat, half: string, t: string)
    requires AllDigits(s) && k + 1 < |s| && half == s[k := s[k + 1]] && t == half[k + 1 := s[k]]
    requires AllDigits(half) && AllDigits(t)
    ensures LuhnSum(t, false) - LuhnSum(s, false) == SwapGain(s[k], s[k + 1], DoubledAt(s, k, false))
  {
    var d := DoubledAt(s, k, false);
    Alternates(s, k, s[k + 1]);
    ChangeOne(s, k, s[k + 1], false, d);
    ChangeOne(half, k + 1, s[k], false, !d);
  }

  /** Two different neighbours swapped go unnoticed exactly when they are 0 and 9. */
  lemma NeighboursSwapped(s: string, k: nat)
    requires ValidNumber(s) && k + 1 < |s| && s[k] != s[k + 1]
    ensures ValidNumber(s[k := s[k + 1]][k + 1 := s[k]])
       <==> (s[k] == '0' && s[k + 1] == '9') || (s[k] == '9' && s[k + 1] == '0')
  {
    var half := s[k := s[k + 1]];
    var t := half[k + 1 := s[k]];
    StillDigits(s, k, s[k + 1]);
    StillDigits(half, k + 1, s[k]);
    TwoDigitsSwap(s, k, half, t);
    var gain := SwapGain(s[k], s[k + 1], DoubledAt(s, k, false));
    SameRemainder(LuhnSum(t, false), LuhnSum(s, false), gain);
    CharactersSeen(s[k], s[k + 1], DoubledAt(s, k, false));
    assert t[k] == s[k + 1] && t[k + 1] == s[k];
  }
}
