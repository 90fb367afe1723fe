/**
 The resident identity number: the Java upgrade from 15 to 18 characters, and the two JavaScript checks. All three
 rest on the check equation of ISO/IEC 7064 for the pure system MOD 11-2.
 */
module ResidentId {
  import opened Digits
  import opened Wrappers

  // ---------------------------------------------------------------- the check equation of MOD 11-2

  /** `x` doubled `n` times, that is x * 2^n. */
  function Scale(x: int, n: nat): (r: int)
    ensures x >= 0 ==> r >= 0
    decreases n
  {
    if n == 0 then x else Scale(2 * x, n - 1)
  }

  /** The basic formula: each value counts with the power of two of its distance from the right end. */
  function IsoSum(v: seq<nat>): (r: nat) { if |v| == 0 then 0 else Scale(v[0], |v| - 1) + IsoSum(v[1..]) }

  predicate Congruent(v: seq<nat>) { IsoSum(v) % 11 == 1 }

  /** The check value that completes 17 values. */
  function CheckValue(v: seq<nat>): (c: nat)
    ensures c <= 10
  {
    (12 - IsoSum(v + [0]) % 11) % 11
  }

  lemma {:induction false} LastValue(v: seq<nat>, c: nat)
    ensures IsoSum(v + [c]) == IsoSum(v + [0]) + c
    decreases |v|
  {
    if |v| == 0 {
      assert v + [c] == [c] && v + [0] == [0] && IsoSum([]) == 0;
    } else {
      assert (v + [c])[1..] == v[1..] + [c] && (v + [0])[1..] == v[1..] + [0];
      LastValue(v[1..], c);
    }
  }

  /** Exactly one last value completes a number. */
  lemma CheckValueIsTheOne(v: seq<nat>, c: nat)
    requires c <= 10
    ensures Congruent(v + [c]) <==> c == CheckValue(v)
  {
    LastValue(v, c);
    Completes(IsoSum(v + [0]), c);
  }

  lemma Completes(sum: nat, c: nat)
    requires c <= 10
    ensures (sum + c) % 11 == 1 <==> c == (12 - sum % 11) % 11
  {
  }

  lemma {:induction false} ScaleDifference(x: int, y: int, n: nat)
    ensures Scale(x, n) - Scale(y, n) == Scale(x - y, n)
    decreases n
  {
    if n == 0 {
    } else {
      ScaleDifference(2 * x, 2 * y, n - 1);
    }
  }

  lemma {:induction false} ScaleTwice(x: int, m: nat, n: nat)
    ensures Scale(x, m + n) == Scale(Scale(x, m), n)
    decreases m
  {
    if m == 0 {
    } else {
      ScaleTwice(2 * x, m - 1, n);
    }
  }

  /** Powers of two have no factor 11. */
  lemma {:induction false} NoFactorEleven(d: int, n: nat)
    ensures Scale(d, n) % 11 == 0 <==> d % 11 == 0
    decreases n
  {
    if n == 0 {
    } else {
      NoFactorEleven(2 * d, n - 1);
    }
  }

  /** 2^10 is 1 modulo 11. */
  lemma Period(x: int, n: nat)
    ensures Scale(x, n) % 11 == Scale(x, n % 10) % 11
  {
    Periods(x, n / 10, n % 10);
  }

  lemma {:induction false} Periods(x: int, q: nat, r: nat)
    ensures Scale(x, 10 * q + r) % 11 == Scale(x, r) % 11
    decreases q
  {
    if q == 0 {
    } else {
      TenMore(x, 10 * (q - 1) + r, 10);
      Periods(x, q - 1, r);
    }
  }

  lemma TenMore(x: int, n: nat, ten: nat)
    requires ten == 10
    ensures Scale(x, ten + n) % 11 == Scale(x, n) % 11
  {
    ScaleTwice(x, ten, n);
    SmallScale(x, ten);
    ScaleDifference(1024 * x, x, n);
    NoFactorEleven(1024 * x - x, n);
    MultipleOfEleven(1024 * x - x, 93 * x);
    EqualRemainders(Scale(1024 * x, n), Scale(x, n));
  }

  lemma MultipleOfEleven(a: int, q: int)
    requires a == 11 * q
    ensures a % 11 == 0
  {
  }

  lemma EqualRemainders(a: int, b: int)
    requires (a - b) % 11 == 0
    ensures a % 11 == b % 11
  {
  }

  lemma SmallScale(x: int, k: nat)
    requires k <= 10
    ensures k == 0 ==> Scale(x, k) == x
    ensures k == 1 ==> Scale(x, k) == 2 * x
    ensures k == 2 ==> Scale(x, k) == 4 * x
    ensures k == 3 ==> Scale(x, k) == 8 * x
    ensures k == 4 ==> Scale(x, k) == 16 * x
    ensures k == 5 ==> Scale(x, k) == 32 * x
    ensures k == 6 ==> Scale(x, k) == 64 * x
    ensures k == 7 ==> Scale(x, k) == 128 * x
    ensures k == 8 ==> Scale(x, k) == 256 * x
    ensures k == 9 ==> Scale(x, k) == 512 * x
    ensures k == 10 ==> Scale(x, k) == 1024 * x
    decreases k
  {
    if k == 0 {
    } else {
      SmallScale(2 * x, k - 1);
    }
  }

  /** Two has order 10 modulo 11: only multiples of ten doublings leave a value unchanged. */
  lemma OrderTen(d: int, n: nat)
    ensures (Scale(d, n) - d) % 11 == 0 <==> d % 11 == 0 || n % 10 == 0
  {
    Period(d, n);
    SmallScale(d, n % 10);
    MovedBy(Scale(d, n), Scale(d, n % 10), d);
    OrderBelowTen(d, n % 10);
  }

  lemma MovedBy(a: int, b: int, d: int)
    requires a % 11 == b % 11
    ensures (a - d) % 11 == 0 <==> (b - d) % 11 == 0
  {
  }

  /** 2^k - 1 is, modulo 11, a power of two for each k from 1 to 9. */
  lemma OrderBelowTen(d: int, k: nat)
    requires k < 10
    ensures (Scale(d, k) - d) % 11 == 0 <==> d % 11 == 0 || k == 0
  {
    var j := if k <= 1 then 0 else if k == 2 then 8 else if k == 3 then 7 else if k == 4 then 2 else if k == 5 then 6
             else if k == 6 then 3 else if k == 7 then 9 else if k == 8 then 1 else 4;
    var q := if k <= 1 then 0 else if k == 2 then -23 * d else if k == 3 then -11 * d else if k == 4 then d
             else if k == 5 then -3 * d else if k == 6 then 5 * d else if k == 7 then -35 * d
             else if k == 8 then 23 * d else 45 * d;
    SmallScale(d, k);
    SmallScale(d, j);
    if k > 0 { OrderCase(d, k, j, q); }
  }

  lemma OrderCase(d: int, k: nat, j: nat, q: int)
    requires Scale(d, k) - d - Scale(d, j) == 11 * q
    ensures (Scale(d, k) - d) % 11 == 0 <==> d % 11 == 0
  {
    MultipleOfEleven(Scale(d, k) - d - Scale(d, j), q);
    EqualRemainders(Scale(d, k) - d, Scale(d, j));
    NoFactorEleven(d, j);
  }

  lemma Around(v: seq<nat>, k: nat, x: nat)
    requires k < |v|
    ensures v[k := x][1..] == if k == 0 then v[1..] else v[1..][k - 1 := x]
  {
  }

  /** How the sum moves when one value changes. */
  lemma {:induction false} ChangeOne(v: seq<nat>, k: nat, x: nat)
    requires k < |v|
    ensures IsoSum(v[k := x]) - IsoSum(v) == Scale(x - v[k], |v| - 1 - k)
    decreases |v|
  {
    Around(v, k, x);
    if k == 0 { ScaleDifference(x, v[0], |v| - 1); } else { ChangeOne(v[1..], k - 1, x); }
  }

  /** A congruent number with one value changed by less than 11 is no longer congruent. */
  lemma OneChangeFound(v: seq<nat>, k: nat, x: nat)
    requires k < |v| && Congruent(v) && v[k] <= 10 && x <= 10
    ensures Congruent(v[k := x]) <==> x == v[k]
  {
    ChangeOne(v, k, x);
    NoFactorEleven(x - v[k], |v| - 1 - k);
    SameRemainder(IsoSum(v), Scale(x - v[k], |v| - 1 - k));
  }

  lemma SameRemainder(sum: int, moved: int)
    requires sum % 11 == 1
    ensures (sum + moved) % 11 == 1 <==> moved % 11 == 0
  {
  }

  /** How the sum moves when two values change places. */
  lemma SwapMoves(v: seq<nat>, i: nat, j: nat, d: int, m: nat)
    requires i < j < |v| && v[i] + d == v[j] && m == |v| - 1 - j
    ensures IsoSum(v[i := v[j]][j := v[i]]) == IsoSum(v) + Scale(Scale(d, j - i) - d, m)
  {
    var w := v[i := v[j]];
    assert IsoSum(w) == IsoSum(v) + Scale(d, j - i + m) by { ChangeOne(v, i, v[j]); }
    assert IsoSum(w[j := v[i]]) == IsoSum(w) + Scale(-d, m) by { ChangeOne(w, j, v[i]); }
    MoveAndBack(d, j - i, m);
  }

  lemma MoveAndBack(d: int, n: nat, m: nat)
    ensures Scale(d, n + m) + Scale(-d, m) == Scale(Scale(d, n) - d, m)
  {
    ScaleTwice(d, n, m);
    ScaleDifference(Scale(d, n), d, m);
    ScaleDifference(d, d, m);
    ScaleDifference(0, d, m);
    ScaleDifference(0, 0, m);
  }

  /** Swapping two different values goes unnoticed exactly when they stand a multiple of ten places apart. */
  lemma SwapFoundExactly(v: seq<nat>, i: nat, j: nat)
    requires i < j < |v| && Congruent(v) && v[i] <= 10 && v[j] <= 10
    ensures Congruent(v[i := v[j]][j := v[i]]) <==> v[i] == v[j] || (j - i) % 10 == 0
  {
    var a: int, b: int := v[i], v[j];
    var d := b - a;
    SwapMoves(v, i, j, d, |v| - 1 - j);
    SameRemainder(IsoSum(v), Scale(Scale(d, j - i) - d, |v| - 1 - j));
    NoFactorEleven(Scale(d, j - i) - d, |v| - 1 - j);
    OrderTen(d, j - i);
  }

  // ---------------------------------------------------------------- weights

  function Pow2(n: nat): nat { if n == 0 then 1 else 2 * Pow2(n - 1) }

  /** The powers of two modulo 11. */
  function PowerMod(k: nat): nat
    requires k < 10
  {
    if k < 4 then (if k == 0 then 1 else if k == 1 then 2 else if k == 2 then 4 else 8)
    else if k < 7 then (if k == 4 then 5 else if k == 5 then 10 else 9)
    else if k == 7 then 7 else if k == 8 then 3 else 6
  }

  lemma {:induction false} PowerRemainder(n: nat)
    ensures Pow2(n) % 11 == PowerMod(n % 10)
    decreases n
  {
    if n == 0 {
    } else {
      PowerRemainder(n - 1);
      Twice(Pow2(n - 1));
      NextDigit(n);
    }
  }

  lemma NextDigit(n: nat)
    requires n > 0
    ensures n % 10 == if (n - 1) % 10 == 9 then 0 else (n - 1) % 10 + 1
  {
  }

  lemma Twice(p: nat)
    ensures (2 * p) % 11 == (2 * (p % 11)) % 11
  {
  }

  /** A reduced weight does the work of the power it comes from. */
  lemma Weight(x: nat, n: nat)
    ensures x * PowerMod(n % 10) >= 0 && (x * PowerMod(n % 10)) % 11 == Scale(x, n) % 11
  {
    Period(x, n);
    SmallWeight(x, n % 10);
  }

  lemma SmallWeight(x: nat, k: nat)
    requires k < 10
    ensures x * PowerMod(k) >= 0 && (x * PowerMod(k)) % 11 == Scale(x, k) % 11
  {
    var q := if k <= 3 then 0 else if k == 4 then x else if k == 5 then 2 * x else if k == 6 then 5 * x
             else if k == 7 then 11 * x else if k == 8 then 23 * x else 46 * x;
    SmallScale(x, k);
    Product(x, k);
    MultipleOfEleven(Scale(x, k) - Times(x, k), q);
    EqualRemainders(Scale(x, k), Times(x, k));
  }

  function Times(x: nat, k: nat): nat
    requires k < 10
  {
    if k < 4 then (if k == 0 then x else if k == 1 then 2 * x else if k == 2 then 4 * x else 8 * x)
    else if k < 7 then (if k == 4 then 5 * x else if k == 5 then 10 * x else 9 * x)
    else if k == 7 then 7 * x else if k == 8 then 3 * x else 6 * x
  }

  lemma Product(x: nat, k: nat)
    requires k < 10
    ensures x * PowerMod(k) == Times(x, k)
  {
  }

  lemma AddStep(sum: int, term: int, scaled: int, rest: int)
    requires term % 11 == scaled % 11
    ensures (sum + term + rest) % 11 == (sum + (scaled + rest)) % 11
  {
  }

  /** One round of a summing loop: the weighted value takes the place of its term in the sum still to come. */
  lemma Weigh(v: seq<nat>, i: nat, sum: int)
    requires |v| == 18 && i < 18
    ensures var term := v[i] * PowerMod((17 - i) % 10);
            term >= 0 && (sum + term + IsoSum(v[i + 1..])) % 11 == (sum + IsoSum(v[i..])) % 11
  {
    assert v[i..][1..] == v[i + 1..];
    Weight(v[i], 17 - i);
    AddStep(sum, v[i] * PowerMod((17 - i) % 10), Scale(v[i], 17 - i), IsoSum(v[i + 1..]));
  }

  // ---------------------------------------------------------------- characters

  /** The value of a character: a digit's, and ten for the letter that stands for ten. */
  function Value(c: char): (v: nat)
    ensures v <= 10
  {
    if IsDigit(c) then c as int - '0' as int else 10
  }

  function Values(s: string): seq<nat> { seq(|s|, i requires 0 <= i < |s| => Value(s[i])) }

  const CODE := "10X98765432"
  const FACTOR := [7, 9, 10, 5, 8, 4, 2, 1, 6, 3, 7, 9, 10, 5, 8, 4, 2, 1]

  /** The weights of the Java class are the powers of two modulo 11. */
  lemma FactorEntry(i: nat)
    requires i < 18
    ensures FACTOR[i] == PowerMod((17 - i) % 10)
  {
    if i < 8 { assert (17 - i) % 10 == 7 - i; } else { assert (17 - i) % 10 == 17 - i; }
    var t := FACTOR;
    assert t[0] == t[10] == 7 && t[1] == t[11] == 9 && t[2] == t[12] == 10 && t[3] == t[13] == 5 && t[4] == t[14] == 8;
    assert t[5] == t[15] == 4 && t[6] == t[16] == 2 && t[7] == t[17] == 1 && t[8] == 6 && t[9] == 3;
  }

  // ---------------------------------------------------------------- the Java upgrade

  datatype Failure = WrongLength | NotANumber | Invalid

  /** `String.trim`: characters up to the space, at both ends. */
  function Trim(s: string): (r: string)
    ensures |r| <= |s|
    decreases |s|
  {
    if |s| == 0 then s
    else if s[0] <= ' ' then Trim(s[1..])
    else if s[|s| - 1] <= ' ' then Trim(s[..|s| - 1])
    else s
  }

  function Century(s: string): string
    requires |s| >= 15
  {
    s[..6] + "19" + s[6..15]
  }

  /** The character of a check value, with the capital letter for ten. */
  function CheckChar(c: nat): char
    requires c <= 10
  {
    if c == 10 then 'X' else '0' + c as char
  }

  /**
   `Character.digit( c, 10 )`, by which the Java parsers go. It knows the decimal digits of all scripts; about ASCII
   there is no doubt.
   */
  type DigitOf = char -> int

  ghost predicate JavaDigits(dv: DigitOf) {
    forall c :: -1 <= dv(c) <= 9 && (c as int < 128 ==> dv(c) == if IsDigit(c) then c as int - '0' as int else -1)
  }

  predicate Digital(dv: DigitOf, s: string) { forall i :: 0 <= i < |s| ==> 0 <= dv(s[i]) <= 9 }

  /** The value the Java code gives a character. */
  function JavaValue(dv: DigitOf, c: char): (v: nat)
    ensures v <= 10
  {
    if 0 <= dv(c) <= 9 then dv(c) else 10
  }

  function JavaValues(dv: DigitOf, s: string): seq<nat> {
    seq(|s|, i requires 0 <= i < |s| => JavaValue(dv, s[i]))
  }

  predicate Ascii(s: string) { forall i :: 0 <= i < |s| ==> s[i] as int < 128 }

  /** What the upgrade means: the century is put in and the completing check character appended. */
  function Fix(dv: DigitOf, s: string): Result<string, Failure> {
    if |Trim(s)| != 15 then Err(WrongLength)
    else if !Digital(dv, s[..15]) then Err(NotANumber)
    else Ok(Century(s) + [CheckChar(CheckValue(JavaValues(dv, Century(s))))])
  }

  lemma CodeIsCheckChar(r: nat)
    requires r < 11
    ensures CODE[r] == CheckChar((12 - r) % 11)
  {
  }

  /** `fixPersonIDCodeWithoutCheck` */
  method FixWithoutCheck(dv: DigitOf, s: string) returns (r: Result<string, Failure>)
    requires JavaDigits(dv)
    ensures r == Fix(dv, s)
  {
    if |Trim(s)| != 15 { return Err(WrongLength); }
    var id17 := s[..6] + "19" + s[6..15];
    CenturyDigits(dv, s);
    var idcd, ok := ParseDigits(dv, id17);
    if !ok { return Err(NotANumber); }
    var remainder := Remainder(idcd, JavaValues(dv, id17));
    CodeIsCheckChar(remainder);
    r := Ok(id17 + [CODE[remainder]]);
  }

  predicate Blank(s: string) { forall i :: 0 <= i < |s| ==> s[i] <= ' ' }

  /** What is trimmed off. */
  lemma {:induction false} TrimPadded(a: string, id: string, b: string)
    requires Blank(a) && Blank(b) && |id| > 0 && id[0] > ' ' && id[|id| - 1] > ' '
    ensures Trim(a + id + b) == id
    decreases |a| + |b|
  {
    var s := a + id + b;
    if |a| > 0 {
      assert s[1..] == a[1..] + id + b;
      TrimPadded(a[1..], id, b);
    } else if |b| > 0 {
      assert s[..|s| - 1] == a + id + b[..|b| - 1];
      TrimPadded(a, id, b[..|b| - 1]);
    } else {
      assert s == id;
    }
  }

  /**
   A number between blanks is measured without them but taken with them: behind the number they make no difference, in
   front of it they make it fail.
   */
  lemma FixPadded(dv: DigitOf, a: string, id: string, b: string)
    requires JavaDigits(dv) && Blank(a) && Blank(b) && |id| > 0 && id[0] > ' ' && id[|id| - 1] > ' '
    ensures |id| != 15 ==> Fix(dv, a + id + b) == Err(WrongLength)
    ensures |id| == 15 && a != [] ==> Fix(dv, a + id + b) == Err(NotANumber)
    ensures |id| == 15 ==> Fix(dv, id + b) == Fix(dv, id)
  {
    TrimPadded(a, id, b);
    TrimPadded([], id, b);
    TrimPadded([], id, []);
    assert [] + id + b == id + b && [] + id + [] == id;
    if |id| == 15 {
      var s := a + id + b;
      if a != [] { assert s[..15][0] == a[0] && dv(a[0]) == -1; }
      assert (id + b)[..15] == id[..15] && (id + b)[..6] == id[..6] && (id + b)[6..15] == id[6..15];
    }
  }

  /** The first loop: `Integer.parseInt` of each of the 17 characters; `ok` is false when it throws. */
  method ParseDigits(dv: DigitOf, id17: string) returns (idcd: array<int>, ok: bool)
    requires |id17| == 17
    ensures idcd.Length == 18 && (ok <==> Digital(dv, id17))
    ensures ok ==> forall k :: 0 <= k < 17 ==> idcd[k] == JavaValues(dv, id17)[k]
  {
    idcd := new int[18];
    for i := 0 to 17
      invariant Digital(dv, id17[..i])
      invariant forall k :: 0 <= k < i ==> idcd[k] == JavaValue(dv, id17[k])
    {
      if !(0 <= dv(id17[i]) <= 9) { return idcd, false; }
      idcd[i] := dv(id17[i]);
    }
    ok := true;
    assert id17[..17] == id17;
  }

  /** The second loop: the weighted sum of the first 17 entries, modulo 11. */
  method Remainder(idcd: array<int>, ghost v17: seq<nat>) returns (remainder: nat)
    requires idcd.Length == 18 && |v17| == 17 && forall k :: 0 <= k < 17 ==> idcd[k] == v17[k]
    ensures remainder == IsoSum(v17 + [0]) % 11
  {
    ghost var v := v17 + [0];
    var sum := 0;
    for i := 0 to 17
      invariant (sum + IsoSum(v[i..])) % 11 == IsoSum(v) % 11
      invariant sum >= 0
    {
      assert v[i] == idcd[i];
      FactorEntry(i);
      Weigh(v, i, sum);
      sum := sum + idcd[i] * FACTOR[i];
    }
    assert v[17..] == [0] && IsoSum([0]) == 0;
    remainder := sum % 11;
  }

  lemma CenturyDigits(dv: DigitOf, s: string)
    requires JavaDigits(dv) && |s| >= 15
    ensures |Century(s)| == 17 && (Digital(dv, Century(s)) <==> Digital(dv, s[..15]))
    ensures Century(s)[..6] + Century(s)[8..] == s[..15] && Century(s)[6..8] == "19"
  {
    var c := Century(s);
    assert forall i :: 0 <= i < 6 ==> c[i] == s[..15][i];
    assert forall i :: 8 <= i < 17 ==> c[i] == s[..15][i - 2];
    assert c[6] == '1' && c[7] == '9' && dv('1') == 1 && dv('9') == 9;
    assert forall i :: 0 <= i < 15 ==> s[..15][i] == c[if i < 6 then i else i + 2];
  }

  lemma TrimNothing(dv: DigitOf, s: string)
    requires JavaDigits(dv) && Digital(dv, s)
    ensures Trim(s) == s
  {
    if |s| > 0 { assert dv(s[0]) >= 0 && dv(s[|s| - 1]) >= 0; }
  }

  /** `Long.parseLong` accepts digits with an optional sign; 15 digits always fit. */
  predicate ParsesAsLong(dv: DigitOf, s: string) {
    |s| > 0 && (0 <= dv(s[0]) <= 9 || ((s[0] == '+' || s[0] == '-') && |s| > 1)) && Digital(dv, s[1..])
  }

  function Id15(s: string): string
    requires |s| == 18 || |s| == 15
  {
    if |s| == 18 then s[..6] + s[8..17] else s
  }

  /** `isIdentity`; `dateOk` is the parse of the birthday with its century put in front. */
  predicate IsIdentity(dv: DigitOf, s: string, dateOk: string -> bool) {
    (|s| == 18 || |s| == 15) &&
    var id15 := Id15(s);
    && ParsesAsLong(dv, id15)
    && dateOk("19" + id15[6..12])
    && (|s| == 18 ==> Fix(dv, id15) == Ok(s))
  }

  function FixWithCheck(dv: DigitOf, s: string, dateOk: string -> bool): Result<string, Failure> {
    if |Trim(s)| != 15 then Err(WrongLength)
    else if !IsIdentity(dv, s, dateOk) then Err(Invalid)
    else Fix(dv, s)
  }

  /** `getFixedPersonIDCode` */
  function GetFixed(dv: DigitOf, s: string, dateOk: string -> bool): Result<string, Failure> {
    if |s| == 18 then if IsIdentity(dv, s, dateOk) then Ok(s) else Err(Invalid)
    else if |s| == 15 then FixWithCheck(dv, s, dateOk)
    else Err(Invalid)
  }

  /** The last character stands for its value, as a digit of ASCII or the capital letter. */
  lemma CheckCharIs(dv: DigitOf, c: nat, x: char)
    requires JavaDigits(dv) && c <= 10
    ensures JavaValue(dv, CheckChar(c)) == c
    ensures CheckChar(c) == x <==> (IsDigit(x) || x == 'X') && JavaValue(dv, x) == c
  {
  }

  /**
   Deleting positions 6, 7 and 17 undoes the upgrade, and the result satisfies the check equation, in whatever script
   the digits are written. With digits of ASCII it has the format the JavaScript checks ask for.
   */
  lemma UpgradeRoundTrip(dv: DigitOf, s: string)
    requires JavaDigits(dv) && |s| == 15 && Digital(dv, s)
    ensures Fix(dv, s).Ok?
    ensures var t := Fix(dv, s).value;
            && |t| == 18 && t[..6] + t[8..17] == s && Congruent(JavaValues(dv, t))
            && (AllDigits(s) ==> Format(t) && Congruent(Values(t)))
  {
    TrimNothing(dv, s);
    assert s[..15] == s;
    CenturyDigits(dv, s);
    var c := Century(s);
    var check := CheckValue(JavaValues(dv, c));
    var t := c + [CheckChar(check)];
    assert Fix(dv, s) == Ok(t);
    assert t[..6] + t[8..17] == c[..6] + c[8..];
    CheckCharIs(dv, check, CheckChar(check));
    assert JavaValues(dv, t) == JavaValues(dv, c) + [check];
    CheckValueIsTheOne(JavaValues(dv, c), check);
    if AllDigits(s) {
      assert forall i :: 0 <= i < 17 ==> IsDigit(t[i]) by {
        assert forall i :: 0 <= i < 17 ==>
                 t[i] == if i < 6 then s[i] else if i == 6 then '1' else if i == 7 then '9' else s[i - 2];
      }
      SameValues(dv, t);
    }
  }

  /** On text of ASCII the two languages see the same values. */
  lemma SameValues(dv: DigitOf, t: string)
    requires JavaDigits(dv) && Ascii(t)
    ensures JavaValues(dv, t) == Values(t)
  {
    assert forall i :: 0 <= i < |t| ==> JavaValue(dv, t[i]) == Value(t[i]);
  }

  /** Both forms of a number get the same answer. */
  lemma SameAnswer(dv: DigitOf, s: string, dateOk: string -> bool)
    requires JavaDigits(dv) && |s| == 15 && Digital(dv, s)
    ensures Fix(dv, s).Ok? && (IsIdentity(dv, Fix(dv, s).value, dateOk) <==> IsIdentity(dv, s, dateOk))
  {
    UpgradeRoundTrip(dv, s);
  }

  /** 17 digits of any script, and then a digit of ASCII or the capital letter. */
  predicate JavaFormat(dv: DigitOf, t: string) {
    |t| == 18 && Digital(dv, t[..17]) && (IsDigit(t[17]) || t[17] == 'X')
  }

  /** What the Java check accepts among 18 characters. */
  lemma IdentityExactly(dv: DigitOf, t: string, dateOk: string -> bool)
    requires JavaDigits(dv) && |t| == 18
    ensures IsIdentity(dv, t, dateOk)
       <==> JavaFormat(dv, t) && t[6..8] == "19" && dateOk("19" + t[8..14]) && Congruent(JavaValues(dv, t))
  {
    var id15 := Id15(t);
    assert id15[6..12] == t[8..14];
    SplitNumber(dv, t);
    assert id15[..15] == id15;
    if Digital(dv, id15) {
      TrimNothing(dv, id15);
      CenturyDigits(dv, id15);
      var c := Century(id15);
      var check := CheckValue(JavaValues(dv, c));
      assert Fix(dv, id15) == Ok(c + [CheckChar(check)]);
      CheckCharIs(dv, check, t[17]);
      assert t == c + [CheckChar(check)] <==> t[6..8] == "19" && t[17] == CheckChar(check) by {
        Completed(t, c, CheckChar(check));
      }
      if t[6..8] == "19" {
        assert JavaValues(dv, t) == JavaValues(dv, c) + [JavaValue(dv, t[17])];
        CheckValueIsTheOne(JavaValues(dv, c), JavaValue(dv, t[17]));
      }
    }
  }

  lemma Completed(t: string, c: string, x: char)
    requires |t| == 18 && c == Century(t[..6] + t[8..17])
    ensures t == c + [x] <==> t[6..8] == "19" && t[17] == x
    ensures t[6..8] == "19" ==> t == c + [t[17]]
  {
    assert t == t[..6] + t[6..8] + t[8..17] + [t[17]];
    assert c == t[..6] + "19" + t[8..17];
    assert (c + [x])[6..8] == "19";
  }

  lemma SplitNumber(dv: DigitOf, t: string)
    requires JavaDigits(dv) && |t| == 18
    ensures t[6..8] == "19" ==> (Digital(dv, t[..17]) <==> Digital(dv, t[..6] + t[8..17]))
  {
    var u := t[..6] + t[8..17];
    assert forall i :: 0 <= i < 15 ==> u[i] == t[..17][if i < 6 then i else i + 2];
    assert forall i :: 0 <= i < 17 && i != 6 && i != 7 ==> t[..17][i] == u[if i < 6 then i else i - 2];
    assert t[6..8] == "19" ==> t[6..8][0] == '1' && t[6..8][1] == '9';
    assert t[6] == t[6..8][0] && t[7] == t[6..8][1] && dv('1') == 1 && dv('9') == 9;
  }

  /** A complete number comes out exactly for what `isIdentity` accepts, unless a 15-character input has a sign. */
  lemma FixedExactly(dv: DigitOf, s: string, dateOk: string -> bool)
    requires JavaDigits(dv)
    ensures GetFixed(dv, s, dateOk).Ok? <==> IsIdentity(dv, s, dateOk) && dv(s[0]) >= 0
    ensures GetFixed(dv, s, dateOk).Ok? ==>
              && IsIdentity(dv, GetFixed(dv, s, dateOk).value, dateOk)
              && GetFixed(dv, GetFixed(dv, s, dateOk).value, dateOk) == GetFixed(dv, s, dateOk)
  {
    if |s| == 15 {
      assert s[..15] == s;
      if Digital(dv, s) {
        TrimNothing(dv, s);
        SameAnswer(dv, s, dateOk);
        UpgradeRoundTrip(dv, s);
      }
    } else if |s| == 18 {
      IdentityExactly(dv, s, dateOk);
      assert s[..17][0] == s[0];
    }
  }

  /** A sign in front passes the check of 15 characters, and then the upgrade throws. */
  lemma SignPasses(dv: DigitOf, dateOk: string -> bool)
    requires JavaDigits(dv) && dateOk("19491231")
    ensures IsIdentity(dv, "+10105491231002", dateOk) && GetFixed(dv, "+10105491231002", dateOk) == Err(NotANumber)
  {
    var s := "+10105491231002";
    assert s[6..12] == "491231";
    assert "19" + s[6..12] == "19491231";
    assert s[..15][0] == '+';
  }

  // ---------------------------------------------------------------- the JavaScript checks

  const CITIES := {11, 12, 13, 14, 15, 21, 22, 23, 31, 32, 33, 34, 35, 36, 37, 41, 42, 43, 44, 45, 46, 50, 51, 52, 53,
                   54, 61, 62, 63, 64, 65, 71, 81, 82, 91}

  /** 17 digits, then a digit or the letter x in either case. */
  predicate Format(s: string) {
    |s| == 18 && AllDigits(s[..17]) && (IsDigit(s[17]) || s[17] == 'x' || s[17] == 'X')
  }

  function City(s: string): nat
    requires |s| >= 2
  {
    10 * Value(s[0]) + Value(s[1])
  }

  /** What both checks stand for; `dateOk` gets the eight digits of the birthday. */
  predicate Accepts(s: string, dateOk: string -> bool) {
    Format(s) && City(s) in CITIES && dateOk(s[6..14]) && Congruent(Values(s))
  }

  /** The city is the number its two digits write. */
  lemma CityMeans(s: string)
    requires |s| >= 2 && AllDigits(s[..2])
    ensures City(s) / 10 == Value(s[0]) && City(s) % 10 == Value(s[1])
  {
    assert s[..2][0] == s[0] && s[..2][1] == s[1];
  }

  /**
   Behind 17 characters exactly one character is accepted, or none; for the check value ten it may be the letter in
   either case.
   */
  lemma LastCharacter(t: string, c: char, dateOk: string -> bool)
    requires |t| == 17
    ensures Accepts(t + [c], dateOk) <==>
              && AllDigits(t) && City(t) in CITIES && dateOk(t[6..14])
              && (c == CheckChar(CheckValue(Values(t))) || (c == 'x' && CheckValue(Values(t)) == 10))
  {
    var s := t + [c];
    assert s[..17] == t && s[6..14] == t[6..14] && Values(s) == Values(t) + [Value(c)];
    CheckValueIsTheOne(Values(t), Value(c));
    if c == CheckChar(CheckValue(Values(t))) { assert Value(c) == CheckValue(Values(t)); }
  }

  datatype Verdict = Accepted | WrongFormat | WrongCity | WrongBirthday | WrongSum

  /** `replace(/x$/i, "a")`, after which every character is a digit in base 11. */
  function Lowered(s: string): (r: string)
    requires Format(s)
    ensures |r| == 18 && forall i :: 0 <= i < 18 ==> IsDigit(r[i]) || r[i] == 'a'
    ensures Values(r) == Values(s)
    ensures r[0] == s[0] && r[1] == s[1] && r[6..14] == s[6..14]
  {
    assert forall i :: 0 <= i < 17 ==> s[..17][i] == s[i];
    if s[17] == 'x' || s[17] == 'X' then s[..17] + "a" else s
  }

  /** `parseInt(c, 11)` of a character that is a digit or "a". */
  function ParseBase11(c: char): int
    requires IsDigit(c) || c == 'a'
  {
    if c == 'a' then 10 else c as int - '0' as int
  }

  /** The loop both checks contain, from the highest weight down. */
  method WeightedSum(sId: string) returns (iSum: int)
    requires |sId| == 18 && forall i :: 0 <= i < 18 ==> IsDigit(sId[i]) || sId[i] == 'a'
    ensures iSum % 11 == IsoSum(Values(sId)) % 11
  {
    ghost var v := Values(sId);
    iSum := 0;
    var i := 17;
    while i >= 0
      invariant -1 <= i <= 17
      invariant (iSum + IsoSum(v[17 - i..])) % 11 == IsoSum(v) % 11
    {
      WeighDown(v, i, iSum, Pow2(i) % 11, ParseBase11(sId[17 - i]));
      iSum := iSum + (Pow2(i) % 11) * ParseBase11(sId[17 - i]);
      i := i - 1;
    }
  }

  lemma Commute(a: int, b: int)
    ensures a * b == b * a
  {
  }

  lemma WeighDown(v: seq<nat>, i: nat, sum: int, w: int, x: int)
    requires |v| == 18 && i < 18 && w == Pow2(i) % 11 && x == v[17 - i]
    ensures (sum + w * x + IsoSum(v[18 - i..])) % 11 == (sum + IsoSum(v[17 - i..])) % 11
  {
    hide IsoSum, PowerMod, Pow2;
    PowerRemainder(i);
    Commute(w, x);
    Weigh(v, 17 - i, sum);
  }

  /** `isCardID`: returns at the first test that fails. */
  method IsCardId(s: string, dateOk: string -> bool) returns (r: Verdict)
    ensures r == Accepted <==> Accepts(s, dateOk)
    ensures r == WrongFormat <==> !Format(s)
    ensures r == WrongCity <==> Format(s) && City(s) !in CITIES
    ensures r == WrongBirthday <==> Format(s) && City(s) in CITIES && !dateOk(s[6..14])
  {
    if !Format(s) { return WrongFormat; }
    var sId := Lowered(s);
    if City(sId) !in CITIES { return WrongCity; }
    if !dateOk(sId[6..14]) { return WrongBirthday; }
    var iSum := WeightedSum(sId);
    if iSum % 11 != 1 { return WrongSum; }
    return Accepted;
  }

  /** `cidInfo`: the same check with a flag that later tests cannot raise again. */
  method CidInfo(s: string, dateOk: string -> bool) returns (boo: bool)
    ensures boo <==> Accepts(s, dateOk)
  {
    boo := true;
    if !Format(s) { return false; }
    var sId := Lowered(s);
    if City(sId) !in CITIES { boo := false; }
    if !dateOk(sId[6..14]) { boo := false; }
    var iSum := WeightedSum(sId);
    if iSum % 11 != 1 { boo := false; }
  }

  /** A string that differs from an accepted number in the value of one character is rejected. */
  lemma OneCharacterChanged(s: string, k: nat, c: char, dateOk: string -> bool, dateOk': string -> bool)
    requires Accepts(s, dateOk) && k < 18 && Value(c) != Value(s[k])
    ensures !Accepts(s[k := c], dateOk')
  {
    assert Values(s[k := c]) == Values(s)[k := Value(c)];
    OneChangeFound(Values(s), k, Value(c));
  }

  /** Swapping two unequal characters is noticed unless their distance is a multiple of ten. */
  lemma CharactersSwapped(s: string, i: nat, j: nat, dateOk: string -> bool)
    requires Accepts(s, dateOk) && i < j < 18 && s[i] != s[j]
    ensures var t := s[i := s[j]][j := s[i]];
            && ((j - i) % 10 != 0 ==> !Accepts(t, dateOk))
            && ((j - i) % 10 == 0 ==> Congruent(Values(t)))
  {
    var t := s[i := s[j]][j := s[i]];
    var v := Values(s);
    assert Values(t) == v[i := v[j]][j := v[i]];
    SwapFoundExactly(v, i, j);
    assert IsDigit(s[i]) by { assert s[..17][i] == s[i]; }
    if j < 17 { assert IsDigit(s[j]) by { assert s[..17][j] == s[j]; } }
  }

  /** What the Java check accepts passes format and check equation of the JavaScript checks exactly if it is ASCII. */
  lemma JavaScriptAgreesExactly(dv: DigitOf, t: string, dateOk: string -> bool)
    requires JavaDigits(dv) && |t| == 18 && IsIdentity(dv, t, dateOk)
    ensures Format(t) && Congruent(Values(t)) <==> Ascii(t)
  {
    IdentityExactly(dv, t, dateOk);
    assert forall i :: 0 <= i < 17 ==> t[..17][i] == t[i];
    if Ascii(t) { SameValues(dv, t); }
  }

  /** The number 110105491231002 in full-width digits. */
  const FULL_WIDTH := "\U{FF11}\U{FF11}\U{FF10}\U{FF11}\U{FF10}\U{FF15}\U{FF14}\U{FF19}"
                      + "\U{FF11}\U{FF12}\U{FF13}\U{FF11}\U{FF10}\U{FF10}\U{FF12}"

  /** Full-width digits pass the Java check, in both forms, and not the JavaScript ones. */
  lemma FullWidthDigits(dv: DigitOf, dateOk: string -> bool)
    requires JavaDigits(dv) && forall c :: 0xFF10 <= c as int <= 0xFF19 ==> dv(c) == c as int - 0xFF10
    requires dateOk("19" + FULL_WIDTH[6..12])
    ensures IsIdentity(dv, FULL_WIDTH, dateOk) && Fix(dv, FULL_WIDTH).Ok?
    ensures IsIdentity(dv, Fix(dv, FULL_WIDTH).value, dateOk) && !Format(Fix(dv, FULL_WIDTH).value)
  {
    var s := FULL_WIDTH;
    assert |s| == 15 && forall i :: 0 <= i < 15 ==> 0xFF10 <= s[i] as int <= 0xFF19;
    UpgradeRoundTrip(dv, s);
    SameAnswer(dv, s, dateOk);
    var t := Fix(dv, s).value;
    assert t[..17][0] == t[..6][0] == (t[..6] + t[8..17])[0] == s[0];
  }
}
