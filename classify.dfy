/** The syntactic classifiers of utils.cpp (`isNumber`, `isBoolean`,
    `isString`, `isLambda`), the number literal they admit, and
    `ensureSingleTypeAndCompare`, the chain rule of the ordering primitives.

    `isVariable` and `isApplication` consult the environment and the
    evaluator; they are part of the Semantics module. */
module Classify {
  import opened Results
  import opened Syntax
  import opened Values

  // ---------------------------------------------------------------------------
  // Number literals: the regular expression -?[0-9]+(\.[0-9]+)?

  predicate IsDigit(c: char) {
    '0' <= c <= '9'
  }

  /** A non-empty run of decimal digits, `[0-9]+`. */
  predicate Digits(s: string) {
    |s| > 0 && forall i :: 0 <= i < |s| ==> IsDigit(s[i])
  }

  /** The text after an optional leading `-`. */
  function Unsigned(s: string): (b: string)
    ensures |b| <= |s|
  {
    if |s| > 0 && s[0] == '-' then s[1..] else s
  }

  /** The whole-match reading of the pattern: an optional `-`, digits, and
      optionally a `.` followed by digits. */
  ghost predicate NumeralShape(s: string) {
    var b := Unsigned(s);
    Digits(b) || exists k :: 0 < k < |b| && b[k] == '.' && Digits(b[..k]) && Digits(b[k + 1..])
  }

  /** Length of the leading run of digits. */
  function DigitRun(s: string): (n: nat)
    ensures n <= |s|
    ensures forall i :: 0 <= i < n ==> IsDigit(s[i])
    ensures n < |s| ==> !IsDigit(s[n])
  {
    if |s| == 0 || !IsDigit(s[0]) then 0 else 1 + DigitRun(s[1..])
  }

  /** `regex_match` against the number pattern, written as a scanner: digits,
      then either the end or a `.` and digits up to the end. */
  function IsNumeral(s: string): bool
  {
    var b := Unsigned(s);
    var n := DigitRun(b);
    n > 0 && (n == |b| || (b[n] == '.' && DigitRun(b[n + 1..]) > 0 && n + 1 + DigitRun(b[n + 1..]) == |b|))
  }

  /** A digit run that stops at `k` has length `k`. */
  lemma {:induction false} DigitRunStops(s: string, k: nat)
    requires k <= |s|
    requires forall i :: 0 <= i < k ==> IsDigit(s[i])
    requires k == |s| || !IsDigit(s[k])
    ensures DigitRun(s) == k
  {
    if k > 0 {
      DigitRunStops(s[1..], k - 1);
    }
  }

  /** The scanner accepts exactly the text the pattern matches as a whole. */
  lemma {:induction false} IsNumeralMatchesPattern(s: string)
    ensures IsNumeral(s) <==> NumeralShape(s)
  {
    var b := Unsigned(s);
    var n := DigitRun(b);
    if IsNumeral(s) {
      if n < |b| {
        var rest := b[n + 1..];
        assert Digits(b[..n]);
        assert Digits(rest) by {
          var m := DigitRun(rest);
          assert m == |rest|;
        }
        assert 0 < n < |b| && b[n] == '.' && Digits(b[..n]) && Digits(b[n + 1..]);
      } else {
        assert Digits(b);
      }
    }
    if NumeralShape(s) {
      if Digits(b) {
        DigitRunStops(b, |b|);
      } else {
        var k :| 0 < k < |b| && b[k] == '.' && Digits(b[..k]) && Digits(b[k + 1..]);
        assert forall i :: 0 <= i < k ==> IsDigit(b[i]) by {
          forall i | 0 <= i < k
            ensures IsDigit(b[i])
          {
            assert b[i] == b[..k][i];
          }
        }
        DigitRunStops(b, k);
        DigitRunStops(b[k + 1..], |b[k + 1..]|);
      }
    }
  }

  function DigitValue(c: char): nat
    requires IsDigit(c)
  {
    c as int - '0' as int
  }

  /** The value of a digit string read in base ten. */
  function DigitsValue(s: string): nat
    requires forall i :: 0 <= i < |s| ==> IsDigit(s[i])
  {
    if |s| == 0 then 0 else DigitsValue(s[..|s| - 1]) * 10 + DigitValue(s[|s| - 1])
  }

  function Pow10(k: nat): (r: nat)
    ensures r >= 1
  {
    if k == 0 then 1 else 10 * Pow10(k - 1)
  }

  /** `std::stold` on an atom that passed `isNumber`, computed exactly: the
      integer part plus the fraction digits over the matching power of ten,
      negated after a leading `-`. */
  function ParseNumber(s: string): real
    requires IsNumeral(s)
  {
    var b := Unsigned(s);
    var n := DigitRun(b);
    var whole := DigitsValue(b[..n]) as real;
    var mag :=
      if n == |b| then whole
      else whole + DigitsValue(b[n + 1..]) as real / Pow10(|b| - n - 1) as real;
    if |s| > 0 && s[0] == '-' then -mag else mag
  }

  // ---------------------------------------------------------------------------
  // Decimal text for natural numbers, the partner of ParseNumber

  function DigitChar(d: nat): (c: char)
    requires d < 10
    ensures IsDigit(c) && DigitValue(c) == d
  {
    ('0' as int + d) as char
  }

  /** The shortest decimal text of `n`. */
  function Decimal(n: nat): (s: string)
    ensures |s| > 0
    ensures forall i :: 0 <= i < |s| ==> IsDigit(s[i])
  {
    if n < 10 then [DigitChar(n)] else Decimal(n / 10) + [DigitChar(n % 10)]
  }

  lemma {:induction false} DecimalValue(n: nat)
    ensures DigitsValue(Decimal(n)) == n
  {
    if n >= 10 {
      var s := Decimal(n);
      assert s[..|s| - 1] == Decimal(n / 10);
      DecimalValue(n / 10);
    }
  }

  /** Every decimal text is a number literal and reads back as its value;
      with a leading `-` it reads back as the negated value. */
  lemma {:induction false} ParseDecimal(n: nat)
    ensures IsNumeral(Decimal(n)) && ParseNumber(Decimal(n)) == n as real
    ensures IsNumeral("-" + Decimal(n)) && ParseNumber("-" + Decimal(n)) == -(n as real)
  {
    var s := Decimal(n);
    DigitRunStops(s, |s|);
    DecimalValue(n);
    assert s[..|s|] == s;
    var t := "-" + s;
    assert Unsigned(t) == s;
  }

  /** The scanner's view of `digits.digits` split at `k`. */
  lemma {:induction false} FractionScan(s: string, k: nat)
    requires 0 < k < |s| && s[k] == '.' && s[0] != '-'
    requires Digits(s[..k]) && Digits(s[k + 1..])
    ensures Unsigned(s) == s && DigitRun(s) == k && DigitRun(s[k + 1..]) == |s| - k - 1
    ensures IsNumeral(s)
  {
    assert forall i :: 0 <= i < k ==> IsDigit(s[i]) by {
      forall i | 0 <= i < k
        ensures IsDigit(s[i])
      {
        assert s[i] == s[..k][i];
      }
    }
    DigitRunStops(s, k);
    DigitRunStops(s[k + 1..], |s[k + 1..]|);
  }

  /** An unsigned literal with a fraction reads as its integer digits plus
      its fraction digits over the matching power of ten. */
  lemma {:induction false} FractionLiteral(s: string, k: nat)
    requires 0 < k < |s| && s[k] == '.' && s[0] != '-'
    requires Digits(s[..k]) && Digits(s[k + 1..])
    ensures IsNumeral(s)
    ensures ParseNumber(s) == DigitsValue(s[..k]) as real + DigitsValue(s[k + 1..]) as real / Pow10(|s| - k - 1) as real
  {
    FractionScan(s, k);
    var b := Unsigned(s);
    var n := DigitRun(b);
    assert b[..n] == s[..k] && b[n + 1..] == s[k + 1..];
    var whole := DigitsValue(s[..k]) as real;
    var frac := DigitsValue(s[k + 1..]) as real / Pow10(|s| - k - 1) as real;
    assert ParseNumber(s) == whole + frac;
  }

  /** `whole.frac` reads as the whole part plus the fraction digits over ten
      to the number of fraction digits. */
  lemma {:induction false} ParseDecimalFraction(whole: nat, frac: string)
    requires Digits(frac)
    ensures IsNumeral(Decimal(whole) + "." + frac)
    ensures ParseNumber(Decimal(whole) + "." + frac)
         == whole as real + DigitsValue(frac) as real / Pow10(|frac|) as real
  {
    var w := Decimal(whole);
    var s := w + "." + frac;
    assert s[..|w|] == w;
    assert s[|w| + 1..] == frac;
    DecimalValue(whole);
    FractionLiteral(s, |w|);
  }

  // ---------------------------------------------------------------------------
  // Syntactic classifiers on nodes

  /** `isNumber`: an atom matching the number pattern as a whole. */
  predicate IsNumber(n: Node) {
    n.Atom? && IsNumeral(n.name)
  }

  /** `isBoolean`: exactly the atoms `TRUE` and `FALSE`. */
  predicate IsBoolean(n: Node) {
    n.Atom? && (n.name == "TRUE" || n.name == "FALSE")
  }

  /** `isString`: an atom whose first and last characters are `"` (a lone
      `"` qualifies). The empty atom, which the reader never produces and on
      which the source reads out of bounds, is not a string here. */
  predicate IsString(n: Node) {
    n.Atom? && |n.name| > 0 && n.name[0] == '"' && n.name[|n.name| - 1] == '"'
  }

  /** `isLambda`: a list of at least three elements whose head is the atom
      `LAMBDA` and whose second element is a list of atoms. */
  predicate IsLambda(n: Node) {
    n.List? && |n.items| >= 3 && n.items[0] == Atom("LAMBDA") && n.items[1].List? &&
    forall i :: 0 <= i < |n.items[1].items| ==> n.items[1].items[i].Atom?
  }

  /** The parameter names of a lambda literal, in order. */
  function LambdaParams(n: Node): (names: seq<string>)
    requires IsLambda(n)
    ensures |names| == |n.items[1].items|
    ensures forall i :: 0 <= i < |names| ==> n.items[1].items[i] == Atom(names[i])
  {
    var ps := n.items[1].items;
    seq(|ps|, i requires 0 <= i < |ps| => ps[i].name)
  }

  /** The three atom classifiers are mutually exclusive: a number literal
      starts with a digit or `-`, a string with `"`, and neither `TRUE` nor
      `FALSE` is either. */
  lemma {:induction false} AtomClassesDisjoint(n: Node)
    ensures !(IsNumber(n) && IsBoolean(n))
    ensures !(IsNumber(n) && IsString(n))
    ensures !(IsBoolean(n) && IsString(n))
  {
    if IsNumber(n) {
      var s := n.name;
      var b := Unsigned(s);
      assert IsDigit(b[0]);
      assert s[0] == '-' || s[0] == b[0];
    }
  }

  // ---------------------------------------------------------------------------
  // ensureSingleTypeAndCompare

  /** The comparison functor passed by `>`, `<`, `>=` and `<=`. */
  datatype Cmp = Gt | Lt | Ge | Le

  function Holds(c: Cmp, x: real, y: real): bool
  {
    match c
    case Gt => x > y
    case Lt => x < y
    case Ge => x >= y
    case Le => x <= y
  }

  /** What `ensureSingleTypeAndCompare` promises: failure when any value is not
      a number, otherwise whether every adjacent pair is ordered by `c`. */
  function CompareAll(vals: seq<Value>, c: Cmp): Result<Value>
  {
    if exists i :: 0 <= i < |vals| && !vals[i].Number? then Err(NotNumeric)
    else Ok(Bool(forall i :: 1 <= i < |vals| ==> Holds(c, vals[i - 1].num, vals[i].num)))
  }

  /** `ensureSingleTypeAndCompare`: one pass checking every value is a number,
      then one pass over adjacent pairs returning FALSE at the first pair out
      of order. */
  method EnsureSingleTypeAndCompare(vals: seq<Value>, c: Cmp) returns (r: Result<Value>)
    ensures r == CompareAll(vals, c)
  {
    for i := 0 to |vals|
      invariant forall j :: 0 <= j < i ==> vals[j].Number?
    {
      if !vals[i].Number? {
        return Err(NotNumeric);
      }
    }
    var i := 1;
    while i < |vals|
      invariant 1 <= i <= |vals| || |vals| == 0
      invariant forall j :: 1 <= j < i && j < |vals| ==> Holds(c, vals[j - 1].num, vals[j].num)
    {
      if !Holds(c, vals[i - 1].num, vals[i].num) {
        return Ok(Bool(false));
      }
      i := i + 1;
    }
    return Ok(Bool(true));
  }

  /** Fewer than two numbers are always in order. */
  lemma {:induction false} CompareShort(vals: seq<Value>, c: Cmp)
    requires |vals| <= 1
    ensures CompareAll(vals, c) == (if |vals| == 1 && !vals[0].Number? then Err(NotNumeric) else Ok(Bool(true)))
  {
  }

  /** Every adjacent pair of the reals is ordered by `c`. */
  predicate InOrder(c: Cmp, xs: seq<real>)
  {
    forall k :: 1 <= k < |xs| ==> Holds(c, xs[k - 1], xs[k])
  }

  /** Comparing numbers is the chain rule on their values. */
  lemma {:induction false} CompareNumbers(vals: seq<Value>, xs: seq<real>, c: Cmp)
    requires |vals| == |xs| && forall k :: 0 <= k < |vals| ==> vals[k] == Number(xs[k])
    ensures CompareAll(vals, c) == Ok(Bool(InOrder(c, xs)))
  {
    assert !exists i :: 0 <= i < |vals| && !vals[i].Number?;
    var chain := forall k :: 1 <= k < |vals| ==> Holds(c, vals[k - 1].num, vals[k].num);
    var want := InOrder(c, xs);
    if chain {
      forall k | 1 <= k < |xs| ensures Holds(c, xs[k - 1], xs[k]) {
        assert vals[k - 1].num == xs[k - 1] && vals[k].num == xs[k];
      }
    }
    if want {
      forall k | 1 <= k < |vals| ensures Holds(c, vals[k - 1].num, vals[k].num) {
        assert vals[k - 1].num == xs[k - 1] && vals[k].num == xs[k];
      }
    }
    assert chain == want;
  }

  /** Since every comparison is transitive, an accepted chain orders every
      pair of values, not only neighbours: `(< a b c)` means `a < c` too. */
  lemma {:induction false} CompareChainOrdersAll(vals: seq<Value>, c: Cmp, i: nat, j: nat)
    requires CompareAll(vals, c) == Ok(Bool(true))
    requires i < j < |vals|
    ensures Holds(c, vals[i].num, vals[j].num)
    decreases j - i
  {
    assert forall k :: 0 <= k < |vals| ==> vals[k].Number?;
    assert Holds(c, vals[j - 1].num, vals[j].num);
    if i < j - 1 {
      CompareChainOrdersAll(vals, c, i, j - 1);
    }
  }
}
