/** The identifier check of the ledger service: an eleven-digit CPF whose
    last two digits are modulus-11 check digits over the digits before them
    (service.js, `validarCPF` and its inner `calcularDigito`). */
module CpfCheck {

  /** A character matched by `\d` in a JavaScript regular expression without
      the unicode flag: an ASCII decimal digit. */
  predicate IsAsciiDigit(c: char) {
    '0' <= c <= '9'
  }

  /** The format gate `/^\d{11}$/`: the whole string is eleven ASCII digits,
      that is, eleven characters each drawn from the ten digit characters. */
  predicate IsWellFormed(cpf: string)
    ensures IsWellFormed(cpf) <==> |cpf| == 11 && forall i | 0 <= i < |cpf| :: cpf[i] in "0123456789"
  {
    |cpf| == 11 && forall i | 0 <= i < |cpf| :: IsAsciiDigit(cpf[i])
  }

  /** `Number(c)` for one digit character. */
  function DigitValue(c: char): (d: int)
    requires IsAsciiDigit(c)
    ensures 0 <= d <= 9
  {
    c as int - '0' as int
  }

  predicate AllDigits(ds: seq<int>) {
    forall i | 0 <= i < |ds| :: 0 <= ds[i] <= 9
  }

  /** The digits of a well-formed identifier, in order
      (`cpf.split('').map(Number)`). */
  function Digits(cpf: string): (ds: seq<int>)
    requires IsWellFormed(cpf)
    ensures |ds| == 11 && AllDigits(ds)
  {
    seq(11, i requires 0 <= i < 11 => DigitValue(cpf[i]))
  }

  /** The `reduce` of `calcularDigito`: the first digit is weighed by
      `weight`, each following digit by one less. */
  function WeightedSum(ds: seq<int>, weight: int): (s: int)
    ensures AllDigits(ds) && |ds| <= weight ==> 0 <= s
  {
    if ds == [] then 0 else ds[0] * weight + WeightedSum(ds[1..], weight - 1)
  }

  /** `calcularDigito(factor)`: ten times the weighted sum of the first
      `factor - 1` digits, modulo 11, with the remainders 10 and 11 read as 0.
      The sum is never negative, so JavaScript's `%` agrees with Dafny's. */
  function CheckDigit(ds: seq<int>, factor: int): (d: int)
    requires AllDigits(ds)
    requires 1 <= factor <= |ds| + 1
    ensures 0 <= d <= 9
  {
    var remainder := (WeightedSum(ds[..factor - 1], factor) * 10) % 11;
    if remainder == 10 || remainder == 11 then 0 else remainder
  }

  /** `validarCPF`: both computed check digits equal the ones written in
      positions 9 and 10; equivalently, both follow the textbook rule over
      the digits before them. */
  predicate IsValid(cpf: string)
    requires IsWellFormed(cpf)
    ensures IsValid(cpf) <==>
              var ds := Digits(cpf);
              ds[9] == StandardCheckDigit(ds[..9]) && ds[10] == StandardCheckDigit(ds[..10])
  {
    var ds := Digits(cpf);
    CheckDigitIsStandard(ds, 10);
    CheckDigitIsStandard(ds, 11);
    CheckDigit(ds, 10) == ds[9] && CheckDigit(ds, 11) == ds[10]
  }

  /** The textbook statement of a CPF check digit, as an independent
      reference: weigh the digits before it by `|prefix| + 1` down to 2 and
      take the sum modulo 11; a remainder below 2 gives 0, any other
      remainder `r` gives `11 - r`. */
  function StandardCheckDigit(prefix: seq<int>): int
  {
    var r := WeightedSum(prefix, |prefix| + 1) % 11;
    if r < 2 then 0 else 11 - r
  }

  /** `(10 * sum) mod 11` with 10 read as 0 is the textbook rule. */
  lemma CheckDigitIsStandard(ds: seq<int>, factor: int)
    requires AllDigits(ds)
    requires 1 <= factor <= |ds| + 1
    ensures CheckDigit(ds, factor) == StandardCheckDigit(ds[..factor - 1])
  {
    TenTimesModEleven(WeightedSum(ds[..factor - 1], factor));
  }

  /** The arithmetic behind `CheckDigitIsStandard`, for any sum `s`:
      with `s = 11q + r`, `10s` is `11(10q) + 0` when `r = 0` and
      `11(10q + r - 1) + (11 - r)` otherwise. */
  lemma TenTimesModEleven(s: int)
    ensures var t := (s * 10) % 11;
            (if t == 10 || t == 11 then 0 else t) == (if s % 11 < 2 then 0 else 11 - s % 11)
  {
    var q, r := s / 11, s % 11;
    assert s == 11 * q + r;
    if r == 0 {
      assert s * 10 == 11 * (10 * q);
    } else {
      assert s * 10 == 11 * (10 * q + r - 1) + (11 - r);
    }
  }

  /** The weighted sum is linear in the digits: a run of one repeated digit
      `k` sums to `k` times the weights. */
  lemma {:induction false} WeightedSumOfRepeat(n: nat, k: int, weight: int)
    ensures WeightedSum(seq(n, _ => k), weight) == k * WeightedSum(seq(n, _ => 1), weight)
  {
    if n > 0 {
      var ks, ones := seq(n, _ => k), seq(n, _ => 1);
      assert ks[1..] == seq(n - 1, _ => k);
      assert ones[1..] == seq(n - 1, _ => 1);
      WeightedSumOfRepeat(n - 1, k, weight - 1);
      var rest := WeightedSum(ones[1..], weight - 1);
      assert WeightedSum(ones, weight) == weight + rest;
      Distribute(k, weight, rest);
    }
  }

  /** Multiplication distributes over addition. */
  lemma Distribute(k: int, a: int, b: int)
    ensures k * a + k * b == k * (a + b)
  {
  }

  /** No identifier made of one repeated digit is rejected: the first nine
      digits weigh 54 times the digit and the first ten 65 times, and both
      540 and 650 are 1 modulo 11, so each check digit is the digit itself. */
  lemma RepeatedDigitIsAccepted(c: char)
    requires IsAsciiDigit(c)
    ensures IsWellFormed(seq(11, _ => c))
    ensures IsValid(seq(11, _ => c))
  {
    var cpf := seq(11, _ => c);
    var k := DigitValue(c);
    var ds := Digits(cpf);
    assert ds == seq(11, _ => k);
    assert ds[..9] == seq(9, _ => k);
    assert ds[..10] == seq(10, _ => k);
    WeightedSumOfRepeat(9, k, 10);
    WeightedSumOfRepeat(10, k, 11);
    WeightsOfOnes();
    assert WeightedSum(ds[..9], 10) == 54 * k;
    assert WeightedSum(ds[..10], 11) == 65 * k;
    assert (54 * k * 10) == 11 * (49 * k) + k;
    assert (65 * k * 10) == 11 * (59 * k) + k;
    assert CheckDigit(ds, 10) == k;
    assert CheckDigit(ds, 11) == k;
  }

  /** The weights themselves: 10 + ... + 2 is 54 and 11 + ... + 2 is 65. */
  lemma WeightsOfOnes()
    ensures WeightedSum(seq(9, _ => 1), 10) == 54
    ensures WeightedSum(seq(10, _ => 1), 11) == 65
  {
    assert seq(9, _ => 1) == [1, 1, 1, 1, 1, 1, 1, 1, 1];
    assert WeightedSum([1, 1, 1, 1, 1, 1, 1, 1, 1], 10) == 54;
    assert seq(10, _ => 1) == [1, 1, 1, 1, 1, 1, 1, 1, 1, 1];
    assert WeightedSum([1, 1, 1, 1, 1, 1, 1, 1, 1, 1], 11) == 65;
  }

  /** A textbook example of a valid identifier, and the same with its last
      digit changed. */
  lemma KnownIdentifiers()
    ensures IsWellFormed("52998224725") && IsValid("52998224725")
    ensures IsWellFormed("52998224726") && !IsValid("52998224726")
  {
    KnownValidIdentifier();
    KnownInvalidIdentifier();
  }

  lemma KnownValidIdentifier()
    ensures IsWellFormed("52998224725") && IsValid("52998224725")
  {
    ExampleDigits();
    var ds := Digits("52998224725");
    assert ds[..10] == [5, 2, 9, 9, 8, 2, 2, 4, 7, 2];
    ExampleCheckDigits(ds);
  }

  lemma KnownInvalidIdentifier()
    ensures IsWellFormed("52998224726") && !IsValid("52998224726")
  {
    ExampleDigits();
    var ds := Digits("52998224726");
    assert ds[..10] == [5, 2, 9, 9, 8, 2, 2, 4, 7, 2];
    ExampleCheckDigits(ds);
  }

  /** Both examples start with the same ten digits, so they share the check
      digits 2 and 5. */
  lemma ExampleCheckDigits(ds: seq<int>)
    requires |ds| == 11 && AllDigits(ds)
    requires ds[..10] == [5, 2, 9, 9, 8, 2, 2, 4, 7, 2]
    ensures CheckDigit(ds, 10) == 2 && CheckDigit(ds, 11) == 5
  {
    ExampleSums();
    assert ds[..9] == ds[..10][..9] == [5, 2, 9, 9, 8, 2, 2, 4, 7];
  }

  /** The digits of the two example identifiers. */
  lemma ExampleDigits()
    ensures IsWellFormed("52998224725") && Digits("52998224725") == [5, 2, 9, 9, 8, 2, 2, 4, 7, 2, 5]
    ensures IsWellFormed("52998224726") && Digits("52998224726") == [5, 2, 9, 9, 8, 2, 2, 4, 7, 2, 6]
  {
  }

  /** The weighted sums behind the two check digits of the examples. */
  lemma ExampleSums()
    ensures WeightedSum([5, 2, 9, 9, 8, 2, 2, 4, 7], 10) == 295
    ensures WeightedSum([5, 2, 9, 9, 8, 2, 2, 4, 7, 2], 11) == 347
  {
  }
}
