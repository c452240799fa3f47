/** Primes two ways: trial division up to the square root with the search for the m-th prime, and
    the sieve of Eratosthenes on an array. Both are proved against the same definition. */
module Primes {

  predicate Divides(d: nat, n: nat)
    requires d > 0
  {
    n % d == 0
  }

  ghost predicate IsPrime(n: int) {
    n >= 2 && forall d: nat :: 2 <= d < n ==> !Divides(d, n)
  }

  /** The number of primes that are at most n. */
  ghost function PrimesUpTo(n: nat): nat {
    if n == 0 then 0 else PrimesUpTo(n - 1) + if IsPrime(n) then 1 else 0
  }

  // ---------- divisors ----------

  lemma {:induction false} MulStep(d: nat, j: nat, k: nat)
    requires j < k
    ensures d * j + d <= d * k
  {
    assert d * k == d * (k - 1) + d;
    if j < k - 1 {
      MulStep(d, j, k - 1);
    }
  }

  /** Quotient and remainder are unique. */
  lemma UniqueQuotient(d: nat, j: nat, r: nat, k: nat, t: nat)
    requires r < d && t < d && d * j + r == d * k + t
    ensures j == k
  {
    if j < k {
      MulStep(d, j, k);
    } else if k < j {
      MulStep(d, k, j);
    }
  }

  lemma DivMod(d: nat, k: nat, r: nat, n: nat)
    requires r < d && n == d * k + r
    ensures n / d == k && n % d == r
  {
    assert n == d * (n / d) + n % d;
    UniqueQuotient(d, k, r, n / d, n % d);
  }

  lemma DividesMultiple(d: nat, k: nat)
    requires d > 0
    ensures Divides(d, d * k)
  {
    DivMod(d, k, 0, d * k);
  }

  lemma Cofactor(d: nat, n: nat) returns (k: nat)
    requires d > 0 && Divides(d, n)
    ensures n == d * k
  {
    k := n / d;
  }

  lemma DividesTransitive(c: nat, d: nat, n: nat)
    requires c > 0 && d > 0 && Divides(c, d) && Divides(d, n)
    ensures Divides(c, n)
  {
    var j := Cofactor(c, d);
    var k := Cofactor(d, n);
    assert n == c * (j * k);
    DividesMultiple(c, j * k);
  }

  /** Every number from 2 on has a prime divisor. */
  lemma {:induction false} PrimeDivisor(n: nat) returns (p: nat)
    requires n >= 2
    ensures IsPrime(p) && p <= n && Divides(p, n)
    decreases n
  {
    if d: nat :| 2 <= d < n && Divides(d, n) {
      p := PrimeDivisor(d);
      DividesTransitive(p, d, n);
    } else {
      p := n;
    }
  }

  lemma FactorBounds(c: nat, d: nat, n: nat)
    requires n == c * d && 2 <= c < n
    ensures 2 <= d < n
  {
    assert d != 0 && d != 1;
    assert c * d >= 2 * d;
  }

  lemma SquareBelow(c: nat, d: nat)
    requires c <= d
    ensures c * c <= c * d && c * c <= d * d
  {
  }

  /** A composite number is the product of two smaller factors in order. */
  lemma Factors(n: nat) returns (c: nat, d: nat)
    requires n >= 2 && !IsPrime(n)
    ensures 2 <= c <= d < n && n == c * d && c * c <= n
  {
    c :| 2 <= c < n && Divides(c, n);
    d := Cofactor(c, n);
    FactorBounds(c, d, n);
    if d < c {
      c, d := d, c;
    }
    SquareBelow(c, d);
  }

  /** A composite number has a prime divisor whose square is not above it. */
  lemma SmallPrimeDivisor(n: nat) returns (p: nat)
    requires n >= 2 && !IsPrime(n)
    ensures IsPrime(p) && p * p <= n && Divides(p, n)
  {
    var c, d := Factors(n);
    DividesMultiple(c, d);
    p := PrimeDivisor(c);
    DividesTransitive(p, c, n);
    SquareBelow(p, c);
  }

  // ---------- there is always another prime ----------

  ghost function Factorial(n: nat): nat {
    if n == 0 then 1 else n * Factorial(n - 1)
  }

  lemma {:induction false} FactorialPositive(n: nat)
    ensures Factorial(n) > 0
  {
    if n == 0 {
    } else {
      FactorialPositive(n - 1);
    }
  }

  lemma {:induction false} DividesFactorial(d: nat, n: nat)
    requires 1 <= d <= n
    ensures Divides(d, Factorial(n)) && Factorial(n) > 0
  {
    FactorialPositive(n - 1);
    if d == n {
      DividesMultiple(n, Factorial(n - 1));
    } else {
      DividesFactorial(d, n - 1);
      var k := Cofactor(d, Factorial(n - 1));
      assert Factorial(n) == d * (n * k);
      DividesMultiple(d, n * k);
    }
  }

  /** Euclid: above every number there is a prime. */
  lemma PrimeAbove(n: nat) returns (p: nat)
    ensures IsPrime(p) && p > n
  {
    FactorialPositive(n);
    p := PrimeDivisor(Factorial(n) + 1);
    if p <= n {
      DividesFactorial(p, n);
      var j := Cofactor(p, Factorial(n));
      var k := Cofactor(p, Factorial(n) + 1);
      UniqueQuotient(p, j, 1, k, 0);
    }
  }

  // ---------- trial division ----------

  lemma NoSmallDivisor(n: nat, i: nat)
    requires n >= 2 && n < i * i
    requires forall d: nat :: 2 <= d < i ==> !Divides(d, n)
    ensures IsPrime(n)
  {
    if !IsPrime(n) {
      var c, d := Factors(n);
      DividesMultiple(c, d);
      if c >= i {
        SquareBelow(i, c);
      }
    }
  }

  lemma BelowSquare(i: nat, n: int)
    requires i >= 2 && i * i <= n
    ensures i < n
  {
    SquareBelow(2, i);
  }

  /** Where the trial loop stops when it is at i: at the first divisor or the first square above n. */
  function TrialStop(n: nat, i: nat): nat
    requires i >= 2
    decreases n - i
  {
    if i * i <= n && !Divides(i, n) then
      BelowSquare(i, n);
      TrialStop(n, i + 1)
    else i
  }

  /** isPrime: exact although it only tries i with i * i <= n. The ghost result is the last i whose
      square it computed. */
  method TestPrime(n: int) returns (prime: bool, ghost last: nat)
    ensures prime <==> IsPrime(n)
    ensures n >= 2 ==> last == TrialStop(n, 2)
  {
    last := 2;
    if n <= 1 {
      return false, last;
    }
    var i := 2;
    while i * i <= n
      invariant i >= 2
      invariant forall d: nat :: 2 <= d < i ==> !Divides(d, n)
      invariant TrialStop(n, i) == TrialStop(n, 2)
      decreases n - i
    {
      BelowSquare(i, n);
      last := i;
      if n % i == 0 {
        assert Divides(i, n);
        return false, last;
      }
      i := i + 1;
    }
    last := i;
    NoSmallDivisor(n, i);
    return true, last;
  }

  lemma {:induction false} TrialStopFacts(n: nat, i: nat)
    requires i >= 2 && forall d: nat :: 2 <= d < i ==> !Divides(d, n)
    ensures var t := TrialStop(n, i);
            && t >= i && (t == i || (t - 1) * (t - 1) <= n)
            && (forall d: nat :: 2 <= d < t ==> !Divides(d, n))
            && (t * t > n || Divides(t, n))
    decreases n - i
  {
    if i * i > n || Divides(i, n) {
    } else {
      BelowSquare(i, n);
      TrialStopFacts(n, i + 1);
    }
  }

  const ROOT: nat := 46340
  const INT_MAX: nat := 0x7fff_ffff

  lemma RootOfIntMax(t: nat)
    ensures t * t <= INT_MAX <==> t <= ROOT
  {
    if t <= ROOT {
      SquareBelow(t, ROOT);
    } else {
      SquareBelow(ROOT + 1, t);
    }
  }

  /** The squares that isPrime computes for n fit a 32-bit int. */
  predicate SquaresFit(n: nat) {
    TrialStop(n, 2) * TrialStop(n, 2) <= INT_MAX
  }

  ghost predicate HasSmallDivisor(n: nat) {
    exists d: nat :: 2 <= d <= ROOT && Divides(d, n)
  }

  /** No square in the loop of isPrime exceeds a 32-bit int exactly when n is below 46340 squared
      or has a divisor up to 46340. */
  lemma SquaresFitExactly(n: nat)
    requires n >= 2
    ensures SquaresFit(n) <==> n < ROOT * ROOT || HasSmallDivisor(n)
  {
    var t := TrialStop(n, 2);
    TrialStopFacts(n, 2);
    RootOfIntMax(t);
    if t <= ROOT {
      SquareBelow(t, ROOT);
    } else {
      SquareBelow(ROOT, t - 1);
    }
  }

  // ---------- the m-th prime ----------

  ghost predicate IsMthPrime(p: nat, m: int) {
    IsPrime(p) && PrimesUpTo(p) == m
  }

  lemma {:induction false} CountMonotone(p: nat, q: nat)
    requires p <= q
    ensures PrimesUpTo(p) <= PrimesUpTo(q)
    decreases q
  {
    if p == q {
    } else {
      CountMonotone(p, q - 1);
    }
  }

  lemma CountGrows(p: nat, q: nat)
    requires p < q && IsPrime(q)
    ensures PrimesUpTo(p) < PrimesUpTo(q)
  {
    CountMonotone(p, q - 1);
  }

  /** There is one m-th prime. */
  lemma MthPrimeIsUnique(p: nat, q: nat, m: int)
    requires IsMthPrime(p, m) && IsMthPrime(q, m)
    ensures p == q
  {
    if p < q {
      CountGrows(p, q);
    } else if q < p {
      CountGrows(q, p);
    }
  }

  ghost predicate AllSquaresFit(n: nat) {
    forall k: nat :: 2 <= k <= n ==> SquaresFit(k)
  }

  lemma AllSquaresNext(n: nat)
    requires n >= 1
    ensures AllSquaresFit(n + 1) <==> AllSquaresFit(n) && SquaresFit(n + 1)
  {
  }

  /** A prime from 46340 squared on has no small divisor, and everything below needs none. */
  lemma AllSquaresFitExactly(p: nat)
    requires IsPrime(p)
    ensures AllSquaresFit(p) <==> p < ROOT * ROOT
  {
    SquaresFitExactly(p);
    if p < ROOT * ROOT {
      forall k: nat | 2 <= k <= p ensures SquaresFit(k) {
        SquaresFitExactly(k);
      }
    } else {
      assert ROOT < p;
      assert !HasSmallDivisor(p);
    }
  }

  lemma RootSquareIsComposite()
    ensures !IsPrime(ROOT * ROOT)
  {
    DividesMultiple(ROOT, ROOT);
  }

  /** The search for the m-th prime stays within 32-bit squares exactly when there are at least m
      primes up to 46340 squared. */
  lemma SearchFitsExactly(p: nat, m: int)
    requires IsMthPrime(p, m)
    ensures AllSquaresFit(p) <==> m <= PrimesUpTo(ROOT * ROOT)
  {
    AllSquaresFitExactly(p);
    if p < ROOT * ROOT {
      CountMonotone(p, ROOT * ROOT);
    } else {
      RootSquareIsComposite();
      CountGrows(ROOT * ROOT, p);
    }
  }

  /** findMthPrime: terminates for every m; for m >= 1 the result is the prime with exactly m primes
      up to it. The ghost result is the largest i whose square any call of isPrime computed: it fits
      a 32-bit int exactly when m is at most the number of primes up to 46340 squared. */
  method FindMthPrime(m: int) returns (num: nat, ghost widest: nat)
    ensures m <= 0 ==> num == 1
    ensures m >= 1 ==> IsMthPrime(num, m)
    ensures widest * widest <= INT_MAX <==> m <= PrimesUpTo(ROOT * ROOT)
  {
    var count := 0;
    num, widest := 1, 0;
    ghost var coming := PrimeAbove(1);
    while count < m
      invariant count == PrimesUpTo(num)
      invariant m <= 0 ==> num == 1
      invariant m >= 1 ==> count <= m && (count == m ==> IsPrime(num))
      invariant widest <= ROOT <==> AllSquaresFit(num)
      invariant IsPrime(coming) && coming > num
      decreases m - count, coming - num
    {
      num := num + 1;
      var prime, last := TestPrime(num);
      RootOfIntMax(last);
      AllSquaresNext(num - 1);
      widest := if last > widest then last else widest;
      if prime {
        count := count + 1;
        coming := PrimeAbove(num);
      }
    }
    RootOfIntMax(widest);
    if m >= 1 {
      SearchFitsExactly(num, m);
    }
  }

  // ---------- the sieve ----------

  ghost predicate StruckBy(n: nat, p: nat) {
    IsPrime(p) && p * p <= n && Divides(p, n)
  }

  /** n has been struck out by a prime below i. */
  ghost predicate Struck(n: nat, i: nat) {
    exists p: nat :: p < i && StruckBy(n, p)
  }

  lemma StruckIsComposite(n: nat, p: nat)
    requires StruckBy(n, p)
    ensures p < n && !IsPrime(n)
  {
    BelowSquare(p, n);
  }

  /** Once all squares up to n have been tried, exactly the composites are struck. */
  lemma StruckExactly(n: nat, i: nat)
    requires n >= 2 && (n < i * i || n == i)
    ensures Struck(n, i) <==> !IsPrime(n)
  {
    if p: nat :| p < i && StruckBy(n, p) {
      StruckIsComposite(n, p);
    }
    if !IsPrime(n) {
      var p := SmallPrimeDivisor(n);
      StruckIsComposite(n, p);
      if p >= i {
        SquareBelow(i, p);
      }
      assert StruckBy(n, p);
    }
  }

  lemma StruckNext(n: nat, i: nat)
    ensures Struck(n, i + 1) <==> Struck(n, i) || StruckBy(n, i)
  {
  }

  lemma BetweenMultiples(i: nat, k: nat, n: nat)
    requires i > 0 && i * k < n < i * k + i
    ensures !Divides(i, n)
  {
    DivMod(i, k, n - i * k, n);
  }

  ghost predicate IsSieve(marks: seq<int>) {
    forall n: nat :: 2 <= n < |marks| ==> marks[n] == if IsPrime(n) then 1 else 0
  }

  /** The cell of n once the primes below i have done their striking. */
  ghost function Cell(n: nat, i: nat): int {
    if Struck(n, i) then 0 else 1
  }

  /** One inner loop: strikes the multiples of i from its square on. */
  method Strike(arr: array<int>, i: nat)
    requires i >= 2
    modifies arr
    ensures forall n: nat :: n < arr.Length ==>
      arr[n] == if i * i <= n && Divides(i, n) then 0 else old(arr[n])
  {
    var j := i * i;
    ghost var k := i;
    while j < arr.Length
      invariant j == i * k && k >= i && j >= i * i
      invariant forall n: nat :: n < arr.Length ==>
        arr[n] == if i * i <= n < j && Divides(i, n) then 0 else old(arr[n])
      decreases arr.Length - j
    {
      DividesMultiple(i, k);
      forall n: nat | j < n < j + i ensures !Divides(i, n) {
        BetweenMultiples(i, k, n);
      }
      arr[j] := 0;
      assert i * (k + 1) == j + i;
      j := j + i;
      k := k + 1;
    }
  }

  /** The whole program on the shared array, of any length: afterwards every cell from 2 on is 1
      exactly when its index is prime, and cells 0 and 1 are untouched. */
  method Sieve(arr: array<int>)
    modifies arr
    ensures IsSieve(arr[..])
    ensures forall n :: 0 <= n < 2 && n < arr.Length ==> arr[n] == old(arr[n])
  {
    var i := 2;
    while i < arr.Length
      invariant i >= 2
      invariant forall n :: 2 <= n < i && n < arr.Length ==> arr[n] == 1
      invariant forall n :: 0 <= n < 2 && n < arr.Length ==> arr[n] == old(arr[n])
    {
      arr[i] := 1;
      i := i + 1;
    }
    i := 2;
    while i * i < arr.Length
      invariant i >= 2
      invariant forall n: nat :: 2 <= n < arr.Length ==> arr[n] == Cell(n, i)
      invariant forall n :: 0 <= n < 2 && n < arr.Length ==> arr[n] == old(arr[n])
      decreases arr.Length - i
    {
      BelowSquare(i, arr.Length);
      StruckExactly(i, i);
      if arr[i] == 1 {
        assert 2 * 2 <= i * i by { SquareBelow(2, i); }
        Strike(arr, i);
      }
      forall n: nat | 2 <= n < arr.Length ensures arr[n] == Cell(n, i + 1) {
        StruckNext(n, i);
      }
      i := i + 1;
    }
    forall n: nat | 2 <= n < arr.Length ensures arr[n] == if IsPrime(n) then 1 else 0 {
      StruckExactly(n, i);
    }
  }

  /** How many cells from 2 to n are marked. */
  function MarkedUpTo(marks: seq<int>, n: nat): nat
    requires n < |marks|
  {
    if n < 2 then 0 else MarkedUpTo(marks, n - 1) + if marks[n] == 1 then 1 else 0
  }

  lemma {:induction false} SieveCounts(marks: seq<int>, n: nat)
    requires IsSieve(marks) && n < |marks|
    ensures MarkedUpTo(marks, n) == PrimesUpTo(n)
  {
    if n >= 2 {
      SieveCounts(marks, n - 1);
    } else if n == 1 {
      assert PrimesUpTo(0) == 0;
    }
  }

  /** The two programs agree: the m-th marked index of a sieve is the m-th prime. */
  lemma SieveAgreesWithSearch(marks: seq<int>, n: nat, m: int)
    requires IsSieve(marks) && 2 <= n < |marks|
    ensures marks[n] == 1 && MarkedUpTo(marks, n) == m <==> IsMthPrime(n, m)
  {
    SieveCounts(marks, n);
  }
}
