/** That the numbers behind the constants of SHA-256 are the first sixty-four primes. */
module Fips180Primes {
  import opened Fips180Constants

  predicate Divides(d: int, n: int)
    requires d != 0
  {
    n % d == 0
  }

  predicate IsPrime(n: int) {
    n >= 2 && forall d :: 2 <= d < n ==> !Divides(d, n)
  }

  /** Divided by none of the primes up to seventeen, unless it is one. */
  predicate PassesTheSieve(n: int) {
    && (n % 2 != 0 || n == 2) && (n % 3 != 0 || n == 3) && (n % 5 != 0 || n == 5) && (n % 7 != 0 || n == 7)
    && (n % 11 != 0 || n == 11) && (n % 13 != 0 || n == 13) && (n % 17 != 0 || n == 17)
  }

  lemma MultipleLeavesNothing(k: int, q: int)
    requires q > 0
    ensures (k * q) % q == 0
  {
    var n := k * q;
    var j := k - n / q;
    assert q * j == n - q * (n / q) == n % q;
    AtLeastOnce(q, j);
  }

  lemma AtLeastOnce(q: int, j: int)
    requires q > 0
    ensures j >= 1 ==> q * j >= q
    ensures j <= -1 ==> q * j <= -q
    ensures j == 0 ==> q * j == 0
  {
  }

  lemma DividesThrough(q: int, m: int, n: int)
    requires q > 0 && m > 0 && m % q == 0 && n % m == 0
    ensures n % q == 0
  {
    var k, j := n / m, m / q;
    assert n == k * m && m == j * q;
    assert n == (k * j) * q;
    MultipleLeavesNothing(k * j, q);
  }

  lemma SmallDivisorFails(m: int, n: int)
    requires 2 <= m < 18 && m < n && n % m == 0
    ensures !PassesTheSieve(n)
  {
    var q := if m % 2 == 0 then 2 else if m % 3 == 0 then 3 else if m % 5 == 0 then 5 else m;
    DividesThrough(q, m, n);
    assert q in {2, 3, 5, 7, 11, 13, 17};
  }

  lemma OneFactorIsSmall(d: int, e: int)
    requires 2 <= d && 2 <= e && d * e < 324
    ensures d < 18 || e < 18
  {
  }

  lemma CompositeFails(d: int, n: int)
    requires 2 <= d < n < 324 && n % d == 0
    ensures !PassesTheSieve(n)
  {
    hide PassesTheSieve;
    var e := n / d;
    assert n == d * e && e >= 2;
    OneFactorIsSmall(d, e);
    MultipleLeavesNothing(d, e);
    SmallDivisorFails(if d < 18 then d else e, n);
  }

  lemma NotDivided(q: int, n: int)
    requires IsPrime(n) && q >= 2
    ensures n % q != 0 || n == q
  {
    assert q < n ==> !Divides(q, n);
  }

  lemma PrimesPass(n: int)
    requires IsPrime(n)
    ensures PassesTheSieve(n)
  {
    hide IsPrime;
    NotDivided(2, n);
    NotDivided(3, n);
    NotDivided(5, n);
    NotDivided(7, n);
    NotDivided(11, n);
    NotDivided(13, n);
    NotDivided(17, n);
  }

  lemma TheSieveFindsPrimes(n: int)
    requires 2 <= n < 324
    ensures IsPrime(n) <==> PassesTheSieve(n)
  {
    hide PassesTheSieve;
    if IsPrime(n) {
      PrimesPass(n);
    } else {
      var d :| 2 <= d < n && Divides(d, n);
      CompositeFails(d, n);
    }
  }

  // ----- the sieve over the range of the table, part by part -----

  lemma Part2(n: int)
    requires 2 <= n <= 19 && PassesTheSieve(n)
    ensures n in P0
  {
  }

  lemma Part20(n: int)
    requires 20 <= n <= 31 && PassesTheSieve(n)
    ensures n in P1
  {
  }

  lemma Part32(n: int)
    requires 32 <= n <= 43 && PassesTheSieve(n)
    ensures n in P1
  {
  }

  lemma Part44(n: int)
    requires 44 <= n <= 53 && PassesTheSieve(n)
    ensures n in P1
  {
  }

  lemma Part54(n: int)
    requires 54 <= n <= 65 && PassesTheSieve(n)
    ensures n in P2
  {
  }

  lemma Part66(n: int)
    requires 66 <= n <= 77 && PassesTheSieve(n)
    ensures n in P2
  {
  }

  lemma Part78(n: int)
    requires 78 <= n <= 89 && PassesTheSieve(n)
    ensures n in P2
  {
  }

  lemma Part90(n: int)
    requires 90 <= n <= 103 && PassesTheSieve(n)
    ensures n in P3
  {
  }

  lemma Part104(n: int)
    requires 104 <= n <= 117 && PassesTheSieve(n)
    ensures n in P3
  {
  }

  lemma Part118(n: int)
    requires 118 <= n <= 131 && PassesTheSieve(n)
    ensures n in P3
  {
  }

  lemma Part132(n: int)
    requires 132 <= n <= 145 && PassesTheSieve(n)
    ensures n in P4
  {
  }

  lemma Part146(n: int)
    requires 146 <= n <= 159 && PassesTheSieve(n)
    ensures n in P4
  {
  }

  lemma Part160(n: int)
    requires 160 <= n <= 173 && PassesTheSieve(n)
    ensures n in P4
  {
  }

  lemma Part174(n: int)
    requires 174 <= n <= 186 && PassesTheSieve(n)
    ensures n in P5
  {
  }

  lemma Part187(n: int)
    requires 187 <= n <= 199 && PassesTheSieve(n)
    ensures n in P5
  {
  }

  lemma Part200(n: int)
    requires 200 <= n <= 212 && PassesTheSieve(n)
    ensures n in P5
  {
  }

  lemma Part213(n: int)
    requires 213 <= n <= 223 && PassesTheSieve(n)
    ensures n in P5
  {
  }

  lemma Part224(n: int)
    requires 224 <= n <= 237 && PassesTheSieve(n)
    ensures n in P6
  {
  }

  lemma Part238(n: int)
    requires 238 <= n <= 251 && PassesTheSieve(n)
    ensures n in P6
  {
  }

  lemma Part252(n: int)
    requires 252 <= n <= 263 && PassesTheSieve(n)
    ensures n in P6
  {
  }

  lemma Part264(n: int)
    requires 264 <= n <= 279 && PassesTheSieve(n)
    ensures n in P7
  {
  }

  lemma Part280(n: int)
    requires 280 <= n <= 295 && PassesTheSieve(n)
    ensures n in P7
  {
  }

  lemma Part296(n: int)
    requires 296 <= n <= 311 && PassesTheSieve(n)
    ensures n in P7
  {
  }

  lemma RowIsInTheTable(n: int)
    ensures n in P0 || n in P1 || n in P2 || n in P3 || n in P4 || n in P5 || n in P6 || n in P7 <==> n in PRIMES
  {
  }

  lemma NoneIsMissing(n: int)
    requires 2 <= n <= 311 && PassesTheSieve(n)
    ensures n in PRIMES
  {
    hide PassesTheSieve, PRIMES;
    RowIsInTheTable(n);
    if n <= 19 {
      Part2(n);
    } else if n <= 31 {
      Part20(n);
    } else if n <= 43 {
      Part32(n);
    } else if n <= 53 {
      Part44(n);
    } else if n <= 65 {
      Part54(n);
    } else if n <= 77 {
      Part66(n);
    } else if n <= 89 {
      Part78(n);
    } else if n <= 103 {
      Part90(n);
    } else if n <= 117 {
      Part104(n);
    } else if n <= 131 {
      Part118(n);
    } else if n <= 145 {
      Part132(n);
    } else if n <= 159 {
      Part146(n);
    } else if n <= 173 {
      Part160(n);
    } else if n <= 186 {
      Part174(n);
    } else if n <= 199 {
      Part187(n);
    } else if n <= 212 {
      Part200(n);
    } else if n <= 223 {
      Part213(n);
    } else if n <= 237 {
      Part224(n);
    } else if n <= 251 {
      Part238(n);
    } else if n <= 263 {
      Part252(n);
    } else if n <= 279 {
      Part264(n);
    } else if n <= 295 {
      Part280(n);
    } else {
      Part296(n);
    }
  }

  // ----- the table itself -----

  predicate Ascending(s: seq<int>) {
    forall i, j :: 0 <= i < j < |s| ==> s[i] < s[j]
  }

  /** In increasing order between `low` and `high`, all through the sieve. */
  predicate SoundRow(row: seq<int>, low: int, high: int) {
    Ascending(row) && forall i :: 0 <= i < |row| ==> low <= row[i] <= high && PassesTheSieve(row[i])
  }

  lemma RowsInTurn(a: seq<int>, b: seq<int>, low: int, middle: int, high: int)
    requires SoundRow(a, low, middle) && SoundRow(b, middle + 1, high) && low <= middle <= high
    ensures SoundRow(a + b, low, high)
  {
    hide PassesTheSieve;
  }

  lemma Row0()
    ensures SoundRow(P0, 2, 19)
  {
  }

  lemma Row1()
    ensures SoundRow(P1, 20, 53)
  {
  }

  lemma Row2()
    ensures SoundRow(P2, 54, 89)
  {
  }

  lemma Row3()
    ensures SoundRow(P3, 90, 131)
  {
  }

  lemma Row4()
    ensures SoundRow(P4, 132, 173)
  {
  }

  lemma Row5()
    ensures SoundRow(P5, 174, 223)
  {
  }

  lemma Row6()
    ensures SoundRow(P6, 224, 263)
  {
  }

  lemma Row7()
    ensures SoundRow(P7, 264, 311)
  {
  }

  lemma TheTableIsSound()
    ensures SoundRow(PRIMES, 2, 311)
  {
    hide SoundRow;
    Row0();
    Row1();
    Row2();
    Row3();
    Row4();
    Row5();
    Row6();
    Row7();
    RowsInTurn(P0, P1, 2, 19, 53);
    RowsInTurn(P0 + P1, P2, 2, 53, 89);
    RowsInTurn(P0 + P1 + P2, P3, 2, 89, 131);
    RowsInTurn(P0 + P1 + P2 + P3, P4, 2, 131, 173);
    RowsInTurn(P0 + P1 + P2 + P3 + P4, P5, 2, 173, 223);
    RowsInTurn(P0 + P1 + P2 + P3 + P4 + P5, P6, 2, 223, 263);
    RowsInTurn(P0 + P1 + P2 + P3 + P4 + P5 + P6, P7, 2, 263, 311);
  }

  /** The table is in increasing order and holds exactly the primes up to its last number,
      sixty-four of them: the first sixty-four. */
  lemma TheseAreTheFirstPrimes()
    ensures |PRIMES| == 64 && PRIMES[63] == 311 && P0 == PRIMES[..8]
    ensures Ascending(PRIMES)
    ensures forall n :: n in PRIMES <==> IsPrime(n) && n <= 311
  {
    assert |PRIMES| == 64 && PRIMES[63] == 311 && P0 == PRIMES[..8];
    TheTableIsSound();
    hide PassesTheSieve, IsPrime, Ascending, PRIMES;
    forall n ensures n in PRIMES <==> IsPrime(n) && n <= 311 {
      if n in PRIMES {
        TheSieveFindsPrimes(n);
      } else if 2 <= n <= 311 {
        TheSieveFindsPrimes(n);
        if PassesTheSieve(n) {
          NoneIsMissing(n);
        }
      } else {
        PrimesAreAtLeastTwo(n);
      }
    }
  }

  lemma PrimesAreAtLeastTwo(n: int)
    ensures IsPrime(n) ==> n >= 2
  {
  }
}
