// The C operators on unsigned integers, as functions on natural numbers: &, |, ^ and ~ bit by bit,
// << and >> as multiplication and division by a power of two.
module Bits {
  function Pow2(n: nat): (p: nat)
    ensures p > 0
  {
    if n == 0 then 1 else 2 * Pow2(n - 1)
  }

  function And(x: nat, y: nat): nat
    decreases x
  {
    if x == 0 || y == 0 then 0
    else (if x % 2 == 1 && y % 2 == 1 then 1 else 0) + 2 * And(x / 2, y / 2)
  }

  function Or(x: nat, y: nat): nat
    decreases x + y
  {
    if x == 0 && y == 0 then 0
    else (if x % 2 == 1 || y % 2 == 1 then 1 else 0) + 2 * Or(x / 2, y / 2)
  }

  function Xor(x: nat, y: nat): nat
    decreases x + y
  {
    if x == 0 && y == 0 then 0
    else (if x % 2 != y % 2 then 1 else 0) + 2 * Xor(x / 2, y / 2)
  }

  // x << n, in as many bits as it takes.
  function ShiftLeft(x: nat, n: nat): nat
    decreases n
  {
    if n == 0 then x else ShiftLeft(2 * x, n - 1)
  }

  // x >> n.
  function ShiftRight(x: nat, n: nat): nat
    decreases n
  {
    if n == 0 then x else ShiftRight(x / 2, n - 1)
  }

  // ~x in n bits.
  function Not(n: nat, x: nat): nat
    requires x < Pow2(n)
  {
    Pow2(n) - 1 - x
  }

  // Masking with 2^n - 1 is taking the remainder by 2^n.
  lemma {:induction false} MaskIsModulo(x: nat, n: nat, m: nat)
    requires m == Pow2(n)
    ensures And(x, m - 1) == x % m
  {
    if n > 0 {
      MaskIsModulo(x / 2, n - 1, Pow2(n - 1));
      MaskStep(x, Pow2(n - 1));
      hide And;
    }
  }

  lemma MaskStep(x: nat, m: nat)
    requires m > 0 && And(x / 2, m - 1) == (x / 2) % m
    ensures And(x, 2 * m - 1) == x % (2 * m)
  {
    HalfModulo(x, m);
    hide And;
    MaskDigits(x, m, (x / 2) % m);
  }

  lemma MaskDigits(x: nat, m: nat, rest: nat)
    requires m > 0 && And(x / 2, m - 1) == rest
    ensures And(x, 2 * m - 1) == x % 2 + 2 * rest
  {
    hide And;
    var h := m - 1;
    assert 2 * m - 1 == 2 * h + 1;
    AndOdd(x, h);
  }

  lemma AndOdd(x: nat, h: nat)
    ensures And(x, 2 * h + 1) == x % 2 + 2 * And(x / 2, h)
  {
    hide And;
    UniqueRemainder(2 * h + 1, 2, h, 1);
    AndUnfolded(x, 2 * h + 1);
  }

  lemma AndUnfolded(x: nat, y: nat)
    ensures And(x, y) == (if x % 2 == 1 && y % 2 == 1 then 1 else 0) + 2 * And(x / 2, y / 2)
  {
  }

  lemma AndDigits(x: nat, y: nat)
    ensures And(x, y) % 2 == if x % 2 == 1 && y % 2 == 1 then 1 else 0
    ensures And(x, y) / 2 == And(x / 2, y / 2)
  {
  }

  lemma OrDigits(x: nat, y: nat)
    ensures Or(x, y) % 2 == if x % 2 == 1 || y % 2 == 1 then 1 else 0
    ensures Or(x, y) / 2 == Or(x / 2, y / 2)
  {
  }

  lemma XorDigits(x: nat, y: nat)
    ensures Xor(x, y) % 2 == if x % 2 != y % 2 then 1 else 0
    ensures Xor(x, y) / 2 == Xor(x / 2, y / 2)
  {
  }

  lemma HalfModulo(x: nat, m: nat)
    requires m > 0
    ensures x % (2 * m) == x % 2 + 2 * ((x / 2) % m)
  {
    var h := x / 2;
    var q, r := h / m, h % m;
    assert h == q * m + r;
    assert x == q * (2 * m) + (2 * r + x % 2) by {
      assert x == 2 * h + x % 2;
      assert 2 * (q * m) == q * (2 * m);
    }
    UniqueRemainder(x, 2 * m, q, 2 * r + x % 2);
  }

  lemma UniqueRemainder(x: int, m: int, q: int, r: int)
    requires m > 0 && 0 <= r < m && x == q * m + r
    ensures x / m == q && x % m == r
  {
    var d := x / m - q;
    assert x == m * (x / m) + x % m;
    assert m * d == r - x % m by {
      assert m * d == m * (x / m) - m * q;
    }
    assert d > 0 ==> m * d >= m;
    assert d < 0 ==> m * d <= -m;
  }

  // x chooses between y and z, written without the complement of x.
  lemma {:induction false} Select(n: nat, x: nat, y: nat, z: nat)
    requires x < Pow2(n) && y < Pow2(n) && z < Pow2(n)
    ensures Xor(z, And(x, Xor(y, z))) == Or(And(x, y), And(Not(n, x), z))
  {
    if n > 0 {
      var c, u := Not(n, x), Xor(y, z);
      NotDigits(n, x);
      hide And, Or, Xor, Not, Pow2;
      Select(n - 1, x / 2, y / 2, z / 2);
      XorDigits(y, z);
      AndDigits(x, u);
      XorDigits(z, And(x, u));
      AndDigits(x, y);
      AndDigits(c, z);
      OrDigits(And(x, y), And(c, z));
    }
  }

  lemma NotDigits(n: nat, x: nat)
    requires n > 0 && x < Pow2(n)
    ensures x / 2 < Pow2(n - 1)
    ensures Not(n, x) % 2 == 1 - x % 2 && Not(n, x) / 2 == Not(n - 1, x / 2)
  {
  }

  lemma {:induction false} OrCommutes(x: nat, y: nat)
    ensures Or(x, y) == Or(y, x)
    decreases x + y
  {
    if x > 0 || y > 0 {
      OrCommutes(x / 2, y / 2);
    }
  }

  lemma {:induction false} AndCommutes(x: nat, y: nat)
    ensures And(x, y) == And(y, x)
  {
    if x > 0 {
      AndCommutes(x / 2, y / 2);
    }
  }

  lemma {:induction false} XorAssociates(x: nat, y: nat, z: nat)
    ensures Xor(Xor(x, y), z) == Xor(x, Xor(y, z))
    decreases x + y + z
  {
    if x > 0 || y > 0 || z > 0 {
      var u, v := Xor(x, y), Xor(y, z);
      hide Xor;
      XorAssociates(x / 2, y / 2, z / 2);
      XorDigits(x, y);
      XorDigits(y, z);
      XorDigits(u, z);
      XorDigits(x, v);
    }
  }

  // Or is addition when the operands share no bit position.
  lemma {:induction false} OrIsSum(n: nat, high: nat, low: nat, p: nat)
    requires p == Pow2(n) && low < p
    ensures Or(high * p, low) == high * p + low
  {
    if n == 0 {
      OrZero(high);
    } else {
      var q := Pow2(n - 1);
      var half := high * q;
      ProductTwice(high, q);
      OrIsSum(n - 1, high, low / 2, q);
      OrHalves(half, low);
    }
  }

  lemma ProductTwice(x: nat, y: nat)
    ensures x * y >= 0 && x * (2 * y) == 2 * (x * y)
  {
  }

  lemma TwiceProduct(x: nat, y: nat)
    ensures (2 * x) * y == 2 * (x * y)
  {
  }

  lemma OrHalves(half: nat, low: nat)
    ensures Or(2 * half, low) == low % 2 + 2 * Or(half, low / 2)
  {
  }

  lemma {:induction false} OrZero(x: nat)
    ensures Or(x, 0) == x
  {
    if x > 0 {
      OrZero(x / 2);
    }
  }

  lemma {:induction false} Pow2Sum(m: nat, n: nat)
    ensures Pow2(m) * Pow2(n) == Pow2(m + n)
  {
    if m > 0 {
      var a, b := Pow2(m - 1), Pow2(n);
      Pow2Sum(m - 1, n);
      assert Pow2(m) == 2 * a && Pow2(m + n) == 2 * Pow2(m - 1 + n);
      hide Pow2;
      TwiceProduct(a, b);
    }
  }

  lemma Pow2Values()
    ensures Pow2(6) == 64 && Pow2(8) == 0x100 && Pow2(16) == 0x1_0000 && Pow2(24) == 0x100_0000
    ensures Pow2(29) == 0x2000_0000 && Pow2(32) == 0x1_0000_0000
  {
    assert Pow2(8) == 256;
    assert Pow2(16) == 0x1_0000;
    assert Pow2(24) == 0x100_0000;
  }

  lemma {:induction false} ShiftLeftIsProduct(x: nat, n: nat)
    ensures ShiftLeft(x, n) == x * Pow2(n)
    decreases n
  {
    if n > 0 {
      ShiftLeftIsProduct(2 * x, n - 1);
      assert (2 * x) * Pow2(n - 1) == x * (2 * Pow2(n - 1));
    }
  }

  lemma {:induction false} ShiftRightIsQuotient(x: nat, n: nat)
    ensures ShiftRight(x, n) == x / Pow2(n)
    decreases n
  {
    if n > 0 {
      ShiftRightIsQuotient(x / 2, n - 1);
      HalfQuotient(x, Pow2(n - 1));
    }
  }

  lemma HalfQuotient(x: nat, m: nat)
    requires m > 0
    ensures x / (2 * m) == (x / 2) / m
  {
    var h := x / 2;
    var q, r := h / m, h % m;
    assert h == q * m + r;
    assert x == q * (2 * m) + (2 * r + x % 2) by {
      assert x == 2 * h + x % 2;
      assert 2 * (q * m) == q * (2 * m);
    }
    UniqueRemainder(x, 2 * m, q, 2 * r + x % 2);
  }

  // Bit k of x.
  predicate Bit(x: nat, k: nat)
    decreases k
  {
    if k == 0 then x % 2 == 1 else Bit(x / 2, k - 1)
  }

  lemma {:induction false} BitOfOr(x: nat, y: nat, k: nat)
    ensures Bit(Or(x, y), k) <==> Bit(x, k) || Bit(y, k)
    decreases k
  {
    OrDigits(x, y);
    if k > 0 {
      BitOfOr(x / 2, y / 2, k - 1);
    }
    hide Or;
  }

  lemma {:induction false} BitOfAnd(x: nat, y: nat, k: nat)
    ensures Bit(And(x, y), k) <==> Bit(x, k) && Bit(y, k)
    decreases k
  {
    AndDigits(x, y);
    if k > 0 {
      BitOfAnd(x / 2, y / 2, k - 1);
    }
    hide And;
  }

  lemma {:induction false} BitOfPow2(i: nat, k: nat)
    ensures Bit(Pow2(i), k) <==> i == k
    decreases k
  {
    if i > 0 {
      assert Pow2(i) / 2 == Pow2(i - 1) && Pow2(i) % 2 == 0;
      if k > 0 {
        BitOfPow2(i - 1, k - 1);
      }
    } else if k > 0 {
      BitOfZero(k - 1);
    }
  }

  lemma {:induction false} BitOfZero(k: nat)
    ensures !Bit(0, k)
    decreases k
  {
    if k > 0 {
      BitOfZero(k - 1);
    }
  }

  lemma {:induction false} BitOfNot(n: nat, x: nat, k: nat)
    requires x < Pow2(n) && k < n
    ensures Bit(Not(n, x), k) <==> !Bit(x, k)
    decreases k
  {
    NotDigits(n, x);
    hide Not;
    if k > 0 {
      BitOfNot(n - 1, x / 2, k - 1);
    }
  }

  lemma {:induction false} BitOfOnes(n: nat, k: nat)
    requires k < n
    ensures Bit(Pow2(n) - 1, k)
    decreases k
  {
    if k > 0 {
      BitOfOnes(n - 1, k - 1);
    }
  }

  // x & (1 << k) tests bit k.
  lemma {:induction false} BitTest(x: nat, k: nat)
    ensures And(x, Pow2(k)) != 0 <==> Bit(x, k)
    decreases k
  {
    AndDigits(x, Pow2(k));
    if k > 0 {
      BitTest(x / 2, k - 1);
      assert Pow2(k) / 2 == Pow2(k - 1) && Pow2(k) % 2 == 0;
    } else {
      AndOne(x);
    }
    hide And;
  }

  lemma AndOne(x: nat)
    ensures And(x, 1) == x % 2
  {
    AndUnfolded(x, 1);
  }

  lemma {:induction false} Pow2Monotone(i: nat, n: nat)
    requires i < n
    ensures Pow2(i) < Pow2(n)
  {
    if i + 1 < n {
      Pow2Monotone(i, n - 1);
    }
  }

  lemma {:induction false} BitAbove(x: nat, n: nat, k: nat)
    requires x < Pow2(n) && n <= k
    ensures !Bit(x, k)
    decreases k
  {
    if n > 0 {
      BitAbove(x / 2, n - 1, k - 1);
    } else {
      BitOfZero(k);
    }
  }
}
