/** Polynomials over GF(2), written as natural numbers: bit i of the number is the
    coefficient of t^i. Addition is exclusive or; the product is the carry-less product.
    The ring laws, the degree of a product and cancellation modulo an odd polynomial are
    proved here from the two recursive definitions. */
module Gf2 {

  // ---------------------------------------------------------------- powers of two

  function Pow2(k: nat): (r: nat)
    ensures r > 0
  {
    if k == 0 then 1 else 2 * Pow2(k - 1)
  }

  lemma Pow2AtZero()
    ensures Pow2(0) == 1
  {}

  lemma {:induction false} Pow2Add(j: nat, k: nat)
    ensures Pow2(j + k) == Pow2(j) * Pow2(k)
  {
    if j != 0 {
      Pow2Add(j - 1, k);
      assert j - 1 + k == j + k - 1;
    }
  }

  lemma Pow2Words()
    ensures Pow2(8) == 0x100
    ensures Pow2(63) == 0x8000_0000_0000_0000
    ensures Pow2(64) == 0x1_0000_0000_0000_0000
    ensures Pow2(128) == 0x1_0000_0000_0000_0000_0000_0000_0000_0000
  {
    Pow2Of32();
    Pow2Add(32, 32);
    Pow2Add(64, 64);
  }

  lemma Pow2Of32()
    ensures Pow2(8) == 0x100
    ensures Pow2(32) == 0x1_0000_0000
  {
    assert Pow2(4) == 16;
    Pow2Add(4, 4);
    Pow2Add(8, 8);
    Pow2Add(16, 16);
  }

  lemma {:induction false} Pow2Monotone(j: nat, k: nat)
    requires j <= k
    ensures Pow2(j) <= Pow2(k)
  {
    if j < k { Pow2Monotone(j, k - 1); }
  }

  // ---------------------------------------------------------------- addition

  function Bit(b: bool): (r: nat) { if b then 1 else 0 }

  function Xor(a: nat, b: nat): nat
    decreases a + b
  {
    if a == 0 && b == 0 then 0
    else 2 * Xor(a / 2, b / 2) + Bit(a % 2 != b % 2)
  }

  // The one fact about Xor that the other proofs use: how it acts on the lowest bit.
  lemma XorUnfold(a: nat, b: nat)
    ensures Xor(a, b) / 2 == Xor(a / 2, b / 2)
    ensures Xor(a, b) % 2 == Bit(a % 2 != b % 2)
  {}

  lemma XorStep(u: nat, p: nat, v: nat, q: nat)
    requires p < 2 && q < 2
    ensures Xor(2 * u + p, 2 * v + q) == 2 * Xor(u, v) + Bit(p != q)
  {
    XorUnfold(2 * u + p, 2 * v + q);
  }

  lemma {:induction false} XorZero(a: nat)
    ensures Xor(a, 0) == a && Xor(0, a) == a
    decreases a
  {
    if a != 0 { XorZero(a / 2); }
  }

  lemma {:induction false} XorSelf(a: nat)
    ensures Xor(a, a) == 0
    decreases a
  {
    if a != 0 { XorSelf(a / 2); }
  }

  lemma {:induction false} XorComm(a: nat, b: nat)
    ensures Xor(a, b) == Xor(b, a)
    decreases a + b
  {
    if a != 0 || b != 0 { XorComm(a / 2, b / 2); }
  }

  lemma {:induction false} XorAssoc(a: nat, b: nat, c: nat)
    ensures Xor(Xor(a, b), c) == Xor(a, Xor(b, c))
    decreases a + b + c
  {
    if a != 0 || b != 0 || c != 0 {
      XorAssoc(a / 2, b / 2, c / 2);
      XorUnfold(a, b);
      XorUnfold(b, c);
      XorUnfold(Xor(a, b), c);
      XorUnfold(a, Xor(b, c));
    }
  }

  // (a + b) + (c + d) == (a + c) + (b + d)
  lemma XorSwap(a: nat, b: nat, c: nat, d: nat)
    ensures Xor(Xor(a, b), Xor(c, d)) == Xor(Xor(a, c), Xor(b, d))
  {
    XorAssoc(a, b, Xor(c, d));
    XorAssoc(b, c, d);
    XorComm(b, c);
    XorAssoc(c, b, d);
    XorAssoc(a, c, Xor(b, d));
  }

  lemma XorCancel(a: nat, b: nat)
    ensures Xor(a, Xor(a, b)) == b
  {
    XorAssoc(a, a, b);
    XorSelf(a);
    XorZero(b);
  }

  lemma XorInjective(a: nat, b: nat)
    requires Xor(a, b) == 0
    ensures a == b
  {
    XorCancel(a, b);
    XorZero(a);
  }

  lemma {:induction false} XorBound(a: nat, b: nat, k: nat)
    requires a < Pow2(k) && b < Pow2(k)
    ensures Xor(a, b) < Pow2(k)
  {
    if k != 0 { XorBound(a / 2, b / 2, k - 1); }
  }

  lemma XorDouble(a: nat, b: nat)
    ensures Xor(2 * a, 2 * b) == 2 * Xor(a, b)
  {
    XorUnfold(2 * a, 2 * b);
  }

  // The number shifted left by k places: a * t^k.
  function Shl(a: nat, k: nat): nat
  {
    if k == 0 then a else 2 * Shl(a, k - 1)
  }

  lemma {:induction false} ShlIsProduct(a: nat, k: nat)
    ensures Shl(a, k) == a * Pow2(k)
  {
    if k != 0 {
      ShlIsProduct(a, k - 1);
      assert a * Pow2(k) == 2 * (a * Pow2(k - 1)) by { TwoOut(a, Pow2(k - 1)); }
    }
  }

  lemma TwoOut(a: nat, w: nat)
    ensures a * (2 * w) == 2 * (a * w)
  {}

  lemma ShlWord(a: nat)
    ensures Shl(a, 64) == a * 0x1_0000_0000_0000_0000
  {
    ShlIsProduct(a, 64);
    Pow2Words();
  }

  lemma {:induction false} ShlAdd(a: nat, j: nat, k: nat)
    ensures Shl(Shl(a, j), k) == Shl(a, j + k)
    decreases k
  {
    if k != 0 { ShlAdd(a, j, k - 1); }
  }

  // Halving an odd number after adding an odd number.
  lemma XorOdd(v: nat, r: nat, p: nat)
    requires v % 2 == 1 && p == 2 * r + 1
    ensures 2 * Xor(v / 2, r) == Xor(v, p)
  {
    XorStep(v / 2, 1, r, 1);
  }

  // (t + s) + (t + q) == s + q
  lemma XorCommon(t: nat, s: nat, q: nat)
    ensures Xor(Xor(t, s), Xor(t, q)) == Xor(s, q)
  {
    XorSwap(t, s, t, q);
    XorSelf(t);
    XorZero(Xor(s, q));
  }

  // Words side by side are added side by side.
  lemma {:induction false} XorSplit(a: nat, c: nat, b: nat, d: nat, k: nat)
    requires c < Pow2(k) && d < Pow2(k)
    ensures Xor(Shl(a, k) + c, Shl(b, k) + d) == Shl(Xor(a, b), k) + Xor(c, d)
    decreases k
  {
    hide Xor;
    if k != 0 {
      XorSplit(a, c / 2, b, d / 2, k - 1);
      var x, y := Shl(a, k - 1) + c / 2, Shl(b, k - 1) + d / 2;
      assert Shl(a, k) + c == 2 * x + c % 2;
      assert Shl(b, k) + d == 2 * y + d % 2;
      XorStep(x, c % 2, y, d % 2);
      XorStep(c / 2, c % 2, d / 2, d % 2);
    } else {
      XorZero(0);
    }
  }

  lemma XorShift(a: nat, b: nat, k: nat)
    ensures Xor(Shl(a, k), Shl(b, k)) == Shl(Xor(a, b), k)
  {
    XorSplit(a, 0, b, 0, k);
  }

  // Adding into disjoint words is ordinary addition.
  lemma XorDisjoint(a: nat, c: nat, k: nat)
    requires c < Pow2(k)
    ensures Xor(Shl(a, k), c) == Shl(a, k) + c
  {
    ShlZero(k);
    XorSplit(a, 0, 0, c, k);
    XorZero(a);
    XorZero(c);
  }

  lemma {:induction false} ShlZero(k: nat)
    ensures Shl(0, k) == 0
  {
    if k != 0 { ShlZero(k - 1); }
  }

  // ---------------------------------------------------------------- multiplication

  function Mul(a: nat, b: nat): nat
    decreases a
  {
    if a == 0 then 0 else Xor(if a % 2 == 1 then b else 0, 2 * Mul(a / 2, b))
  }

  lemma {:induction false} MulZero(a: nat)
    ensures Mul(a, 0) == 0 && Mul(0, a) == 0
    decreases a
  {
    if a != 0 { MulZero(a / 2); }
  }

  lemma MulOne(b: nat)
    ensures Mul(1, b) == b
  {
    XorZero(b);
  }

  lemma MulDoubleLeft(a: nat, b: nat)
    ensures Mul(2 * a, b) == 2 * Mul(a, b)
  {
    if a != 0 { XorZero(2 * Mul(a, b)); }
  }

  lemma {:induction false} MulDoubleRight(a: nat, b: nat)
    ensures Mul(a, 2 * b) == 2 * Mul(a, b)
    decreases a
  {
    if a != 0 {
      MulDoubleRight(a / 2, b);
      XorDouble(if a % 2 == 1 then b else 0, 2 * Mul(a / 2, b));
    }
  }

  lemma {:induction false} MulShiftLeft(a: nat, b: nat, k: nat)
    ensures Mul(Shl(a, k), b) == Shl(Mul(a, b), k)
    decreases k
  {
    if k != 0 {
      MulShiftLeft(a, b, k - 1);
      MulDoubleLeft(Shl(a, k - 1), b);
    }
  }

  lemma {:induction false} MulShiftRight(a: nat, b: nat, k: nat)
    ensures Mul(a, Shl(b, k)) == Shl(Mul(a, b), k)
    decreases k
  {
    if k != 0 {
      MulShiftRight(a, b, k - 1);
      MulDoubleRight(a, Shl(b, k - 1));
    }
  }

  lemma {:induction false} MulDistRight(a: nat, b: nat, c: nat)
    ensures Mul(a, Xor(b, c)) == Xor(Mul(a, b), Mul(a, c))
    decreases a
  {
    if a == 0 {
    } else {
      MulDistRight(a / 2, b, c);
      XorDouble(Mul(a / 2, b), Mul(a / 2, c));
      var p, q := 2 * Mul(a / 2, b), 2 * Mul(a / 2, c);
      if a % 2 == 1 {
        XorSwap(b, p, c, q);
      } else {
        XorZero(p);
        XorZero(q);
        XorZero(Xor(p, q));
      }
    }
  }

  lemma {:induction false} MulDistLeft(a: nat, b: nat, c: nat)
    ensures Mul(Xor(a, b), c) == Xor(Mul(a, c), Mul(b, c))
    decreases a + b
  {
    if a == 0 && b == 0 {
    } else {
      MulDistLeft(a / 2, b / 2, c);
      MulUnfold(a, c);
      MulUnfold(b, c);
      MulUnfold(Xor(a, b), c);
      XorUnfold(a, b);
      var a0 := if a % 2 == 1 then c else 0;
      var b0 := if b % 2 == 1 then c else 0;
      var p, q := 2 * Mul(a / 2, c), 2 * Mul(b / 2, c);
      XorSwap(a0, p, b0, q);
      XorDouble(Mul(a / 2, c), Mul(b / 2, c));
      XorSelf(c);
      XorZero(c);
    }
  }

  lemma MulUnfold(a: nat, b: nat)
    ensures Mul(a, b) == Xor(if a % 2 == 1 then b else 0, 2 * Mul(a / 2, b))
  {
    if a == 0 { XorZero(0); }
  }

  lemma {:induction false} MulComm(a: nat, b: nat)
    ensures Mul(a, b) == Mul(b, a)
    decreases a
  {
    if a == 0 {
      MulZero(b);
    } else {
      var low := a % 2;
      XorLow(a);
      MulDistRight(b, low, 2 * (a / 2));
      MulDoubleRight(b, a / 2);
      MulComm(a / 2, b);
      if low == 1 { MulByOne(b); } else { MulZero(b); }
    }
  }

  lemma XorLow(a: nat)
    ensures a == Xor(a % 2, 2 * (a / 2))
  {
    XorUnfold(a % 2, 2 * (a / 2));
    XorZero(a / 2);
  }

  lemma {:induction false} MulByOne(b: nat)
    ensures Mul(b, 1) == b
    decreases b
  {
    if b != 0 {
      MulByOne(b / 2);
      XorLow(b);
    }
  }

  lemma {:induction false} MulAssoc(a: nat, b: nat, c: nat)
    ensures Mul(Mul(a, b), c) == Mul(a, Mul(b, c))
    decreases a
  {
    if a == 0 {
    } else {
      var p := if a % 2 == 1 then b else 0;
      MulDistLeft(p, 2 * Mul(a / 2, b), c);
      MulDoubleLeft(Mul(a / 2, b), c);
      MulAssoc(a / 2, b, c);
      MulZero(c);
    }
  }

  // ---------------------------------------------------------------- degree

  // A number with top bit k plus a smaller number keeps its top bit.
  lemma XorTop(a: nat, b: nat, k: nat)
    requires Pow2(k) <= a < Pow2(k + 1) && b < Pow2(k)
    ensures Pow2(k) <= Xor(a, b) < Pow2(k + 1)
  {
    ShlZero(k);
    ShlIsProduct(1, k);
    XorSplit(1, a - Pow2(k), 0, b, k);
    XorBound(a - Pow2(k), b, k);
    XorZero(1);
  }

  // Degrees add.
  lemma {:induction false} MulDegree(a: nat, j: nat, b: nat, k: nat)
    requires Pow2(j) <= a < Pow2(j + 1) && Pow2(k) <= b < Pow2(k + 1)
    ensures Pow2(j + k) <= Mul(a, b) < Pow2(j + k + 1)
    decreases j
  {
    if j == 0 {
      assert a == 1;
      MulOne(b);
    } else {
      MulDegree(a / 2, j - 1, b, k);
      assert Pow2(j - 1 + k) <= Mul(a / 2, b) < Pow2(j + k);
      Pow2Monotone(k + 1, j + k);
      XorComm(if a % 2 == 1 then b else 0, 2 * Mul(a / 2, b));
      XorTop(2 * Mul(a / 2, b), if a % 2 == 1 then b else 0, j + k);
    }
  }

  lemma {:induction false} HasDegree(a: nat) returns (j: nat)
    requires a > 0
    ensures Pow2(j) <= a < Pow2(j + 1)
    decreases a
  {
    if a == 1 {
      j := 0;
    } else {
      var i := HasDegree(a / 2);
      j := i + 1;
    }
  }

  lemma MulBound(a: nat, b: nat, j: nat, k: nat)
    requires a < Pow2(j) && b < Pow2(k)
    ensures Mul(a, b) < Pow2(j + k)
  {
    if a == 0 || b == 0 {
      MulZero(a);
      MulZero(b);
    } else {
      var m := HasDegree(a);
      var n := HasDegree(b);
      MulDegree(a, m, b, n);
      if m >= j { Pow2Monotone(j, m); }
      if n >= k { Pow2Monotone(k, n); }
      Pow2Monotone(m + n + 1, j + k);
    }
  }

  // ---------------------------------------------------------------- congruence

  // a and b differ by a multiple of p.
  ghost predicate Cong(a: nat, b: nat, p: nat)
  {
    exists m: nat :: Xor(a, b) == Mul(m, p)
  }

  lemma CongIntro(a: nat, b: nat, m: nat, p: nat)
    requires a == Xor(b, Mul(m, p))
    ensures Cong(a, b, p)
  {
    XorComm(b, Mul(m, p));
    XorAssoc(Mul(m, p), b, b);
    XorSelf(b);
    XorZero(Mul(m, p));
    assert Xor(a, b) == Mul(m, p);
  }

  lemma CongByModulus(a: nat, b: nat, p: nat)
    requires a == Xor(b, p)
    ensures Cong(a, b, p)
  {
    MulOne(p);
    CongIntro(a, b, 1, p);
  }

  lemma CongRefl(a: nat, p: nat)
    ensures Cong(a, a, p)
  {
    XorSelf(a);
    assert Xor(a, a) == Mul(0, p);
  }

  lemma CongSym(a: nat, b: nat, p: nat)
    requires Cong(a, b, p)
    ensures Cong(b, a, p)
  {
    XorComm(a, b);
    var m: nat :| Xor(a, b) == Mul(m, p);
    assert Xor(b, a) == Mul(m, p);
  }

  lemma CongTrans(a: nat, b: nat, c: nat, p: nat)
    requires Cong(a, b, p) && Cong(b, c, p)
    ensures Cong(a, c, p)
  {
    var m: nat :| Xor(a, b) == Mul(m, p);
    var n: nat :| Xor(b, c) == Mul(n, p);
    MulDistLeft(m, n, p);
    XorAssoc(a, b, Xor(b, c));
    XorCancel(b, c);
    assert Xor(a, c) == Mul(Xor(m, n), p);
  }

  lemma CongAdd(a: nat, b: nat, c: nat, d: nat, p: nat)
    requires Cong(a, b, p) && Cong(c, d, p)
    ensures Cong(Xor(a, c), Xor(b, d), p)
  {
    var m: nat :| Xor(a, b) == Mul(m, p);
    var n: nat :| Xor(c, d) == Mul(n, p);
    MulDistLeft(m, n, p);
    XorSwap(a, c, b, d);
    assert Xor(Xor(a, c), Xor(b, d)) == Mul(Xor(m, n), p);
  }

  lemma CongMul(a: nat, b: nat, c: nat, p: nat)
    requires Cong(a, b, p)
    ensures Cong(Mul(c, a), Mul(c, b), p)
  {
    var m: nat :| Xor(a, b) == Mul(m, p);
    MulDistRight(c, a, b);
    MulAssoc(c, m, p);
    assert Xor(Mul(c, a), Mul(c, b)) == Mul(Mul(c, m), p);
  }

  lemma CongShift(a: nat, b: nat, k: nat, p: nat)
    requires Cong(a, b, p)
    ensures Cong(Shl(a, k), Shl(b, k), p)
  {
    var m: nat :| Xor(a, b) == Mul(m, p);
    XorShift(a, b, k);
    MulShiftLeft(m, p, k);
    assert Xor(Shl(a, k), Shl(b, k)) == Mul(Shl(m, k), p);
  }

  // t^k is invertible modulo an odd polynomial.
  lemma {:induction false} StripShift(d: nat, k: nat, m: nat, p: nat) returns (m': nat)
    requires p % 2 == 1 && Shl(d, k) == Mul(m, p)
    ensures d == Mul(m', p)
    decreases k
  {
    if k == 0 {
      m' := m;
    } else {
      MulUnfold(m, p);
      XorUnfold(if m % 2 == 1 then p else 0, 2 * Mul(m / 2, p));
      assert m % 2 == 0;
      XorZero(2 * Mul(m / 2, p));
      m' := StripShift(d, k - 1, m / 2, p);
    }
  }

  // Below the degree of p, congruence after any shift is equality.
  lemma CongUnique(a: nat, b: nat, k: nat, p: nat, n: nat)
    requires p % 2 == 1 && Pow2(n) <= p < Pow2(n + 1)
    requires a < Pow2(n) && b < Pow2(n)
    requires Cong(Shl(a, k), Shl(b, k), p)
    ensures a == b
  {
    var m: nat :| Xor(Shl(a, k), Shl(b, k)) == Mul(m, p);
    XorShift(a, b, k);
    var d := Xor(a, b);
    var m' := StripShift(d, k, m, p);
    XorBound(a, b, n);
    if m' != 0 {
      var j := HasDegree(m');
      MulDegree(m', j, p, n);
      Pow2Monotone(n, j + n);
      assert false;
    }
    XorInjective(a, b);
  }
}
