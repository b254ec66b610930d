/** The multiplication behind GHASH in lib/fusion.c: two carry-less products per 128-bit
    operand, a Karatsuba middle term, a deferred two-step reduction and a hash key that is
    twisted once beforehand. Every 128-bit register is a number below 2^128 whose bit 127
    is the first bit of the block (the byte-swapped form the source computes in). */
module Ghash {
  import opened Gf2

  type U128 = x: nat | x < Pow2(128) witness 0

  // ---------------------------------------------------------------- the field of SP 800-38D

  // The constant R of section 6.3: 11100001 followed by 120 zeros.
  const R: nat := 0xe100_0000_0000_0000_0000_0000_0000_0000

  // One step of the sequence V in section 6.3: V times alpha.
  function TimesAlpha(v: U128): U128
  {
    ROk(v);
    if v % 2 == 0 then v / 2 else Xor(v / 2, R)
  }

  lemma ROk(v: U128)
    ensures R < Pow2(128)
    ensures v / 2 < Pow2(128)
    ensures Xor(v / 2, R) < Pow2(128)
  {
    Pow2Words();
    XorBound(v / 2, R, 128);
  }

  // The product of the leading k bits x with v: section 6.3, bits taken from the left.
  function ProductOfBits(x: nat, k: nat, v: U128): U128
    requires x < Pow2(k)
  {
    if k == 0 then 0
    else if x >= Pow2(k - 1) then
      XorBound(v, ProductOfBits(x - Pow2(k - 1), k - 1, TimesAlpha(v)), 128);
      Xor(v, ProductOfBits(x - Pow2(k - 1), k - 1, TimesAlpha(v)))
    else ProductOfBits(x, k - 1, TimesAlpha(v))
  }

  // X . Y of section 6.3.
  function Product(x: U128, y: U128): U128 { ProductOfBits(x, 128, y) }

  // ---------------------------------------------------------------- registers

  const WORD: nat := 0x1_0000_0000_0000_0000

  function Low(x: U128): (r: nat)
    ensures r < Pow2(64)
  {
    Pow2Words();
    x % WORD
  }

  function High(x: U128): (r: nat)
    ensures r < Pow2(64)
  {
    Pow2Words();
    x / WORD
  }

  lemma Halves(x: U128)
    ensures x == Shl(High(x), 64) + Low(x)
    ensures x == Xor(Shl(High(x), 64), Low(x))
  {
    ShlWord(High(x));
    XorDisjoint(High(x), Low(x), 64);
  }

  lemma PairOk(h: nat, l: nat)
    requires h < Pow2(64) && l < Pow2(64)
    ensures Shl(h, 64) + l < Pow2(128)
    ensures Low(Shl(h, 64) + l) == l && High(Shl(h, 64) + l) == h
  {
    ShlWord(h);
    Pow2Words();
  }

  // _mm_shuffle_epi32(x, 78)
  function SwapHalves(x: U128): U128
  {
    PairOk(Low(x), High(x));
    Shl(Low(x), 64) + High(x)
  }

  // _mm_slli_si128(x, 8)
  function UpWord(x: U128): U128
  {
    PairOk(Low(x), 0);
    Shl(Low(x), 64)
  }

  // _mm_srli_si128(x, 8)
  function DownWord(x: U128): U128
  {
    WordOk(High(x));
    High(x)
  }

  lemma WordOk(x: nat)
    requires x < Pow2(64)
    ensures x < Pow2(128)
  {
    Pow2Monotone(64, 128);
  }

  function Add(x: U128, y: U128): U128
  {
    XorBound(x, y, 128);
    Xor(x, y)
  }

  // _mm_clmulepi64_si128 on two selected words
  function Clmul(x: nat, y: nat): U128
    requires x < Pow2(64) && y < Pow2(64)
  {
    MulBound(x, y, 64, 64);
    Mul(x, y)
  }

  // ---------------------------------------------------------------- lib/fusion.c:116-207

  // High word of the constant `poly`.
  const POLY_HIGH: nat := 0xc200_0000_0000_0000

  // The modulus t^128 + t^127 + t^126 + t^121 + 1.
  const MODULUS: nat := 0x1_c200_0000_0000_0000_0000_0000_0000_0001

  lemma PolyHighOk()
    ensures POLY_HIGH < Pow2(64)
  {
    Pow2Words();
  }

  // One half of the fast reduction.
  function FoldWord(lo: U128): U128
  {
    PolyHighOk();
    Add(SwapHalves(lo), Clmul(Low(lo), POLY_HIGH))
  }

  function Reduce(hi: U128, lo: U128): U128 { Add(hi, FoldWord(FoldWord(lo))) }

  // gfmul
  function GfMul(x: U128, y: U128): U128
  {
    var lo := Clmul(Low(x), Low(y));
    var hi := Clmul(High(x), High(y));
    var a := Add(SwapHalves(x), x);
    var b := Add(SwapHalves(y), y);
    var m := Add(Add(Clmul(Low(a), Low(b)), lo), hi);
    Reduce(Add(hi, DownWord(m)), Add(lo, UpWord(m)))
  }

  datatype State = State(hi: U128, lo: U128, mid: U128)

  // gfmul_do_reduce
  function DoReduce(g: State): U128
  {
    var mid := Add(Add(g.mid, g.hi), g.lo);
    Reduce(Add(g.hi, DownWord(mid)), Add(g.lo, UpWord(mid)))
  }

  // A power of the hash key and the sum of its two halves.
  datatype Entry = Entry(H: U128, r: U128)

  function MakeEntry(h: U128): Entry { Entry(h, Add(SwapHalves(h), h)) }

  // gfmul_do_step128
  function DoStep(g: State, x: U128, e: Entry): State
  {
    var t1 := Clmul(Low(e.H), Low(x));
    var t2 := Clmul(High(e.H), High(x));
    var t3 := Clmul(Low(e.r), Low(Add(SwapHalves(x), x)));
    State(Add(g.hi, t2), Add(g.lo, t1), Add(g.mid, t3))
  }

  // transformH: the key shifted left by one bit, reduced.
  function TransformH(h: U128): U128
  {
    ShiftOk(h);
    if High(h) >= WORD / 2 then Add(ShiftedLeft(h), PolyRegister()) else ShiftedLeft(h)
  }

  // Each word shifted by one, with the carry of the low word entering the high word.
  function ShiftedLeft(h: U128): nat
  {
    ((2 * High(h)) % WORD + Low(h) / (WORD / 2)) * WORD + (2 * Low(h)) % WORD
  }

  function PolyRegister(): U128
  {
    PolyHighOk();
    PairOk(POLY_HIGH, 1);
    Shl(POLY_HIGH, 64) + 1
  }

  lemma ShiftOk(h: U128)
    ensures ShiftedLeft(h) < Pow2(128)
    ensures 2 * h == (if High(h) >= WORD / 2 then Pow2(128) else 0) + ShiftedLeft(h)
  {
    Pow2Words();
    var lo, hi := Low(h), High(h);
    assert h == hi * WORD + lo;
    assert lo / (WORD / 2) == if lo >= WORD / 2 then 1 else 0;
    assert (2 * lo) % WORD == if lo >= WORD / 2 then 2 * lo - WORD else 2 * lo;
    assert (2 * hi) % WORD == if hi >= WORD / 2 then 2 * hi - WORD else 2 * hi;
  }

  // ---------------------------------------------------------------- the reduction is a division

  lemma ModulusForm()
    ensures MODULUS == Xor(Shl(1, 128), Xor(Shl(POLY_HIGH, 64), 1))
    ensures MODULUS == 2 * R + 1 && MODULUS % 2 == 1
    ensures Pow2(128) <= MODULUS < Pow2(129)
    ensures PolyRegister() == Xor(Shl(POLY_HIGH, 64), 1)
    ensures MODULUS == Xor(Pow2(128), PolyRegister())
  {
    Pow2Words();
    XorDisjoint(POLY_HIGH, 1, 64);
    ShlWord(POLY_HIGH);
    ShlIsProduct(1, 128);
    XorDisjoint(1, Shl(POLY_HIGH, 64) + 1, 128);
  }

  // Adding Low(lo) multiples of the modulus clears the low word, which is then dropped.
  lemma FoldWordDivides(lo: U128)
    ensures Cong(Shl(FoldWord(lo), 64), lo, MODULUS)
  {
    var l, h := Low(lo), High(lo);
    ModulusForm();
    PolyHighOk();
    Halves(lo);
    Halves(SwapHalves(lo));
    WordOk(h);
    XorDisjoint(l, h, 64);
    assert SwapHalves(lo) == Xor(Shl(l, 64), h);
    // the multiple of the modulus
    var lp := Mul(l, POLY_HIGH);
    MulDistRight(l, Shl(1, 128), Xor(Shl(POLY_HIGH, 64), 1));
    MulDistRight(l, Shl(POLY_HIGH, 64), 1);
    MulShiftRight(l, 1, 128);
    MulShiftRight(l, POLY_HIGH, 64);
    MulByOne(l);
    assert Mul(l, MODULUS) == Xor(Shl(l, 128), Xor(Shl(lp, 64), l));
    // the shifted result
    XorShift(Xor(Shl(l, 64), h), lp, 64);
    XorShift(Shl(l, 64), h, 64);
    ShlAdd(l, 64, 64);
    assert Shl(FoldWord(lo), 64) == Xor(Xor(Shl(l, 128), Shl(h, 64)), Shl(lp, 64));
    FoldRearrange(Shl(l, 128), Shl(h, 64), Shl(lp, 64), l);
    CongIntro(Shl(FoldWord(lo), 64), lo, l, MODULUS);
  }

  // (a + h) + p == (h + l) + (a + (p + l))
  lemma FoldRearrange(a: nat, h: nat, p: nat, l: nat)
    ensures Xor(Xor(a, h), p) == Xor(Xor(h, l), Xor(a, Xor(p, l)))
  {
    XorComm(p, l);
    XorSwap(h, l, a, Xor(l, p));
    XorCancel(l, p);
    XorComm(a, h);
  }

  lemma ReduceDivides(hi: U128, lo: U128)
    ensures Cong(Shl(Reduce(hi, lo), 128), Xor(Shl(hi, 128), lo), MODULUS)
  {
    var a := FoldWord(lo);
    var b := FoldWord(a);
    FoldWordDivides(lo);
    FoldWordDivides(a);
    CongShift(Shl(b, 64), a, 64, MODULUS);
    ShlAdd(b, 64, 64);
    CongTrans(Shl(b, 128), Shl(a, 64), lo, MODULUS);
    XorShift(hi, b, 128);
    CongRefl(Shl(hi, 128), MODULUS);
    CongAdd(Shl(hi, 128), Shl(hi, 128), Shl(b, 128), lo, MODULUS);
  }

  // The 256-bit number that a state stands for.
  function Wide(hi: nat, lo: nat, m: nat): nat { Xor(Xor(Shl(hi, 128), lo), Shl(m, 64)) }

  function Middle(g: State): U128 { Add(Add(g.mid, g.hi), g.lo) }

  lemma RecombineDivides(hi: U128, lo: U128, m: U128)
    ensures Cong(Shl(Reduce(Add(hi, DownWord(m)), Add(lo, UpWord(m))), 128), Wide(hi, lo, m), MODULUS)
  {
    var mh, ml := High(m), Low(m);
    ReduceDivides(Add(hi, DownWord(m)), Add(lo, UpWord(m)));
    XorShift(hi, mh, 128);
    Halves(m);
    XorShift(Shl(mh, 64), ml, 64);
    ShlAdd(mh, 64, 64);
    XorSwap(Shl(hi, 128), Shl(mh, 128), lo, Shl(ml, 64));
  }

  // A register times another, from its halves (Karatsuba).
  lemma Karatsuba(x: U128, y: U128)
    ensures var a, b := Add(SwapHalves(x), x), Add(SwapHalves(y), y);
            var hi, lo := Clmul(High(x), High(y)), Clmul(Low(x), Low(y));
            var m := Add(Add(Clmul(Low(a), Low(b)), hi), lo);
            Mul(x, y) == Wide(hi, lo, m)
  {
    var x1, x0, y1, y0 := High(x), Low(x), High(y), Low(y);
    SumOfHalves(x);
    SumOfHalves(y);
    Halves(x);
    Halves(y);
    MulDistLeft(Shl(x1, 64), x0, y);
    MulShiftLeft(x1, y, 64);
    MulDistRight(x1, Shl(y1, 64), y0);
    MulDistRight(x0, Shl(y1, 64), y0);
    MulShiftRight(x1, y1, 64);
    MulShiftRight(x0, y1, 64);
    var hh, hl, lh, ll := Mul(x1, y1), Mul(x1, y0), Mul(x0, y1), Mul(x0, y0);
    XorShift(Shl(hh, 64), hl, 64);
    ShlAdd(hh, 64, 64);
    assert Mul(x, y) == Xor(Xor(Shl(hh, 128), Shl(hl, 64)), Xor(Shl(lh, 64), ll));
    KaratsubaMiddle(x1, x0, y1, y0);
    XorShift(hl, lh, 64);
    XorComm(Shl(lh, 64), ll);
    XorSwap(Shl(hh, 128), Shl(hl, 64), ll, Shl(lh, 64));
  }

  lemma SumOfHalves(x: U128)
    ensures Low(Add(SwapHalves(x), x)) == Xor(High(x), Low(x))
  {
    hide Xor, Shl, Pow2;
    Halves(x);
    AddPairs(Low(x), High(x), High(x), Low(x));
  }

  lemma AddPairs(h: nat, l: nat, h': nat, l': nat)
    requires h < Pow2(64) && l < Pow2(64) && h' < Pow2(64) && l' < Pow2(64)
    ensures Xor(Shl(h, 64) + l, Shl(h', 64) + l') < Pow2(128)
    ensures Low(Xor(Shl(h, 64) + l, Shl(h', 64) + l')) == Xor(l, l')
  {
    hide Xor, Shl, Pow2;
    XorSplit(h, l, h', l', 64);
    XorBound(h, h', 64);
    XorBound(l, l', 64);
    PairOk(Xor(h, h'), Xor(l, l'));
  }

  // (x1 + x0)(y1 + y0) + x1 y1 + x0 y0 == x1 y0 + x0 y1
  lemma KaratsubaMiddle(x1: nat, x0: nat, y1: nat, y0: nat)
    ensures Xor(Xor(Mul(Xor(x1, x0), Xor(y1, y0)), Mul(x1, y1)), Mul(x0, y0)) == Xor(Mul(x1, y0), Mul(x0, y1))
  {
    var hh, hl, lh, ll := Mul(x1, y1), Mul(x1, y0), Mul(x0, y1), Mul(x0, y0);
    MulDistLeft(x1, x0, Xor(y1, y0));
    MulDistRight(x1, y1, y0);
    MulDistRight(x0, y1, y0);
    // ((hh + hl) + (lh + ll)) + hh + ll == hl + lh
    XorAssoc(hh, hl, Xor(lh, ll));
    XorComm(hh, Xor(hl, Xor(lh, ll)));
    XorAssoc(Xor(hl, Xor(lh, ll)), hh, hh);
    XorSelf(hh);
    XorZero(Xor(hl, Xor(lh, ll)));
    XorAssoc(hl, lh, ll);
    XorAssoc(Xor(hl, lh), ll, ll);
    XorSelf(ll);
    XorZero(Xor(hl, lh));
  }

  // gfmul divides the product by t^128.
  lemma GfMulDivides(x: U128, y: U128)
    ensures Cong(Shl(GfMul(x, y), 128), Mul(x, y), MODULUS)
  {
    var hi, lo := Clmul(High(x), High(y)), Clmul(Low(x), Low(y));
    var t := Clmul(Low(Add(SwapHalves(x), x)), Low(Add(SwapHalves(y), y)));
    Karatsuba(x, y);
    XorAssoc(t, hi, lo);
    XorComm(hi, lo);
    XorAssoc(t, lo, hi);
    RecombineDivides(hi, lo, Add(Add(t, lo), hi));
  }

  lemma Unique(a: U128, b: U128, k: nat)
    requires Cong(Shl(a, k), Shl(b, k), MODULUS)
    ensures a == b
  {
    ModulusForm();
    CongUnique(a, b, k, MODULUS, 128);
  }

  // ---------------------------------------------------------------- what the products are

  lemma GfMulComm(x: U128, y: U128)
    ensures GfMul(x, y) == GfMul(y, x)
  {
    GfMulDivides(x, y);
    GfMulDivides(y, x);
    MulComm(x, y);
    CongSym(Shl(GfMul(y, x), 128), Mul(y, x), MODULUS);
    CongTrans(Shl(GfMul(x, y), 128), Mul(x, y), Shl(GfMul(y, x), 128), MODULUS);
    Unique(GfMul(x, y), GfMul(y, x), 128);
  }

  // Shl(GfMul(GfMul(x, y), z), 256) is congruent to x y z.
  lemma TripleDivides(x: U128, y: U128, z: U128)
    ensures Cong(Shl(GfMul(GfMul(x, y), z), 256), Mul(Mul(x, y), z), MODULUS)
  {
    var u := GfMul(x, y);
    GfMulDivides(u, z);
    CongShift(Shl(GfMul(u, z), 128), Mul(u, z), 128, MODULUS);
    ShlAdd(GfMul(u, z), 128, 128);
    MulShiftLeft(u, z, 128);
    GfMulDivides(x, y);
    CongMul(Shl(u, 128), Mul(x, y), z, MODULUS);
    MulComm(z, Shl(u, 128));
    MulComm(z, Mul(x, y));
    CongTrans(Shl(GfMul(u, z), 256), Shl(Mul(u, z), 128), Mul(Mul(x, y), z), MODULUS);
  }

  lemma GfMulAssoc(x: U128, y: U128, z: U128)
    ensures GfMul(GfMul(x, y), z) == GfMul(x, GfMul(y, z))
  {
    TripleDivides(x, y, z);
    TripleDivides(y, z, x);
    MulAssoc(x, y, z);
    MulComm(x, Mul(y, z));
    var l, r := GfMul(GfMul(x, y), z), GfMul(GfMul(y, z), x);
    CongSym(Shl(r, 256), Mul(Mul(y, z), x), MODULUS);
    CongTrans(Shl(l, 256), Mul(Mul(x, y), z), Shl(r, 256), MODULUS);
    Unique(l, r, 256);
    GfMulComm(x, GfMul(y, z));
  }

  lemma GfMulDist(x: U128, y: U128, z: U128)
    ensures GfMul(Add(x, y), z) == Add(GfMul(x, z), GfMul(y, z))
  {
    GfMulDivides(x, z);
    GfMulDivides(y, z);
    GfMulDivides(Add(x, y), z);
    MulDistLeft(x, y, z);
    CongAdd(Shl(GfMul(x, z), 128), Mul(x, z), Shl(GfMul(y, z), 128), Mul(y, z), MODULUS);
    XorShift(GfMul(x, z), GfMul(y, z), 128);
    var l, r := GfMul(Add(x, y), z), Add(GfMul(x, z), GfMul(y, z));
    CongSym(Shl(r, 128), Mul(Xor(x, y), z), MODULUS);
    CongTrans(Shl(l, 128), Mul(Xor(x, y), z), Shl(r, 128), MODULUS);
    Unique(l, r, 128);
  }

  // Accumulating a product and reducing later equals reducing at once.
  lemma StepAddsProduct(g: State, x: U128, h: U128)
    ensures DoReduce(DoStep(g, x, MakeEntry(h))) == Add(DoReduce(g), GfMul(x, h))
  {
    var e := MakeEntry(h);
    var g' := DoStep(g, x, e);
    var t1, t2 := Clmul(Low(h), Low(x)), Clmul(High(h), High(x));
    var t3 := Clmul(Low(e.r), Low(Add(SwapHalves(x), x)));
    var m := Add(Add(t3, t2), t1);
    Karatsuba(h, x);
    assert Mul(h, x) == Wide(t2, t1, m);
    // the wide numbers add
    XorSwap(g.mid, t3, g.hi, t2);
    XorSwap(Xor(g.mid, g.hi), Xor(t3, t2), g.lo, t1);
    assert Middle(g') == Add(Middle(g), m);
    WideAdds(g.hi, g.lo, Middle(g), t2, t1, m);
    // and so do their reductions
    RecombineDivides(g.hi, g.lo, Middle(g));
    RecombineDivides(g'.hi, g'.lo, Middle(g'));
    GfMulDivides(x, h);
    MulComm(x, h);
    var w, w' := Wide(g.hi, g.lo, Middle(g)), Wide(g'.hi, g'.lo, Middle(g'));
    var a, b, c := DoReduce(g), GfMul(x, h), DoReduce(g');
    CongAdd(Shl(a, 128), w, Shl(b, 128), Mul(h, x), MODULUS);
    XorShift(a, b, 128);
    CongSym(Shl(Add(a, b), 128), w', MODULUS);
    CongTrans(Shl(c, 128), w', Shl(Add(a, b), 128), MODULUS);
    Unique(c, Add(a, b), 128);
  }

  lemma WideAdds(hi: nat, lo: nat, m: nat, hi': nat, lo': nat, m': nat)
    ensures Wide(Xor(hi, hi'), Xor(lo, lo'), Xor(m, m')) == Xor(Wide(hi, lo, m), Wide(hi', lo', m'))
  {
    XorShift(hi, hi', 128);
    XorShift(m, m', 64);
    XorSwap(Shl(hi, 128), Shl(hi', 128), lo, lo');
    XorSwap(Xor(Shl(hi, 128), lo), Xor(Shl(hi', 128), lo'), Shl(m, 64), Shl(m', 64));
  }

  lemma ReduceOfZero(z: U128)
    requires z == 0
    ensures DoReduce(State(z, z, z)) == 0
  {
    var g := State(z, z, z);
    XorZero(z);
    assert Middle(g) == z;
    RecombineDivides(z, z, z);
    ShlZero(128);
    ShlZero(64);
    Unique(DoReduce(g), z, 128);
  }

  // ---------------------------------------------------------------- agreement with SP 800-38D

  lemma TimesAlphaDivides(v: U128)
    ensures Cong(2 * TimesAlpha(v), v, MODULUS)
  {
    hide Xor, Mul, Pow2;
    ModulusForm();
    if v % 2 == 0 {
      CongRefl(v, MODULUS);
    } else {
      ROk(v);
      XorOdd(v, R, MODULUS);
      CongByModulus(2 * TimesAlpha(v), v, MODULUS);
    }
  }

  lemma {:induction false} ProductDivides(x: nat, k: nat, v: U128)
    requires 0 < k && x < Pow2(k)
    ensures Cong(Shl(ProductOfBits(x, k, v), k - 1), Mul(x, v), MODULUS)
    decreases k
  {
    hide Xor, Mul;
    var top := x >= Pow2(k - 1);
    var x' := if top then x - Pow2(k - 1) else x;
    var v': nat := TimesAlpha(v);
    var rest := ProductOfBits(x', k - 1, v');
    // the remaining bits
    assert Cong(Shl(rest, k - 1), Mul(x', v), MODULUS) by {
      if k == 1 {
        MulZero(v);
        ShlZero(k - 1);
        CongRefl(0, MODULUS);
      } else {
        ProductDivides(x', k - 1, v');
        CongShift(Shl(rest, k - 2), Mul(x', v'), 1, MODULUS);
        ShlAdd(rest, k - 2, 1);
        assert Shl(Mul(x', v'), 1) == 2 * Shl(Mul(x', v'), 0);
        MulDoubleRight(x', v');
        TimesAlphaDivides(v);
        CongMul(2 * v', v, x', MODULUS);
        CongTrans(Shl(rest, k - 1), Mul(x', 2 * v'), Mul(x', v), MODULUS);
      }
    }
    if top { LeadingBit(x', k - 1, v, rest); }
  }

  lemma LeadingBit(x: nat, k: nat, v: nat, rest: nat)
    requires x < Pow2(k) && Cong(Shl(rest, k), Mul(x, v), MODULUS)
    ensures Cong(Shl(Xor(v, rest), k), Mul(Pow2(k) + x, v), MODULUS)
  {
    hide Xor, Mul, Shl, Pow2;
    ShlIsProduct(1, k);
    XorDisjoint(1, x, k);
    MulDistLeft(Shl(1, k), x, v);
    MulShiftLeft(1, v, k);
    MulOne(v);
    XorShift(v, rest, k);
    CongRefl(Shl(v, k), MODULUS);
    CongAdd(Shl(v, k), Shl(v, k), Shl(rest, k), Mul(x, v), MODULUS);
  }

  lemma TransformHDoubles(h: U128)
    ensures Cong(TransformH(h), 2 * h, MODULUS)
  {
    ShiftOk(h);
    if High(h) >= WORD / 2 {
      CarryClears(ShiftedLeft(h));
      CongByModulus(TransformH(h), 2 * h, MODULUS);
    } else {
      CongRefl(2 * h, MODULUS);
    }
  }

  lemma CarryClears(s: U128)
    ensures Xor(Pow2(128) + s, MODULUS) == Add(s, PolyRegister())
  {
    hide Xor, Mul, Pow2, Shl;
    var top := Pow2(128);
    ShlIsProduct(1, 128);
    XorDisjoint(1, s, 128);
    ModulusForm();
    XorCommon(top, s, PolyRegister());
  }

  // The register-level product with a twisted key is the product of the standard.
  lemma GfMulIsProduct(x: U128, h: U128)
    ensures GfMul(x, TransformH(h)) == Product(x, h)
  {
    var th := TransformH(h);
    GfMulDivides(x, th);
    TransformHDoubles(h);
    CongMul(th, 2 * h, x, MODULUS);
    MulDoubleRight(x, h);
    CongTrans(Shl(GfMul(x, th), 128), Mul(x, th), Mul(x, 2 * h), MODULUS);
    ProductDivides(x, 128, h);
    CongShift(Shl(Product(x, h), 127), Mul(x, h), 1, MODULUS);
    ShlAdd(Product(x, h), 127, 1);
    assert Shl(Mul(x, h), 1) == 2 * Shl(Mul(x, h), 0);
    CongSym(Shl(Product(x, h), 128), Mul(x, 2 * h), MODULUS);
    CongTrans(Shl(GfMul(x, th), 128), Mul(x, 2 * h), Shl(Product(x, h), 128), MODULUS);
    Unique(GfMul(x, th), Product(x, h), 128);
  }
}
