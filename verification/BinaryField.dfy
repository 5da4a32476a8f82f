/** Arithmetic in GF(2)[x] modulo a monic polynomial x^n + r(x), over coefficient
  * sequences with the coefficient of x^0 first.
  *
  * Both fields of the firmware are instances: the QR encoder works modulo
  * x^8 + x^4 + x^3 + x^2 + 1 and GHASH modulo x^128 + x^7 + x^2 + x + 1.
  */
module BinaryField {

  function Zero(n: nat): (z: seq<bool>)
    ensures |z| == n
  {
    seq(n, _ => false)
  }

  function One(n: nat): (e: seq<bool>)
    ensures |e| == n
  {
    seq(n, i => i == 0)
  }

  /** The monomial x^k below the modulus degree. */
  function Monomial(n: nat, k: nat): (e: seq<bool>)
    ensures |e| == n
  {
    seq(n, i => i == k)
  }

  function Xor(a: seq<bool>, b: seq<bool>): (c: seq<bool>)
    requires |a| == |b|
    ensures |c| == |a|
    ensures forall i :: 0 <= i < |a| ==> c[i] == (a[i] != b[i])
  {
    seq(|a|, i requires 0 <= i < |a| => a[i] != b[i])
  }

  function Scale(c: bool, v: seq<bool>): (w: seq<bool>)
    ensures |w| == |v|
  {
    if c then v else Zero(|v|)
  }

  /** Multiplication by x, folding the overflowing coefficient back through r. */
  function TimesX(r: seq<bool>, v: seq<bool>): (w: seq<bool>)
    requires |v| == |r| > 0
    ensures |w| == |v|
  {
    seq(|v|, i requires 0 <= i < |v| => (i > 0 && v[i - 1]) != (v[|v| - 1] && r[i]))
  }

  /** The polynomial p, of any length, multiplied onto the reduced element h. */
  function Act(r: seq<bool>, p: seq<bool>, h: seq<bool>): (w: seq<bool>)
    requires |h| == |r| > 0
    ensures |w| == |h|
    decreases |p|
  {
    if p == [] then Zero(|h|)
    else Xor(Scale(p[0], h), Act(r, p[1..], TimesX(r, h)))
  }

  /** The residue of a polynomial of any length. */
  function Residue(r: seq<bool>, p: seq<bool>): (w: seq<bool>)
    requires |r| > 0
    ensures |w| == |r|
  {
    Act(r, p, One(|r|))
  }

  /** Sum and product of plain polynomials, before any reduction. */
  function PolyAdd(p: seq<bool>, q: seq<bool>): (s: seq<bool>)
    ensures |s| == if |p| < |q| then |q| else |p|
  {
    seq(if |p| < |q| then |q| else |p|, i requires 0 <= i => (i < |p| && p[i]) != (i < |q| && q[i]))
  }

  function PolyMul(p: seq<bool>, q: seq<bool>): seq<bool>
    decreases |p|
  {
    if p == [] then []
    else PolyAdd(if p[0] then q else [], [false] + PolyMul(p[1..], q))
  }

  /** The modulus x^n + r(x). */
  function Modulus(r: seq<bool>): seq<bool> {
    r + [true]
  }

  // ── Linearity ──────────────────────────────────────────────────────────

  lemma TimesXAdditive(r: seq<bool>, a: seq<bool>, b: seq<bool>)
    requires |a| == |b| == |r| > 0
    ensures TimesX(r, Xor(a, b)) == Xor(TimesX(r, a), TimesX(r, b))
  {
  }

  lemma TimesXZero(r: seq<bool>)
    requires |r| > 0
    ensures TimesX(r, Zero(|r|)) == Zero(|r|)
  {
  }

  lemma {:induction false} ActAdditive(r: seq<bool>, p: seq<bool>, a: seq<bool>, b: seq<bool>)
    requires |a| == |b| == |r| > 0
    ensures Act(r, p, Xor(a, b)) == Xor(Act(r, p, a), Act(r, p, b))
    decreases |p|
  {
    if p == [] {
    } else {
      TimesXAdditive(r, a, b);
      ActAdditive(r, p[1..], TimesX(r, a), TimesX(r, b));
    }
  }

  lemma {:induction false} ActZero(r: seq<bool>, p: seq<bool>)
    requires |r| > 0
    ensures Act(r, p, Zero(|r|)) == Zero(|r|)
    decreases |p|
  {
    if p == [] {
    } else {
      TimesXZero(r);
      ActZero(r, p[1..]);
    }
  }

  lemma {:induction false} ActByZero(r: seq<bool>, n: nat, h: seq<bool>)
    requires |h| == |r| > 0
    ensures Act(r, Zero(n), h) == Zero(|h|)
    decreases n
  {
    if n == 0 {
    } else {
      assert Zero(n)[1..] == Zero(n - 1);
      ActByZero(r, n - 1, TimesX(r, h));
    }
  }

  lemma {:induction false} ActTimesX(r: seq<bool>, p: seq<bool>, h: seq<bool>)
    requires |h| == |r| > 0
    ensures Act(r, p, TimesX(r, h)) == TimesX(r, Act(r, p, h))
    decreases |p|
  {
    if p == [] {
      TimesXZero(r);
    } else {
      var h' := TimesX(r, h);
      ActTimesX(r, p[1..], h');
      TimesXAdditive(r, Scale(p[0], h), Act(r, p[1..], h'));
      TimesXZero(r);
    }
  }

  /** Horner form: the recursion the firmware's multiply loops follow. */
  lemma ActHorner(r: seq<bool>, p: seq<bool>, h: seq<bool>)
    requires |h| == |r| > 0
    requires p != []
    ensures Act(r, p, h) == Xor(Scale(p[0], h), TimesX(r, Act(r, p[1..], h)))
  {
    ActTimesX(r, p[1..], h);
  }

  lemma {:induction false} ActOfSum(r: seq<bool>, p: seq<bool>, q: seq<bool>, h: seq<bool>)
    requires |h| == |r| > 0
    ensures Act(r, PolyAdd(p, q), h) == Xor(Act(r, p, h), Act(r, q, h))
    decreases |p| + |q|
  {
    if p == [] {
      assert PolyAdd(p, q) == q;
    } else if q == [] {
      assert PolyAdd(p, q) == p;
    } else {
      var h' := TimesX(r, h);
      assert PolyAdd(p, q)[1..] == PolyAdd(p[1..], q[1..]);
      assert PolyAdd(p, q)[0] == (p[0] != q[0]);
      hide TimesX, PolyAdd, Xor, Scale;
      ActOfSum(r, p[1..], q[1..], h');
      ScaledSums(p[0], q[0], h, Act(r, p[1..], h'), Act(r, q[1..], h'));
    }
  }

  lemma ScaledSums(c: bool, d: bool, h: seq<bool>, a: seq<bool>, b: seq<bool>)
    requires |a| == |b| == |h|
    ensures Xor(Scale(c != d, h), Xor(a, b)) == Xor(Xor(Scale(c, h), a), Xor(Scale(d, h), b))
  {
  }

  /** Two actions commute; the ring laws all follow from this. */
  lemma {:induction false} ActCommutes(r: seq<bool>, p: seq<bool>, q: seq<bool>, h: seq<bool>)
    requires |h| == |r| > 0
    ensures Act(r, p, Act(r, q, h)) == Act(r, q, Act(r, p, h))
    decreases |p|
  {
    if p == [] {
      ActZero(r, q);
    } else {
      var rest := Act(r, p[1..], TimesX(r, h));
      ActTimesX(r, q, h);
      ActCommutes(r, p[1..], q, TimesX(r, h));
      ActAdditive(r, q, Scale(p[0], h), rest);
      ActZero(r, q);
    }
  }

  // ── Residues ───────────────────────────────────────────────────────────

  lemma {:induction false} ActMonomial(r: seq<bool>, h: seq<bool>, k: nat)
    requires |h| == |r| > 0
    requires k < |h|
    ensures Act(r, h[k..], Monomial(|r|, k)) == Zero(k) + h[k..]
    decreases |h| - k
  {
    assert h[k..][0] == h[k] && h[k..][1..] == h[k + 1..];
    var m := Monomial(|r|, k);
    if k + 1 < |h| {
      assert TimesX(r, m) == Monomial(|r|, k + 1);
      ActMonomial(r, h, k + 1);
      XorTerm(h, k);
      hide TimesX, Monomial, Xor, Scale, Zero;
    } else {
      assert h[k + 1..] == [];
      assert Act(r, h[k..], m) == Xor(Scale(h[k], m), Zero(|r|));
      LastTerm(h);
    }
  }

  lemma XorTerm(h: seq<bool>, k: nat)
    requires k + 1 < |h|
    ensures Xor(Scale(h[k], Monomial(|h|, k)), Zero(k + 1) + h[k + 1..]) == Zero(k) + h[k..]
  {
  }

  lemma LastTerm(h: seq<bool>)
    requires h != []
    ensures Xor(Scale(h[|h| - 1], Monomial(|h|, |h| - 1)), Zero(|h|)) == Zero(|h| - 1) + h[|h| - 1..]
  {
  }

  /** An element below the modulus degree is its own residue. */
  lemma ResidueOfReduced(r: seq<bool>, h: seq<bool>)
    requires |h| == |r| > 0
    ensures Residue(r, h) == h
  {
    assert One(|r|) == Monomial(|r|, 0);
    assert h[0..] == h;
    ActMonomial(r, h, 0);
  }

  lemma ActIsProductOfResidues(r: seq<bool>, p: seq<bool>, h: seq<bool>)
    requires |h| == |r| > 0
    ensures Act(r, p, h) == Act(r, h, Residue(r, p))
  {
    ResidueOfReduced(r, h);
    ActCommutes(r, p, h, One(|r|));
  }

  lemma {:induction false} ActOfProduct(r: seq<bool>, p: seq<bool>, q: seq<bool>, h: seq<bool>)
    requires |h| == |r| > 0
    ensures Act(r, PolyMul(p, q), h) == Act(r, p, Act(r, q, h))
    decreases |p|
  {
    if p == [] {
    } else {
      var t := PolyMul(p[1..], q);
      ActOfSum(r, if p[0] then q else [], [false] + t, h);
      assert ([false] + t)[1..] == t;
      ActOfProduct(r, p[1..], q, TimesX(r, h));
      ActTimesX(r, q, h);
    }
  }

  /** The modulus itself has residue zero. */
  lemma ResidueOfModulus(r: seq<bool>)
    requires |r| > 0
    ensures Residue(r, Modulus(r)) == Zero(|r|)
  {
    var n := |r|;
    var top := Powers(r, n, One(n));
    assert top == r by { PowerAtDegree(r); }
    assert Act(r, r, One(n)) == r by { ResidueOfReduced(r, r); }
    assert Act(r, r + [true], One(n)) == Xor(r, r) by { SplitLast(r, r, One(n)); }
    assert Xor(r, r) == Zero(n);
  }

  lemma PowerAtDegree(r: seq<bool>)
    requires |r| > 0
    ensures Powers(r, |r|, One(|r|)) == r
  {
    var n := |r|;
    hide TimesX, One, Monomial;
    PowersOfX(r, n - 1);
    TopTimesX(r);
  }

  lemma TopTimesX(r: seq<bool>)
    requires |r| > 0
    ensures TimesX(r, Monomial(|r|, |r| - 1)) == r
  {
  }

  function Powers(r: seq<bool>, k: nat, h: seq<bool>): (w: seq<bool>)
    requires |h| == |r| > 0
    ensures |w| == |h|
  {
    if k == 0 then h else TimesX(r, Powers(r, k - 1, h))
  }

  lemma {:induction false} PowersShift(r: seq<bool>, k: nat, h: seq<bool>)
    requires |h| == |r| > 0
    ensures Powers(r, k, TimesX(r, h)) == TimesX(r, Powers(r, k, h))
  {
    if k == 0 {
    } else {
      PowersShift(r, k - 1, h);
    }
  }

  lemma {:induction false} PowersOfX(r: seq<bool>, k: nat)
    requires k < |r|
    ensures Powers(r, k, One(|r|)) == Monomial(|r|, k)
  {
    if k == 0 {
      assert One(|r|) == Monomial(|r|, 0);
    } else {
      PowersOfX(r, k - 1);
      assert TimesX(r, Monomial(|r|, k - 1)) == Monomial(|r|, k);
    }
  }

  lemma {:induction false} SplitLast(r: seq<bool>, p: seq<bool>, h: seq<bool>)
    requires |h| == |r| > 0
    ensures Act(r, p + [true], h) == Xor(Act(r, p, h), Powers(r, |p|, h))
    decreases |p|
  {
    if p == [] {
      assert (p + [true])[1..] == [];
    } else {
      assert (p + [true])[1..] == p[1..] + [true];
      SplitLast(r, p[1..], TimesX(r, h));
      PowersShift(r, |p| - 1, h);
    }
  }

  // ── The quotient ring ──────────────────────────────────────────────────

  /** Act on two reduced elements is multiplication modulo x^n + r: it is the residue
    * of the plain product, the residue map is additive, and multiples of the modulus vanish. */
  lemma MultiplicationIsModular(r: seq<bool>, x: seq<bool>, y: seq<bool>, m: seq<bool>)
    requires |x| == |y| == |r| > 0
    ensures Act(r, x, y) == Residue(r, PolyMul(x, y))
    ensures Residue(r, PolyAdd(PolyMul(x, y), PolyMul(m, Modulus(r)))) == Act(r, x, y)
  {
    ResidueOfReduced(r, y);
    ActOfProduct(r, x, y, One(|r|));
    ActOfProduct(r, m, Modulus(r), One(|r|));
    ResidueOfModulus(r);
    ActZero(r, m);
    ActOfSum(r, PolyMul(x, y), PolyMul(m, Modulus(r)), One(|r|));
  }

  lemma MultiplicationCommutes(r: seq<bool>, x: seq<bool>, y: seq<bool>)
    requires |x| == |y| == |r| > 0
    ensures Act(r, x, y) == Act(r, y, x)
  {
    ResidueOfReduced(r, x);
    ActIsProductOfResidues(r, x, y);
  }

  lemma MultiplicationAssociates(r: seq<bool>, x: seq<bool>, y: seq<bool>, z: seq<bool>)
    requires |x| == |y| == |z| == |r| > 0
    ensures Act(r, Act(r, x, y), z) == Act(r, x, Act(r, y, z))
  {
    MultiplicationCommutes(r, Act(r, x, y), z);
    ActCommutes(r, z, x, y);
    MultiplicationCommutes(r, z, y);
  }

  lemma MultiplicationDistributes(r: seq<bool>, x: seq<bool>, y: seq<bool>, z: seq<bool>)
    requires |x| == |y| == |z| == |r| > 0
    ensures Act(r, Xor(x, y), z) == Xor(Act(r, x, z), Act(r, y, z))
    ensures Act(r, z, Xor(x, y)) == Xor(Act(r, z, x), Act(r, z, y))
  {
    assert PolyAdd(x, y) == Xor(x, y);
    ActOfSum(r, x, y, z);
    ActAdditive(r, z, x, y);
  }

  lemma XorWithZero(a: seq<bool>)
    ensures Xor(a, Zero(|a|)) == a && Xor(Zero(|a|), a) == a
  {
  }

  /** The monomial x acts as one shift. */
  lemma ActOfX(r: seq<bool>, h: seq<bool>)
    requires |h| == |r| > 1
    ensures Act(r, Monomial(|r|, 1), h) == TimesX(r, h)
  {
    var n := |r|;
    var p, h' := Monomial(n, 1), TimesX(r, h);
    assert p[1..][1..] == Zero(n - 2) && !p[0] && p[1..][0];
    ActByZero(r, n - 2, TimesX(r, h'));
    hide TimesX, Monomial, Zero;
    assert Act(r, p[1..], h') == Xor(h', Zero(n));
    XorWithZero(h');
  }
}
