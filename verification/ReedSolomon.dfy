/** Reed-Solomon error correction over the byte field (ISO/IEC 18004:2015, section 7.5).
  * Polynomials are coefficient sequences, highest power first.
  *
  * The divisor is the product of its linear factors and the register the remainder of the division,
  * both as the in-place loops compute them, for any number of data and check bytes.
  */
module ReedSolomon {
  import opened Words
  import opened Gf256

  function AddPoly(p: seq<u8>, q: seq<u8>): (s: seq<u8>)
    requires |p| == |q|
    ensures |s| == |p|
    ensures forall i :: 0 <= i < |p| ==> s[i] == Add(p[i], q[i])
  {
    seq(|p|, i requires 0 <= i < |p| => Add(p[i], q[i]))
  }

  function ScalePoly(p: seq<u8>, c: u8): (s: seq<u8>)
    ensures |s| == |p|
    ensures forall i :: 0 <= i < |p| ==> s[i] == Mul(p[i], c)
  {
    seq(|p|, i requires 0 <= i < |p| => Mul(p[i], c))
  }

  /** p plus a polynomial s of no higher degree, aligned at x^0. */
  function AddLow(p: seq<u8>, s: seq<u8>): (t: seq<u8>)
    requires |s| <= |p|
    ensures |t| == |p|
  {
    p[..|p| - |s|] + AddPoly(p[|p| - |s|..], s)
  }

  function PolyTimes(q: seq<u8>, g: seq<u8>): (t: seq<u8>)
    requires |g| > 0
    ensures |t| == |q| + |g| - 1
  {
    if q == [] then Zeros(|g| - 1)
    else AddLow(PolyTimes(q[..|q| - 1], g) + [0], ScalePoly(g, q[|q| - 1]))
  }

  // ── Division ──────────────────────────────────────────────────────────────

  /** One step of the shift register. */
  function Step(ec: seq<u8>, divisor: seq<u8>, d: u8): (e: seq<u8>)
    requires |ec| == |divisor| > 0
    ensures |e| == |ec|
  {
    AddPoly(ec[1..] + [0], ScalePoly(divisor, Add(d, ec[0])))
  }

  /** The shift register after all of data. */
  function Remainder(data: seq<u8>, divisor: seq<u8>): (e: seq<u8>)
    requires |divisor| > 0
    ensures |e| == |divisor|
  {
    if data == [] then Zeros(|divisor|)
    else Step(Remainder(data[..|data| - 1], divisor), divisor, data[|data| - 1])
  }

  /** The feedback factors, in order. */
  function Quotient(data: seq<u8>, divisor: seq<u8>): (q: seq<u8>)
    requires |divisor| > 0
    ensures |q| == |data|
  {
    if data == [] then []
    else
      var front := data[..|data| - 1];
      Quotient(front, divisor) + [Add(data[|data| - 1], Remainder(front, divisor)[0])]
  }

  lemma StepIsSubtraction(front: seq<u8>, e: seq<u8>, divisor: seq<u8>, f: u8)
    requires |e| == |divisor| > 0
    ensures AddLow(front + e + [0], ScalePoly([1] + divisor, f))
         == front + [Add(e[0], f)] + AddPoly(e[1..] + [0], ScalePoly(divisor, f))
  {
    hide Add, Mul;
    MulUnits(f);
    var p := front + e + [0];
    var g := ScalePoly([1] + divisor, f);
    assert p[..|p| - |g|] == front && p[|p| - |g|..] == e + [0];
    assert g == [f] + ScalePoly(divisor, f);
    AddPolyHead(e[0], e[1..] + [0], f, ScalePoly(divisor, f));
    assert e + [0] == [e[0]] + (e[1..] + [0]);
    hide AddPoly, ScalePoly;
    var low := AddPoly(e[1..] + [0], ScalePoly(divisor, f));
    assert AddLow(p, g) == front + ([Add(e[0], f)] + low);
  }

  lemma AddPolyHead(a: u8, s: seq<u8>, b: u8, t: seq<u8>)
    requires |s| == |t|
    ensures AddPoly([a] + s, [b] + t) == [Add(a, b)] + AddPoly(s, t)
  {
    hide Add;
  }

  /** data(x) * x^n + register = quotient(x) * g(x), with g monic of degree n:
    * the codeword is a multiple of g. */
  lemma {:induction false} CodewordIsMultiple(data: seq<u8>, divisor: seq<u8>)
    requires |divisor| > 0
    ensures data + Remainder(data, divisor) == PolyTimes(Quotient(data, divisor), [1] + divisor)
    decreases |data|
  {
    hide Add, Mul;
    if data == [] {
    } else {
      var front, d := data[..|data| - 1], data[|data| - 1];
      var e := Remainder(front, divisor);
      var q := Quotient(data, divisor);
      var f := Add(d, e[0]);
      CodewordIsMultiple(front, divisor);
      assert q[..|q| - 1] == Quotient(front, divisor) && q[|q| - 1] == f;
      StepIsSubtraction(front, e, divisor, f);
      FeedbackCancels(d, e[0]);
      assert data == front + [d];
    }
  }

  lemma FeedbackCancels(d: u8, e: u8)
    ensures Add(e, Add(d, e)) == d
  {
    AddLaws(d, e, e);
    AddLaws(e, Add(d, e), 0);
    AddLaws(e, e, e);
  }

  lemma SplitAt(a: seq<u8>, b: u8, c: seq<u8>, x: seq<u8>, y: u8, z: seq<u8>)
    requires |a| == |x| && |c| == |z| && a + [b] + c == x + [y] + z
    ensures a == x && b == y && c == z
  {
    var s, t := a + [b] + c, x + [y] + z;
    assert a == s[..|a|] && b == s[|a|] && c == s[|a| + 1..];
    assert x == t[..|a|] && y == t[|a|] && z == t[|a| + 1..];
  }

  lemma PolyTimesMore(q: seq<u8>, f: u8, g: seq<u8>)
    requires |g| > 0
    ensures PolyTimes(q + [f], g) == AddLow(PolyTimes(q, g) + [0], ScalePoly(g, f))
  {
    assert (q + [f])[..|q|] == q;
    hide AddLow, ScalePoly;
  }

  lemma DividesMore(front: seq<u8>, d: u8, divisor: seq<u8>)
    requires |divisor| > 0
    ensures var e := Remainder(front, divisor);
            && Quotient(front + [d], divisor) == Quotient(front, divisor) + [Add(d, e[0])]
            && Remainder(front + [d], divisor) == AddPoly(e[1..] + [0], ScalePoly(divisor, Add(d, e[0])))
  {
    hide Add, AddPoly, ScalePoly;
    assert (front + [d])[..|front|] == front;
  }

  lemma TakeDrop(p: seq<u8>, n: nat)
    requires n <= |p|
    ensures p + [0] == p[..n] + p[n..] + [0] && p == p[..n] + p[n..]
  {
  }

  /** One division step undone: the leading factor and the register before it. */
  lemma PeelTop(front: seq<u8>, d: u8, ec: seq<u8>, q: seq<u8>, f: u8, divisor: seq<u8>)
    requires |divisor| == |ec| > 0 && |q| == |front|
    requires front + [d] + ec == PolyTimes(q + [f], [1] + divisor)
    ensures var e := PolyTimes(q, [1] + divisor)[|front|..];
            && PolyTimes(q, [1] + divisor) == front + e
            && d == Add(e[0], f)
            && ec == AddPoly(e[1..] + [0], ScalePoly(divisor, f))
  {
    hide *;
    var p := PolyTimes(q, [1] + divisor);
    var n := |front|;
    var e := p[n..];
    PolyTimesMore(q, f, [1] + divisor);
    TakeDrop(p, n);
    StepIsSubtraction(p[..n], e, divisor, f);
    SplitAt(front, d, ec, p[..n], Add(e[0], f), AddPoly(e[1..] + [0], ScalePoly(divisor, f)));
  }

  /** Conversely a multiple of g is the codeword of its leading part: the register holds
    * the one remainder of data(x) * x^n modulo g(x). */
  lemma {:induction false} RemainderIsUnique(data: seq<u8>, ec: seq<u8>, q: seq<u8>, divisor: seq<u8>)
    requires |divisor| == |ec| > 0 && |q| == |data|
    requires data + ec == PolyTimes(q, [1] + divisor)
    ensures q == Quotient(data, divisor)
    ensures ec == Remainder(data, divisor)
    decreases |data|
  {
    if data == [] {
      assert data + ec == ec;
    } else {
      hide *;
      var n := |data| - 1;
      var front, d := data[..n], data[n];
      var q', f := q[..n], q[n];
      assert data == front + [d] && q == q' + [f];
      PeelTop(front, d, ec, q', f, divisor);
      var e := PolyTimes(q', [1] + divisor)[n..];
      RemainderIsUnique(front, e, q', divisor);
      FeedbackRecovered(d, e[0], f);
      DividesMore(front, d, divisor);
    }
  }

  lemma FeedbackRecovered(d: u8, e: u8, f: u8)
    requires d == Add(e, f)
    ensures f == Add(d, e)
  {
    AddLaws(e, f, 0);
    AddLaws(f, e, e);
    AddLaws(e, e, e);
    AddLaws(f, 0, 0);
  }

  // ── Evaluation ────────────────────────────────────────────────────────────

  function Eval(p: seq<u8>, x: u8): u8 {
    if p == [] then 0
    else Add(Mul(Eval(p[..|p| - 1], x), x), p[|p| - 1])
  }

  lemma {:induction false} EvalZeros(n: nat, x: u8)
    ensures Eval(Zeros(n), x) == 0
  {
    if n > 0 {
      assert Zeros(n)[..n - 1] == Zeros(n - 1);
      EvalZeros(n - 1, x);
      MulUnits(x);
      AddLaws(0, 0, 0);
    }
  }

  lemma {:induction false} EvalSum(p: seq<u8>, s: seq<u8>, x: u8)
    requires |s| <= |p|
    ensures Eval(AddLow(p, s), x) == Add(Eval(p, x), Eval(s, x))
    decreases |p|
  {
    hide Add, Mul;
    if s == [] {
      assert AddLow(p, s) == p;
      AddLaws(Eval(p, x), 0, 0);
    } else {
      var t := AddLow(p, s);
      var p', s' := p[..|p| - 1], s[..|s| - 1];
      assert t[..|t| - 1] == AddLow(p', s');
      assert t[|t| - 1] == Add(p[|p| - 1], s[|s| - 1]);
      EvalSum(p', s', x);
      MulDistributes(Eval(p', x), Eval(s', x), x);
      AddSwap(Mul(Eval(p', x), x), Mul(Eval(s', x), x), p[|p| - 1], s[|s| - 1]);
    }
  }

  lemma AddSwap(a: u8, b: u8, c: u8, d: u8)
    ensures Add(Add(a, b), Add(c, d)) == Add(Add(a, c), Add(b, d))
  {
    AddLaws(a, b, Add(c, d));
    AddLaws(b, c, d);
    AddLaws(c, b, d);
    AddLaws(a, c, Add(b, d));
  }

  lemma {:induction false} EvalScaled(p: seq<u8>, c: u8, x: u8)
    ensures Eval(ScalePoly(p, c), x) == Mul(Eval(p, x), c)
  {
    hide Add, Mul;
    if p == [] {
      MulUnits(c);
    } else {
      var p', last := p[..|p| - 1], p[|p| - 1];
      assert ScalePoly(p, c)[..|p| - 1] == ScalePoly(p', c);
      EvalScaled(p', c, x);
      var v := Eval(p', x);
      MulDistributes(Mul(v, x), last, c);
      MulAssociates(v, c, x);
      MulAssociates(v, x, c);
      MulCommutes(c, x);
    }
  }

  lemma {:induction false} EvalProduct(q: seq<u8>, g: seq<u8>, x: u8)
    requires |g| > 0
    ensures Eval(PolyTimes(q, g), x) == Mul(Eval(q, x), Eval(g, x))
    decreases |q|
  {
    hide Add, Mul;
    if q == [] {
      EvalZeros(|g| - 1, x);
      MulUnits(Eval(g, x));
    } else {
      var q', last := q[..|q| - 1], q[|q| - 1];
      var t := PolyTimes(q', g) + [0];
      EvalProduct(q', g, x);
      EvalSum(t, ScalePoly(g, last), x);
      EvalScaled(g, last, x);
      assert t[..|t| - 1] == PolyTimes(q', g);
      var u, v := Eval(q', x), Eval(g, x);
      AddLaws(Mul(Mul(u, v), x), 0, 0);
      MulAssociates(u, v, x);
      MulCommutes(v, x);
      MulAssociates(u, x, v);
      MulCommutes(v, last);
      MulDistributes(Mul(u, x), last, v);
    }
  }

  // ── The generator polynomial ──────────────────────────────────────────────

  /** The primitive element's powers: alpha = 2. */
  function Alpha(i: nat): u8 {
    if i == 0 then 1 else Mul(Alpha(i - 1), 2)
  }

  /** (x + alpha^0)(x + alpha^1)...(x + alpha^(n-1)). */
  function Generator(n: nat): (g: seq<u8>)
    ensures |g| == n + 1
  {
    if n == 0 then [1]
    else AddLow(Generator(n - 1) + [0], ScalePoly(Generator(n - 1), Alpha(n - 1)))
  }

  lemma {:induction false} GeneratorIsMonic(n: nat)
    ensures Generator(n)[0] == 1
  {
    hide Add, Mul;
    if n > 0 {
      GeneratorIsMonic(n - 1);
    }
  }

  lemma EvalGenerator(n: nat, x: u8)
    requires n > 0
    ensures Eval(Generator(n), x) == Mul(Eval(Generator(n - 1), x), Add(x, Alpha(n - 1)))
  {
    hide Add, Mul;
    var g, a := Generator(n - 1), Alpha(n - 1);
    EvalSum(g + [0], ScalePoly(g, a), x);
    EvalScaled(g, a, x);
    assert (g + [0])[..|g|] == g;
    AddLaws(Mul(Eval(g, x), x), 0, 0);
    MulDistributes(x, a, Eval(g, x));
  }

  lemma {:induction false} GeneratorRoots(n: nat, i: nat)
    requires i < n
    ensures Eval(Generator(n), Alpha(i)) == 0
  {
    hide Add, Mul, Eval, Generator;
    EvalGenerator(n, Alpha(i));
    if i < n - 1 {
      GeneratorRoots(n - 1, i);
      MulUnits(Add(Alpha(i), Alpha(n - 1)));
    } else {
      AddLaws(Alpha(i), 0, 0);
      MulUnits(Eval(Generator(n - 1), Alpha(i)));
    }
  }

  /** Every codeword vanishes at alpha^0 .. alpha^(n-1). */
  lemma CodewordRoots(data: seq<u8>, n: nat, i: nat)
    requires i < n
    ensures Eval(data + Remainder(data, Generator(n)[1..]), Alpha(i)) == 0
  {
    var divisor := Generator(n)[1..];
    GeneratorIsMonic(n);
    assert [1] + divisor == Generator(n);
    CodewordIsMultiple(data, divisor);
    EvalProduct(Quotient(data, divisor), Generator(n), Alpha(i));
    GeneratorRoots(n, i);
    MulUnits(Eval(Quotient(data, divisor), Alpha(i)));
  }

  // ── The loops ─────────────────────────────────────────────────────────────

  /** One pass of the divisor loop: multiply by (x + root) within a fixed width. */
  function TimesRoot(d: seq<u8>, root: u8): (e: seq<u8>)
    ensures |e| == |d|
  {
    seq(|d|, j requires 0 <= j < |d| =>
      if j + 1 < |d| then Add(Mul(d[j], root), d[j + 1]) else Mul(d[j], root))
  }

  /** The low n coefficients of a polynomial, zero-extended on the left. */
  function LowPart(n: nat, p: seq<u8>): (s: seq<u8>)
    ensures |s| == n
  {
    (Zeros(n) + p)[|p|..]
  }

  lemma LowPartAt(n: nat, p: seq<u8>, j: nat)
    requires j < n
    ensures LowPart(n, p)[j] == if n - j <= |p| then p[|p| - (n - j)] else 0
  {
  }

  lemma GeneratorAt(k: nat, i: nat)
    requires i <= k + 1
    ensures Generator(k + 1)[i] ==
            Add(if i <= k then Generator(k)[i] else 0, if i > 0 then Mul(Generator(k)[i - 1], Alpha(k)) else 0)
  {
    var g, a := Generator(k), Alpha(k);
    assert Generator(k + 1) == AddLow(g + [0], ScalePoly(g, a));
    hide Add, Mul, Generator, Alpha, AddLow, ScalePoly;
    AddLowAt(g + [0], ScalePoly(g, a), i);
    if i == 0 {
      AddLaws(g[0], 0, 0);
    }
  }

  lemma AddLowAt(p: seq<u8>, s: seq<u8>, i: nat)
    requires |s| <= |p| && i < |p|
    ensures AddLow(p, s)[i] == if i < |p| - |s| then p[i] else Add(p[i], s[i - (|p| - |s|)])
  {
    hide Add;
    if i >= |p| - |s| {
      assert p[|p| - |s|..][i - (|p| - |s|)] == p[i];
    }
  }

  lemma TimesRootCell(n: nat, k: nat, j: nat)
    requires k < n && j < n
    ensures TimesRoot(LowPart(n, Generator(k)), Alpha(k))[j] == LowPart(n, Generator(k + 1))[j]
  {
    hide Add, Mul, LowPart, Generator, Alpha;
    var a := Alpha(k);
    LowPartAt(n, Generator(k), j);
    LowPartAt(n, Generator(k + 1), j);
    var here := if n - j <= k + 1 then Generator(k)[k + 1 - (n - j)] else 0;
    var right := if n - j - 1 <= k + 1 && j + 1 < n then Generator(k)[k + 1 - (n - j - 1)] else 0;
    if j + 1 < n {
      LowPartAt(n, Generator(k), j + 1);
    }
    MulUnits(a);
    AddLaws(Mul(here, a), right, 0);
    AddLaws(0, 0, 0);
    if n - j <= k + 2 {
      GeneratorAt(k, k + 2 - (n - j));
    }
  }

  lemma TimesRootGrowsGenerator(n: nat, k: nat)
    requires k < n
    ensures TimesRoot(LowPart(n, Generator(k)), Alpha(k)) == LowPart(n, Generator(k + 1))
  {
    hide TimesRoot, LowPart, Generator;
    forall j | 0 <= j < n
      ensures TimesRoot(LowPart(n, Generator(k)), Alpha(k))[j] == LowPart(n, Generator(k + 1))[j]
    {
      TimesRootCell(n, k, j);
    }
  }

  method BuildDivisor(divisor: array<u8>)
    requires divisor.Length > 0
    modifies divisor
    ensures divisor[..] == Generator(divisor.Length)[1..]
  {
    hide Add, Mul;
    var n := divisor.Length;
    for i := 0 to n
      invariant forall k :: 0 <= k < i ==> divisor[k] == 0
    {
      divisor[i] := 0;
    }
    divisor[n - 1] := 1;
    LowPartStart(divisor[..]);
    var root: u8 := 1;
    assert root == Alpha(0);
    hide Generator, LowPart;
    for i := 0 to n
      invariant root == Alpha(i)
      invariant divisor[..] == LowPart(n, Generator(i))
    {
      MultiplyInRoot(divisor, root);
      TimesRootGrowsGenerator(n, i);
      root := RsMul(root, 2);
    }
    LowPartEnd(n);
  }

  lemma LowPartStart(d: seq<u8>)
    requires |d| > 0 && d[|d| - 1] == 1
    requires forall k :: 0 <= k < |d| - 1 ==> d[k] == 0
    ensures d == LowPart(|d|, Generator(0))
  {
    forall j | 0 <= j < |d|
      ensures d[j] == LowPart(|d|, Generator(0))[j]
    {
      LowPartAt(|d|, [1], j);
    }
  }

  lemma LowPartEnd(n: nat)
    ensures LowPart(n, Generator(n)) == Generator(n)[1..]
  {
    hide Generator;
  }

  method MultiplyInRoot(divisor: array<u8>, root: u8)
    modifies divisor
    ensures divisor[..] == TimesRoot(old(divisor[..]), root)
  {
    hide Add, Mul;
    var n := divisor.Length;
    for j := 0 to n
      invariant forall k :: 0 <= k < j ==> divisor[k] == TimesRoot(old(divisor[..]), root)[k]
      invariant forall k :: j <= k < n ==> divisor[k] == old(divisor[k])
    {
      var m := RsMul(divisor[j], root);
      if j + 1 < n {
        m := Add(m, divisor[j + 1]);
      }
      divisor[j] := m;
    }
  }

  /** The error-correction loop. */
  method ComputeRemainder(data: array<u8>, divisor: array<u8>, ec: array<u8>)
    requires ec.Length == divisor.Length > 0
    requires ec != data && ec != divisor
    modifies ec
    ensures ec[..] == Remainder(data[..], divisor[..])
  {
    for i := 0 to ec.Length
      invariant forall k :: 0 <= k < i ==> ec[k] == 0
    {
      ec[i] := 0;
    }
    assert data[..0] == [];
    for i := 0 to data.Length
      invariant ec[..] == Remainder(data[..i], divisor[..])
    {
      assert data[..i + 1][..i] == data[..i];
      ShiftRegister(divisor, ec, data[i]);
    }
    assert data[..data.Length] == data[..];
  }

  method ShiftRegister(divisor: array<u8>, ec: array<u8>, d: u8)
    requires ec.Length == divisor.Length > 0
    requires ec != divisor
    modifies ec
    ensures ec[..] == Step(old(ec[..]), divisor[..], d)
  {
    hide Add, Mul;
    var n := ec.Length;
    var factor := Add(d, ec[0]);
    for j := 0 to n - 1
      invariant forall k :: 0 <= k < j ==> ec[k] == old(ec[k + 1])
      invariant forall k :: j <= k < n ==> ec[k] == old(ec[k])
    {
      ec[j] := ec[j + 1];
    }
    ec[n - 1] := 0;
    ghost var shifted := old(ec[..])[1..] + [0];
    assert forall k :: 0 <= k < n ==> ec[k] == shifted[k];
    for j := 0 to n
      invariant forall k :: 0 <= k < j ==> ec[k] == Add(shifted[k], Mul(divisor[k], factor))
      invariant forall k :: j <= k < n ==> ec[k] == shifted[k]
    {
      var m := RsMul(divisor[j], factor);
      ec[j] := Add(ec[j], m);
    }
  }
}
