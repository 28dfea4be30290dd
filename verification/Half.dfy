// Half-precision storage of embeddings.  Words are taken as numbers: a right shift is
// a division, a mask a remainder, and joining disjoint bit fields an addition.

module Half {

  type word32 = x: int | 0 <= x < 0x1_0000_0000
  type word16 = x: int | 0 <= x < 0x1_0000

  // The fields of a binary32 word (section 3.4 of IEEE 754-2019).
  function Sign32(x: word32): nat { x / 0x8000_0000 }
  function Exp32(x: word32): nat { x / 0x80_0000 % 256 }
  function Frac32(x: word32): nat { x % 0x80_0000 }

  function Word32(sign: nat, exp: nat, frac: nat): (x: word32)
    requires sign < 2 && exp < 256 && frac < 0x80_0000
    ensures Sign32(x) == sign && Exp32(x) == exp && Frac32(x) == frac
  {
    var x := sign * 0x8000_0000 + exp * 0x80_0000 + frac;
    assert x / 0x80_0000 == sign * 256 + exp;
    x
  }

  // The fields of a binary16 word.
  function Sign16(h: word16): nat { h / 0x8000 }
  function Exp16(h: word16): nat { h / 0x400 % 32 }
  function Frac16(h: word16): nat { h % 0x400 }

  function Word16(sign: nat, exp: nat, frac: nat): (h: word16)
    requires sign < 2 && exp < 32 && frac < 0x400
    ensures Sign16(h) == sign && Exp16(h) == exp && Frac16(h) == frac
  {
    var h := sign * 0x8000 + exp * 0x400 + frac;
    assert h / 0x400 == sign * 32 + exp;
    h
  }

  // float_to_f16.
  function FloatToF16(x: word32): word16 {
    var exp := Exp32(x) - 127 + 15;
    if exp <= 0 then Word16(Sign32(x), 0, 0)
    else if exp >= 31 then Word16(Sign32(x), 31, 0)
    else Word16(Sign32(x), exp, Frac32(x) / 0x2000)
  }

  // f16_to_float.
  function F16ToFloat(h: word16): word32 {
    if Exp16(h) == 0 then Word32(Sign16(h), 0, 0)
    else
      var exp := if Exp16(h) == 31 then 255 else Exp16(h) - 15 + 127;
      Word32(Sign16(h), exp, Frac16(h) * 0x2000)
  }

  // The value that comes back after storing x as a half.
  function Back(x: word32): word32 {
    F16ToFloat(FloatToF16(x))
  }

  // A half survives the trip through a float exactly when it is neither a nonzero
  // subnormal nor a NaN.
  lemma HalfRoundTripIff(h: word16)
    ensures FloatToF16(F16ToFloat(h)) == h <==> (Exp16(h) == 0 || Exp16(h) == 31 ==> Frac16(h) == 0)
  {
    assert h == Sign16(h) * 0x8000 + Exp16(h) * 0x400 + Frac16(h);
    assert Frac16(h) * 0x2000 / 0x2000 == Frac16(h);
  }

  lemma FloatToF16IsClean(x: word32)
    ensures var h := FloatToF16(x); Exp16(h) == 0 || Exp16(h) == 31 ==> Frac16(h) == 0
  {
  }

  // Storing again changes nothing, for every word, infinities and NaNs included.
  lemma BackTwice(x: word32)
    ensures Back(Back(x)) == Back(x)
  {
    FloatToF16IsClean(x);
    HalfRoundTripIff(FloatToF16(x));
  }

  // m times two to the power e.
  ghost function Scale(m: real, e: int): real
    decreases if e < 0 then -e else e
  {
    if e == 0 then m else if e > 0 then 2.0 * Scale(m, e - 1) else Scale(m, e + 1) / 2.0
  }

  ghost function Pow2(e: int): real {
    Scale(1.0, e)
  }

  lemma ScaleNext(m: real, e: int)
    ensures Scale(m, e + 1) == 2.0 * Scale(m, e)
  {
  }

  lemma {:induction false} ScaleTwice(m: real, a: int, b: int)
    ensures Scale(Scale(m, a), b) == Scale(m, a + b)
    decreases if b < 0 then -b else b
  {
    if b > 0 {
      ScaleTwice(m, a, b - 1);
      ScaleNext(m, a + b - 1);
    } else if b < 0 {
      ScaleTwice(m, a, b + 1);
      ScaleNext(m, a + b);
    }
  }

  lemma {:induction false} ScaleMinus(m: real, n: real, e: int)
    ensures Scale(m - n, e) == Scale(m, e) - Scale(n, e)
    decreases if e < 0 then -e else e
  {
    if e > 0 {
      ScaleMinus(m, n, e - 1);
    } else if e < 0 {
      ScaleMinus(m, n, e + 1);
    }
  }

  lemma {:induction false} ScaleSign(m: real, e: int)
    ensures m > 0.0 ==> Scale(m, e) > 0.0
    ensures m == 0.0 ==> Scale(m, e) == 0.0
    decreases if e < 0 then -e else e
  {
    if e > 0 {
      ScaleSign(m, e - 1);
    } else if e < 0 {
      ScaleSign(m, e + 1);
    }
  }

  lemma ScaleMonotone(m: real, n: real, e: int)
    ensures m < n ==> Scale(m, e) < Scale(n, e)
    ensures m <= n ==> Scale(m, e) <= Scale(n, e)
  {
    hide Scale;
    ScaleMinus(n, m, e);
    ScaleSign(n - m, e);
  }

  lemma {:induction false} Pow2Monotone(a: int, b: int)
    requires a <= b
    ensures Pow2(a) <= Pow2(b)
    decreases b - a
  {
    hide Scale;
    if a < b {
      ScaleNext(1.0, a);
      ScaleSign(1.0, a);
      Pow2Monotone(a + 1, b);
    }
  }

  predicate Finite(x: word32) { Exp32(x) != 255 }

  ghost function Fraction(frac: nat): real {
    frac as real / 8388608.0
  }

  ghost function Magnitude(exp: nat, frac: nat): real
    requires exp < 255 && frac < 0x80_0000
  {
    if exp == 0 then Scale(Fraction(frac), -126) else Scale(1.0 + Fraction(frac), exp - 127)
  }

  // The real number a finite word stands for.
  ghost function Value(x: word32): real
    requires Finite(x)
  {
    if Sign32(x) == 0 then Magnitude(Exp32(x), Frac32(x)) else -Magnitude(Exp32(x), Frac32(x))
  }

  ghost function Abs(r: real): real { if r < 0.0 then -r else r }

  lemma MagnitudeBounds(exp: nat, frac: nat)
    requires exp < 255 && frac < 0x80_0000
    ensures 0.0 <= Magnitude(exp, frac)
    ensures exp > 0 ==> Pow2(exp - 127) <= Magnitude(exp, frac)
    ensures Magnitude(exp, frac) < Pow2((if exp == 0 then 1 else exp) - 126)
  {
    hide Scale;
    var e: int := if exp == 0 then 1 else exp;
    var m := if exp == 0 then Fraction(frac) else 1.0 + Fraction(frac);
    ScaleTwice(1.0, 1, e - 127);
    Doubled();
    ScaleMonotone(m, 2.0, e - 127);
    ScaleMonotone(m, 1.0, e - 127);
    ScaleMonotone(1.0, m, e - 127);
    ScaleMonotone(0.0, m, e - 127);
    ScaleSign(0.0, e - 127);
  }

  lemma Doubled()
    ensures Scale(1.0, 1) == 2.0
  {
    assert Scale(1.0, 0) == 1.0;
  }

  // Which words are in the range where halves keep their relative precision.
  lemma NormalRangeIff(x: word32)
    requires Finite(x)
    ensures Abs(Value(x)) >= Pow2(-14) <==> Exp32(x) >= 113
    ensures Abs(Value(x)) < Pow2(16) <==> Exp32(x) <= 142
  {
    hide Pow2, Magnitude;
    var e: int := Exp32(x);
    MagnitudeBounds(e, Frac32(x));
    if e >= 113 { Pow2Monotone(-14, e - 127); } else { Pow2Monotone((if e == 0 then 1 else e) - 126, -14); }
    if e <= 142 { Pow2Monotone((if e == 0 then 1 else e) - 126, 16); } else { Pow2Monotone(16, e - 127); }
  }

  // In the normal range of halves a value is cut toward zero, losing less than 2^-10 of itself.
  lemma TruncatedTowardZero(x: word32)
    requires Finite(x) && Pow2(-14) <= Abs(Value(x)) < Pow2(16)
    ensures Finite(Back(x)) && Sign32(Back(x)) == Sign32(x)
    ensures Pow2(-14) <= Abs(Value(Back(x))) <= Abs(Value(x))
    ensures Abs(Value(x)) - Abs(Value(Back(x))) < Scale(Abs(Value(x)), -10)
    ensures Abs(Value(x) - Value(Back(x))) == Abs(Value(x)) - Abs(Value(Back(x)))
  {
    hide Scale, Pow2, FloatToF16, F16ToFloat, Back, Magnitude;
    NormalRangeIff(x);
    BackFields(x);
    var y := Back(x);
    var e, f := Exp32(x), Frac32(x);
    var g := f / 0x2000 * 0x2000;
    MagnitudeBounds(e, f);
    MagnitudeBounds(e, g);
    NormalRangeIff(y);
    CutMagnitude(e, f, g);
  }

  lemma CutMagnitude(e: nat, f: nat, g: nat)
    requires 0 < e < 255 && g <= f < g + 0x2000 && f < 0x80_0000
    ensures 0.0 <= Magnitude(e, f) - Magnitude(e, g) < Scale(Magnitude(e, f), -10)
  {
    hide Scale;
    var d := Fraction(f) - Fraction(g);
    Tenth();
    ScaleMinus(1.0 + Fraction(f), 1.0 + Fraction(g), e - 127);
    ScaleSign(0.0, e - 127);
    ScaleMonotone(0.0, d, e - 127);
    ScaleMonotone(d, Scale(1.0, -10), e - 127);
    ScaleTwice(1.0, -10, e - 127);
    ScaleTwice(1.0, e - 127, -10);
    ScaleMonotone(1.0, 1.0 + Fraction(f), e - 127);
    ScaleMonotone(Scale(1.0, e - 127), Magnitude(e, f), -10);
  }

  lemma Tenth()
    ensures Scale(1.0, -10) == 0.0009765625
  {
    assert Scale(1.0, -2) == 0.25;
    assert Scale(1.0, -4) == 0.0625;
    assert Scale(1.0, -6) == 0.015625;
    assert Scale(1.0, -8) == 0.00390625;
  }

  // Below it a value becomes a zero of the same sign.
  lemma FlushedToZero(x: word32)
    requires Finite(x) && Abs(Value(x)) < Pow2(-14)
    ensures Finite(Back(x)) && Value(Back(x)) == 0.0 && Sign32(Back(x)) == Sign32(x)
  {
    hide Scale, Pow2, FloatToF16, F16ToFloat, Back;
    NormalRangeIff(x);
    BackFields(x);
    ScaleSign(0.0, -126);
  }

  // Storing by fields: flushed, cut to ten fraction bits, or infinite.
  lemma BackFields(x: word32)
    ensures Sign32(Back(x)) == Sign32(x)
    ensures Exp32(x) < 113 ==> Exp32(Back(x)) == 0 && Frac32(Back(x)) == 0
    ensures 113 <= Exp32(x) <= 142 ==> Exp32(Back(x)) == Exp32(x) && Frac32(Back(x)) == Frac32(x) / 0x2000 * 0x2000
    ensures Exp32(x) >= 143 ==> Exp32(Back(x)) == 255 && Frac32(Back(x)) == 0
  {
  }

  // From 2^16 on it becomes infinite.
  lemma Overflows(x: word32)
    requires Finite(x) && Abs(Value(x)) >= Pow2(16)
    ensures !Finite(Back(x)) && Frac32(Back(x)) == 0 && Sign32(Back(x)) == Sign32(x)
  {
    hide Scale, Pow2, FloatToF16, F16ToFloat, Back, Magnitude;
    NormalRangeIff(x);
    BackFields(x);
  }

  ghost function Max(a: real, b: real): real { if a < b then b else a }

  lemma StoredError(x: word32)
    requires Finite(x) && Abs(Value(x)) < Pow2(16)
    ensures Finite(Back(x)) && Abs(Value(x) - Value(Back(x))) <= Tolerance(x)
  {
    hide Scale, Pow2, FloatToF16, F16ToFloat, Back, Magnitude, Sign32, Exp32;
    if Abs(Value(x)) < Pow2(-14) {
      FlushedToZero(x);
    } else {
      TruncatedTowardZero(x);
    }
  }

  ghost predicate InRange(v: seq<word32>) {
    forall i :: 0 <= i < |v| ==> Finite(v[i]) && Abs(Value(v[i])) < Pow2(16)
  }

  ghost predicate AllFinite(v: seq<word32>) {
    forall i :: 0 <= i < |v| ==> Finite(v[i])
  }

  // A product of two reals, named so that it can be reasoned about without its arithmetic.
  ghost function Times(a: real, b: real): real { a * b }

  ghost function Dot(q: seq<real>, v: seq<word32>): real
    requires |q| == |v| && AllFinite(v)
  {
    if q == [] then 0.0 else Times(q[0], Value(v[0])) + Dot(q[1..], v[1..])
  }

  ghost function ErrorBound(q: seq<real>, v: seq<word32>): real
    requires |q| == |v| && AllFinite(v)
  {
    if q == [] then 0.0
    else Times(Abs(q[0]), Tolerance(v[0])) + ErrorBound(q[1..], v[1..])
  }

  function BackAll(v: seq<word32>): seq<word32> {
    seq(|v|, i requires 0 <= i < |v| => Back(v[i]))
  }

  // How far storing may move a component.
  ghost function Tolerance(x: word32): real
    requires Finite(x)
  {
    Max(Scale(Abs(Value(x)), -10), Pow2(-14))
  }

  // No dot product moves by more than its components' rounding allows.
  lemma {:induction false} DotMovesLittle(q: seq<real>, v: seq<word32>)
    requires |q| == |v| && InRange(v)
    ensures AllFinite(BackAll(v)) && Abs(Dot(q, v) - Dot(q, BackAll(v))) <= ErrorBound(q, v)
  {
    hide Pow2, Back, Value, Finite, Tolerance, Times;
    forall i | 0 <= i < |v| ensures Finite(BackAll(v)[i]) {
      StoredError(v[i]);
    }
    if q != [] {
      DotMovesLittle(q[1..], v[1..]);
      assert BackAll(v)[1..] == BackAll(v[1..]);
      StoredError(v[0]);
      ScaledError(q[0], Value(v[0]), Value(Back(v[0])), Tolerance(v[0]));
    }
  }

  lemma Product(a: real, b: real)
    requires a >= 0.0 && b >= 0.0
    ensures a * b >= 0.0
  {
  }

  lemma ScaledError(q: real, a: real, b: real, m: real)
    requires Abs(a - b) <= m
    ensures Abs(Times(q, a) - Times(q, b)) <= Times(Abs(q), m)
  {
    var r := Abs(q);
    Product(r, m - (a - b));
    Product(r, m + (a - b));
    assert r * (m - (a - b)) == r * m - (r * a - r * b);
    assert r * (m + (a - b)) == r * m + (r * a - r * b);
  }

  datatype Precision = F32 | F16

  // A blob says nothing of what it holds: it is read as units of two bytes, the lower first.
  datatype Blob = Null | Units(u: seq<word16>)

  // The two units of a float, low half first.
  function Pairs(v: seq<word32>): (u: seq<word16>)
    ensures |u| == 2 * |v|
  {
    seq(2 * |v|, k requires 0 <= k < 2 * |v| => if k % 2 == 0 then v[k / 2] % 0x1_0000 else v[k / 2] / 0x1_0000)
  }

  function Glue(low: word16, high: word16): word32 {
    high * 0x1_0000 + low
  }

  // As many floats as a string of units holds.
  function Glued(u: seq<word16>): (v: seq<word32>)
    ensures |v| == |u| / 2
  {
    seq(|u| / 2, i requires 0 <= i < |u| / 2 => Glue(u[2 * i], u[2 * i + 1]))
  }

  lemma GlueHalves(x: word32)
    ensures Glue(x % 0x1_0000, x / 0x1_0000) == x
  {
  }

  lemma PairAt(v: seq<word32>, i: nat)
    requires i < |v|
    ensures Pairs(v)[2 * i] == v[i] % 0x1_0000 && Pairs(v)[2 * i + 1] == v[i] / 0x1_0000
  {
    assert 2 * i / 2 == i && (2 * i + 1) / 2 == i && 2 * i % 2 == 0 && (2 * i + 1) % 2 == 1;
  }

  lemma GluedPairs(v: seq<word32>)
    ensures Glued(Pairs(v)) == v
  {
    hide Pairs, Glue;
    forall i | 0 <= i < |v| ensures Glued(Pairs(v))[i] == v[i] {
      PairAt(v, i);
      GlueHalves(v[i]);
    }
  }

  function Halved(v: seq<word32>): (u: seq<word16>)
    ensures |u| == |v|
  {
    seq(|v|, i requires 0 <= i < |v| => FloatToF16(v[i]))
  }

  // The first dim floats, zero where there are too few.
  function Padded(v: seq<word32>, dim: nat): seq<word32> {
    seq(dim, i requires 0 <= i => if i < |v| then v[i] else 0)
  }

  // What save_index binds for an embedding: a vector shorter than dim is not stored.
  ghost function Stored(v: seq<word32>, dim: nat, p: Precision): Blob {
    if dim == 0 || |v| < dim then Null else if p == F16 then Units(Halved(v[..dim])) else Units(Pairs(v[..dim]))
  }

  function Widened(u: seq<word16>): (v: seq<word32>)
    ensures |v| == |u|
  {
    seq(|u|, i requires 0 <= i < |u| => F16ToFloat(u[i]))
  }

  // What load_index makes of it, by the precision then stored beside it: dim components, those
  // without stored data being zero.
  ghost function Loaded(b: Blob, dim: nat, p: Precision): seq<word32> {
    if dim == 0 || b == Null || b.u == [] then []
    else Padded(if p == F16 then Widened(b.u) else Glued(b.u), dim)
  }

  method Save(v: seq<word32>, dim: nat, p: Precision) returns (b: Blob)
    ensures b == Stored(v, dim, p)
  {
    hide FloatToF16, Pairs;
    if dim > 0 && |v| >= dim {
      if p == F16 {
        var half := new word16[dim](_ => 0);
        for i := 0 to dim
          invariant forall k :: 0 <= k < i ==> half[k] == FloatToF16(v[k])
        {
          half[i] := FloatToF16(v[i]);
        }
        assert half[..] == Halved(v[..dim]);
        b := Units(half[..]);
      } else {
        b := Units(Pairs(v[..dim]));
      }
    } else {
      b := Null;
    }
  }

  method Load(b: Blob, dim: nat, p: Precision) returns (v: seq<word32>)
    ensures v == Loaded(b, dim, p)
  {
    hide F16ToFloat, Glue;
    v := [];
    if dim > 0 && b.Units? && b.u != [] {
      if p == F16 {
        var out := new word32[dim](_ => 0);
        var i := 0;
        while i < dim && i < |b.u|
          invariant 0 <= i <= dim && i <= |b.u|
          invariant forall k :: 0 <= k < i ==> out[k] == F16ToFloat(b.u[k])
          invariant forall k :: i <= k < dim ==> out[k] == 0
        {
          out[i] := F16ToFloat(b.u[i]);
          i := i + 1;
        }
        v := out[..];
      } else {
        var f := Glued(b.u);
        var n := if dim < |f| then dim else |f|;
        v := f[..n] + seq(dim - n, _ => 0);
      }
    }
  }

  ghost function Trips(v: seq<word32>, dim: nat, p: Precision, n: nat): seq<word32> {
    if n == 0 then v else Loaded(Stored(Trips(v, dim, p, n - 1), dim, p), dim, p)
  }

  // What one trip leaves of a vector: nothing if it is too short, otherwise its first
  // dim components, under F16 each as its half gives it back.
  ghost function Kept(v: seq<word32>, dim: nat, p: Precision): seq<word32> {
    if dim == 0 || |v| < dim then [] else if p == F16 then BackAll(v[..dim]) else v[..dim]
  }

  lemma OneTrip(v: seq<word32>, dim: nat, p: Precision)
    ensures Loaded(Stored(v, dim, p), dim, p) == Kept(v, dim, p)
  {
    hide FloatToF16, F16ToFloat, Pairs, Glued;
    if dim > 0 && |v| >= dim {
      GluedPairs(v[..dim]);
    }
  }

  // Halves read as floats, which happens to a blob kept while the precision beside it changes:
  // each float is made of two of them, and half of the components are lost.
  lemma HalvesMisread(v: seq<word32>, dim: nat, i: nat)
    requires i < dim <= |v|
    ensures var w := Loaded(Stored(v, dim, F16), dim, F32);
            |w| == dim && w[i] == if i < dim / 2 then Glue(FloatToF16(v[2 * i]), FloatToF16(v[2 * i + 1])) else 0
  {
    hide FloatToF16, Glue;
  }

  // Floats read as halves: each component is one unit of a float taken for a half.
  lemma FloatsMisread(v: seq<word32>, dim: nat, i: nat)
    requires i < dim <= |v|
    ensures var w := Loaded(Stored(v, dim, F32), dim, F16);
            |w| == dim && w[i] == F16ToFloat(if i % 2 == 0 then v[i / 2] % 0x1_0000 else v[i / 2] / 0x1_0000)
  {
    hide F16ToFloat;
  }

  // Saving and loading any number of times is saving and loading once.
  lemma {:induction false} ManyTripsAreOne(v: seq<word32>, dim: nat, p: Precision, n: nat)
    requires n >= 1
    ensures Trips(v, dim, p, n) == Kept(v, dim, p)
  {
    hide Back, FloatToF16, F16ToFloat, Loaded, Stored;
    if n == 1 {
      assert Trips(v, dim, p, 0) == v;
      OneTrip(v, dim, p);
    } else {
      ManyTripsAreOne(v, dim, p, n - 1);
      OneTrip(Kept(v, dim, p), dim, p);
      KeptTwice(v, dim, p);
    }
  }

  lemma KeptTwice(v: seq<word32>, dim: nat, p: Precision)
    ensures Kept(Kept(v, dim, p), dim, p) == Kept(v, dim, p)
  {
    hide Back;
    if dim > 0 && |v| >= dim && p == F16 {
      var w := BackAll(v[..dim]);
      assert w[..dim] == w;
      forall i | 0 <= i < dim ensures BackAll(w)[i] == w[i] {
        BackTwice(v[i]);
      }
      assert BackAll(w) == w;
    }
  }

  // ---- what F16 loses ----

  // A zero, an infinity, or a normal half whose fraction has no more than ten bits.
  predicate Exact(x: word32) {
    || (113 <= Exp32(x) <= 142 && Frac32(x) % 0x2000 == 0)
    || ((Exp32(x) == 0 || Exp32(x) == 255) && Frac32(x) == 0)
  }

  // A word comes back as it was exactly when it is one of these.
  lemma BackExactIff(x: word32)
    ensures Back(x) == x <==> Exact(x)
  {
    hide Back, Sign32, Exp32, Frac32;
    BackFields(x);
    FieldsTell(x, Back(x));
  }

  lemma FieldsTell(x: word32, y: word32)
    ensures x == y <==> Sign32(x) == Sign32(y) && Exp32(x) == Exp32(y) && Frac32(x) == Frac32(y)
    ensures Exp32(x) < 256 && Frac32(x) < 0x80_0000
  {
    assert x == Sign32(x) * 0x8000_0000 + Exp32(x) * 0x80_0000 + Frac32(x);
    assert y == Sign32(y) * 0x8000_0000 + Exp32(y) * 0x80_0000 + Frac32(y);
  }

  ghost predicate AllExact(v: seq<word32>) {
    forall i :: 0 <= i < |v| ==> Exact(v[i])
  }

  // A vector survives storage exactly when it has dim components, or none, and under F16
  // each of them is exact.
  lemma SurvivesIff(v: seq<word32>, dim: nat, p: Precision)
    ensures Loaded(Stored(v, dim, p), dim, p) == v <==> v == [] || (|v| == dim && (p == F16 ==> AllExact(v)))
  {
    hide Back, Exact, Stored, Loaded;
    OneTrip(v, dim, p);
    if |v| == dim {
      assert v[..dim] == v;
      forall i | 0 <= i < dim ensures BackAll(v)[i] == v[i] <==> Exact(v[i]) {
        BackExactIff(v[i]);
      }
      assert AllExact(v) ==> BackAll(v) == v;
    }
  }

  // The float next above 1.0 is not stored exactly: F16 does lose precision.
  lemma F16LosesPrecision()
    ensures !Exact(0x3F80_0001) && Loaded(Stored([0x3F80_0001], 1, F16), 1, F16) != [0x3F80_0001]
  {
    var v: seq<word32> := [0x3F80_0001];
    SurvivesIff(v, 1, F16);
    assert !Exact(v[0]);
  }
}
