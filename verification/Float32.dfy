/** IEEE-754 binary32 values as their bit patterns, with the exact comparison order, the two
    argmax loops of the repository, and the raw little-endian layout of a logit file. */
module Float32 {
  import opened Machine

  /** A binary32 value is its 32-bit pattern. */
  type F32 = U32

  const POS_INF: F32 := 0x7F80_0000
  const NEG_INF: F32 := 0xFF80_0000

  function Exponent(x: F32): nat {
    (x / 0x80_0000) % 256
  }

  predicate IsFinite(x: F32) {
    Exponent(x) != 255
  }

  predicate IsNaN(x: F32) {
    Exponent(x) == 255 && x % 0x80_0000 != 0
  }

  /** Position of a non-NaN value on the number line; both zeros are at 0. */
  function Key(x: F32): int {
    if x < TWO_31 then x else TWO_31 - x
  }

  /** `a > b` */
  predicate Greater(a: F32, b: F32) {
    !IsNaN(a) && !IsNaN(b) && Key(a) > Key(b)
  }

  /** `a == b` */
  predicate Equal(a: F32, b: F32) {
    !IsNaN(a) && !IsNaN(b) && Key(a) == Key(b)
  }

  /** Every value is finite, an infinity or a NaN, and the infinities bracket the finite ones. */
  lemma Trichotomy(x: F32)
    ensures IsFinite(x) || IsNaN(x) || x == POS_INF || x == NEG_INF
    ensures IsFinite(x) ==> !IsNaN(x) && Key(NEG_INF) < Key(x) < Key(POS_INF)
    ensures !IsFinite(POS_INF) && !IsNaN(POS_INF) && !IsFinite(NEG_INF) && !IsNaN(NEG_INF)
  {
    var high, low := x / 0x80_0000, x % 0x80_0000;
    assert x == high * 0x80_0000 + low;
    assert high < 512;
  }

  // ---------------------------------------------------------------- the order is that of the values

  function Pow2(n: nat): (p: nat)
    ensures p > 0
  {
    if n == 0 then 1 else 2 * Pow2(n - 1)
  }

  /** The magnitude of a finite value in units of 2^-149: the fraction of a subnormal number, or
      the fraction with its hidden bit, scaled by the exponent. */
  function Magnitude(x: F32): nat {
    var fraction := x % 0x80_0000;
    if Exponent(x) == 0 then fraction else (0x80_0000 + fraction) * Pow2(Exponent(x) - 1)
  }

  /** The real value a finite pattern stands for, in units of 2^-149. */
  function Units(x: F32): int {
    var m: int := Magnitude(x);
    if x < TWO_31 then m else -m
  }

  lemma {:induction false} Pow2Grows(a: nat, b: nat)
    requires a <= b
    ensures Pow2(a) <= Pow2(b)
  {
    if a < b {
      Pow2Grows(a, b - 1);
    }
  }

  lemma ScaledLess(a: nat, b: nat, p: nat)
    requires a < b && p > 0
    ensures a * p < b * p
  {
    Multiples(b - a, p);
    assert (b - a) * p == b * p - a * p;
  }

  lemma ScaledAtMost(a: nat, p: nat, q: nat)
    requires p <= q
    ensures a * p <= a * q
  {
    assert a * (q - p) >= 0;
    assert a * (q - p) == a * q - a * p;
  }

  /** `m` without its sign bit: exponent and fraction. */
  lemma Parts(m: F32)
    requires m < TWO_31
    ensures m == Exponent(m) * 0x80_0000 + m % 0x80_0000
  {
  }

  lemma MagnitudeGrows(a: F32, b: F32)
    requires a < b < TWO_31
    ensures Magnitude(a) < Magnitude(b)
  {
    hide Exponent, Pow2;
    Parts(a);
    Parts(b);
    var x, y := Exponent(a), Exponent(b);
    var f, g := a % 0x80_0000, b % 0x80_0000;
    assert x <= y;
    SmallPowers();
    if x == y {
      if x > 0 {
        ScaledLess(0x80_0000 + f, 0x80_0000 + g, Pow2(x - 1));
      }
    } else if x == 0 {
      Pow2Grows(0, y - 1);
      ScaledAtMost(0x80_0000 + g, 1, Pow2(y - 1));
    } else {
      Pow2Grows(x, y - 1);
      ScaledLess(0x80_0000 + f, 0x100_0000, Pow2(x - 1));
      ScaledAtMost(0x80_0000, Pow2(x), Pow2(y - 1));
      ScaledAtMost(0x80_0000 + g, Pow2(x), Pow2(y - 1));
      DoublePower(x);
      assert (0x80_0000 + g) * Pow2(x) == 0x80_0000 * Pow2(x) + g * Pow2(x);
    }
  }

  lemma SmallPowers()
    ensures Pow2(0) == 1
  {
  }

  lemma DoublePower(n: nat)
    requires n > 0
    ensures Pow2(n) == 2 * Pow2(n - 1)
  {
  }

  lemma SignedMagnitude(x: F32)
    requires x >= TWO_31
    ensures Magnitude(x) == Magnitude(x - TWO_31)
  {
    hide Pow2;
    assert (x - TWO_31) % 0x80_0000 == x % 0x80_0000;
    assert Exponent(x) == Exponent(x - TWO_31);
  }

  /** The comparison used throughout is that of the real values, over both signs, and equality
      is equality of values, so the two zeros are equal. */
  lemma OrderIsOfValues(a: F32, b: F32)
    requires IsFinite(a) && IsFinite(b)
    ensures Greater(a, b) <==> Units(a) > Units(b)
    ensures Equal(a, b) <==> Units(a) == Units(b)
  {
    hide Magnitude, Exponent;
    Trichotomy(a);
    Trichotomy(b);
    hide IsFinite, IsNaN;
    var m, n: F32 := if a < TWO_31 then a else a - TWO_31, if b < TWO_31 then b else b - TWO_31;
    if a >= TWO_31 {
      SignedMagnitude(a);
    }
    if b >= TWO_31 {
      SignedMagnitude(b);
    }
    ZeroMagnitude();
    if m > 0 {
      MagnitudeGrows(0, m);
    }
    if n > 0 {
      MagnitudeGrows(0, n);
    }
    if m < n {
      MagnitudeGrows(m, n);
    } else if n < m {
      MagnitudeGrows(n, m);
    }
  }

  lemma ZeroMagnitude()
    ensures Magnitude(0) == 0
  {
  }

  // ---------------------------------------------------------------- argmax of the dump

  /** Number of finite entries equal to `v`. */
  function Ties(values: seq<F32>, v: F32): nat {
    if values == [] then 0
    else
      var last := values[|values| - 1];
      Ties(values[..|values| - 1], v) + (if IsFinite(last) && Key(last) == Key(v) then 1 else 0)
  }

  /** `r` is the lowest index of the greatest finite entry, that entry, and how many finite
      entries equal it; nothing exactly when no entry is finite. */
  ghost predicate IsArgmax(values: seq<F32>, r: Option<(nat, F32, nat)>) {
    match r
    case None => forall j :: 0 <= j < |values| ==> !IsFinite(values[j])
    case Some((i, v, ties)) =>
      && i < |values| && values[i] == v && IsFinite(v)
      && (forall j :: 0 <= j < |values| && IsFinite(values[j]) ==> Key(values[j]) <= Key(v))
      && (forall j :: 0 <= j < i && IsFinite(values[j]) ==> Key(values[j]) < Key(v))
      && ties == Ties(values, v)
  }

  function ArgmaxOf(values: seq<F32>): (r: Option<(nat, F32, nat)>)
    ensures IsArgmax(values, r)
  {
    if values == [] then None
    else
      var n := |values| - 1;
      var best, x := ArgmaxOf(values[..n]), values[n];
      assert forall j :: 0 <= j < n ==> values[j] == values[..n][j];
      if !IsFinite(x) then best
      else match best
        case None =>
          NoTies(values[..n], x);
          Some((n, x, 1))
        case Some((i, v, ties)) =>
          if Key(x) > Key(v) then
            NoTies(values[..n], x);
            Some((n, x, 1))
          else if Key(x) == Key(v) then Some((i, v, ties + 1))
          else best
  }

  lemma {:induction false} NoTies(values: seq<F32>, v: F32)
    requires forall j :: 0 <= j < |values| && IsFinite(values[j]) ==> Key(values[j]) < Key(v)
    ensures Ties(values, v) == 0
  {
    if values != [] {
      NoTies(values[..|values| - 1], v);
    }
  }

  /** The contract leaves no choice. */
  lemma ArgmaxUnique(values: seq<F32>, r: Option<(nat, F32, nat)>)
    requires IsArgmax(values, r)
    ensures r == ArgmaxOf(values)
  {
    if r.Some? && ArgmaxOf(values).Some? {
      var i, j := r.value.0, ArgmaxOf(values).value.0;
      assert IsFinite(values[i]) && IsFinite(values[j]);
    }
  }

  /** What one more value does to the argmax, in the comparisons the scan makes. */
  lemma ArgmaxStep(values: seq<F32>, i: nat)
    requires i < |values|
    ensures var best, x := ArgmaxOf(values[..i]), values[i];
            ArgmaxOf(values[..i + 1]) ==
            if !IsFinite(x) then best
            else match best
              case None => Some((i, x, 1))
              case Some((j, v, ties)) =>
                if Greater(x, v) then Some((i, x, 1)) else if Equal(x, v) then Some((j, v, ties + 1)) else best
  {
    var best, x := ArgmaxOf(values[..i]), values[i];
    assert values[..i + 1][..i] == values[..i];
    Trichotomy(x);
    if best.Some? {
      Trichotomy(best.value.1);
    }
    hide IsFinite, IsNaN, Key;
  }

  /** `argmax_lowest_index` */
  method ArgmaxLowestIndex(values: seq<F32>) returns (r: Option<(nat, F32, nat)>)
    ensures r == ArgmaxOf(values)
    ensures IsArgmax(values, r)
  {
    hide ArgmaxOf, IsFinite, IsNaN, Key, Greater, Equal;
    var found := false;
    var bestIndex: nat, bestValue, ties: nat := 0, NEG_INF, 0;
    NothingScanned();
    for index := 0 to |values|
      invariant ArgmaxOf(values[..index]) == if found then Some((bestIndex, bestValue, ties)) else None
    {
      var value := values[index];
      ArgmaxStep(values, index);
      if IsFinite(value) {
        if !found || Greater(value, bestValue) {
          found, bestIndex, bestValue, ties := true, index, value, 1;
        } else if Equal(value, bestValue) {
          ties := ties + 1;
        }
      }
    }
    assert values[..|values|] == values;
    return if found then Some((bestIndex, bestValue, ties)) else None;
  }

  lemma NothingScanned()
    ensures ArgmaxOf([]) == None
  {
  }

  // ---------------------------------------------------------------- argmax of the benchmark

  /** The benchmark's scan: the index and value it holds after reading `values`. */
  function BenchBest(values: seq<F32>): (nat, F32) {
    if values == [] then (0, NEG_INF)
    else
      var n := |values| - 1;
      var best := BenchBest(values[..n]);
      if Greater(values[n], best.1) then (n, values[n]) else best
  }

  /** `argmax` of the end-to-end benchmark; the index is truncated to 32 bits. */
  method BenchArgmax(values: seq<F32>) returns (r: U32)
    ensures r == BenchBest(values).0 % TWO_32
  {
    var bestIdx: nat, bestVal := 0, NEG_INF;
    for idx := 0 to |values|
      invariant (bestIdx, bestVal) == BenchBest(values[..idx])
    {
      assert values[..idx + 1][..idx] == values[..idx];
      if Greater(values[idx], bestVal) {
        bestVal, bestIdx := values[idx], idx;
      }
    }
    assert values[..|values|] == values;
    return bestIdx % TWO_32;
  }

  /** What the benchmark's scan finds: the first of the greatest entries above minus infinity,
      where plus infinity counts and NaN does not; index 0 if there is none. */
  lemma {:induction false} BenchBestMeaning(values: seq<F32>)
    ensures var (i, v) := BenchBest(values);
            && !IsNaN(v)
            && (v == NEG_INF ==> i == 0 && forall j :: 0 <= j < |values| ==> !Greater(values[j], NEG_INF))
            && (v != NEG_INF ==>
                && i < |values| && values[i] == v && Key(v) > Key(NEG_INF)
                && (forall j :: 0 <= j < |values| && !IsNaN(values[j]) ==> Key(values[j]) <= Key(v))
                && (forall j :: 0 <= j < i && !IsNaN(values[j]) ==> Key(values[j]) < Key(v)))
  {
    Trichotomy(NEG_INF);
    if values != [] {
      var n := |values| - 1;
      BenchBestMeaning(values[..n]);
      assert forall j :: 0 <= j < n ==> values[j] == values[..n][j];
      Trichotomy(values[n]);
    }
  }

  /** The two loops pick the same index, when some logit is finite, exactly if none is plus
      infinity. */
  lemma ArgmaxesAgreeIff(values: seq<F32>)
    requires exists j :: 0 <= j < |values| && IsFinite(values[j])
    ensures BenchBest(values).0 == ArgmaxOf(values).value.0 <==> POS_INF !in values
  {
    BenchBestMeaning(values);
    forall j | 0 <= j < |values|
      ensures IsFinite(values[j]) || IsNaN(values[j]) || values[j] == POS_INF || values[j] == NEG_INF
      ensures IsFinite(values[j]) ==> !IsNaN(values[j]) && Key(NEG_INF) < Key(values[j]) < Key(POS_INF)
    {
      Trichotomy(values[j]);
    }
    Trichotomy(POS_INF);
    var j :| 0 <= j < |values| && IsFinite(values[j]);
    var (b, v) := BenchBest(values);
    var (a, w, _) := ArgmaxOf(values).value;
    assert Greater(values[j], NEG_INF);
    assert v != NEG_INF && values[b] == v && values[a] == w;
    if POS_INF in values {
      var p :| 0 <= p < |values| && values[p] == POS_INF;
      assert Key(v) >= Key(POS_INF);
    } else {
      assert IsFinite(v);
    }
  }

  // ---------------------------------------------------------------- the file layout

  /** `to_le_bytes` */
  function LeBytes(x: F32): Bytes {
    [x % 256, (x / 0x100) % 256, (x / 0x1_0000) % 256, x / 0x100_0000]
  }

  function FileBytes(logits: seq<F32>): Bytes {
    if logits == [] then [] else FileBytes(logits[..|logits| - 1]) + LeBytes(logits[|logits| - 1])
  }

  /** The loop of `write_logits_file` that fills the byte buffer. */
  method EncodeLogits(logits: seq<F32>) returns (bytes: Bytes)
    ensures bytes == FileBytes(logits)
  {
    bytes := [];
    for i := 0 to |logits|
      invariant bytes == FileBytes(logits[..i])
    {
      assert logits[..i + 1][..i] == logits[..i];
      bytes := bytes + LeBytes(logits[i]);
    }
    assert logits[..|logits|] == logits;
  }

  lemma LeBytesValue(x: F32)
    ensures var b := LeBytes(x);
            x as int == b[0] as int + 0x100 * b[1] as int + 0x1_0000 * b[2] as int + 0x100_0000 * b[3] as int
  {
    var x1 := x / 0x100;
    var x2 := x1 / 0x100;
    var x3 := x2 / 0x100;
    var b0, b1, b2 := x % 0x100, x1 % 0x100, x2 % 0x100;
    assert x == 0x100 * x1 + b0 && x1 == 0x100 * x2 + b1 && x2 == 0x100 * x3 + b2;
    QuotientUnique(x2, 0x1_0000, 0x100 * b1 + b0);
    QuotientUnique(x3, 0x100_0000, 0x1_0000 * b2 + 0x100 * b1 + b0);
  }

  lemma LeBytesInjective(x: F32, y: F32)
    requires LeBytes(x) == LeBytes(y)
    ensures x == y
  {
    hide LeBytes;
    LeBytesValue(x);
    LeBytesValue(y);
  }

  /** A file is headerless and exactly four bytes per logit, and determines every bit of them. */
  lemma {:induction false} FileBytesInjective(a: seq<F32>, b: seq<F32>)
    ensures |FileBytes(a)| == 4 * |a|
    ensures FileBytes(a) == FileBytes(b) ==> a == b
    decreases |a|
  {
    FileBytesLength(a);
    FileBytesLength(b);
    if FileBytes(a) == FileBytes(b) && a != [] {
      var n := |a| - 1;
      var fa, fb := FileBytes(a[..n]), FileBytes(b[..n]);
      FileBytesLength(a[..n]);
      FileBytesLength(b[..n]);
      assert FileBytes(a)[..4 * n] == fa && FileBytes(b)[..4 * n] == fb;
      assert FileBytes(a)[4 * n..] == LeBytes(a[n]) && FileBytes(b)[4 * n..] == LeBytes(b[n]);
      FileBytesInjective(a[..n], b[..n]);
      LeBytesInjective(a[n], b[n]);
      assert a == a[..n] + [a[n]] && b == b[..n] + [b[n]];
    }
  }

  lemma {:induction false} FileBytesLength(a: seq<F32>)
    ensures |FileBytes(a)| == 4 * |a|
  {
    if a != [] {
      FileBytesLength(a[..|a| - 1]);
    }
  }

  /** Logit `i` is bytes `4 * i` to `4 * i + 3` of the file, the least significant first. */
  lemma {:induction false} FileBytesAt(logits: seq<F32>, i: nat)
    requires i < |logits|
    ensures |FileBytes(logits)| == 4 * |logits|
    ensures var b := FileBytes(logits)[4 * i..4 * i + 4];
            logits[i] as int ==
            b[0] as int + 0x100 * b[1] as int + 0x1_0000 * b[2] as int + 0x100_0000 * b[3] as int
  {
    hide LeBytes;
    var n := |logits| - 1;
    FileBytesLength(logits);
    FileBytesLength(logits[..n]);
    if i == n {
      LeBytesValue(logits[n]);
      assert FileBytes(logits)[4 * n..4 * n + 4] == LeBytes(logits[n]);
    } else {
      FileBytesAt(logits[..n], i);
      assert FileBytes(logits)[4 * i..4 * i + 4] == FileBytes(logits[..n])[4 * i..4 * i + 4];
    }
  }
}
