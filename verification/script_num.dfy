/** The script-number (scriptnum) and boolean codecs of Bitcoin script, as the
    interpreter's stack uses them: a signed integer is a little-endian magnitude
    whose last byte carries the sign in its top bit; zero is the empty string.
    These stand for rust-bitcoin's `write_scriptint`, `read_scriptint_non_minimal`
    and `read_scriptbool`. */
module ScriptNum {
  import opened Types

  /** Longest item, in bytes, that the non-minimal decoder accepts as a number. */
  const MAX_NUM_LEN: nat := 4

  function Pow256(k: nat): (r: nat)
    ensures r >= 1
  {
    if k == 0 then 1 else 256 * Pow256(k - 1)
  }

  function Abs(n: int): (r: nat)
  {
    if n < 0 then -n else n
  }

  /** Unsigned little-endian value of a byte string. */
  function LeValue(v: seq<u8>): (r: nat)
  {
    if v == [] then 0 else v[0] + 256 * LeValue(v[1..])
  }

  /** Shortest little-endian byte string of a magnitude: it never ends in a zero byte. */
  function EncodeMagnitude(m: nat): (r: seq<u8>)
    ensures LeValue(r) == m
    ensures r == [] <==> m == 0
    ensures r != [] ==> r[|r| - 1] != 0
  {
    if m == 0 then [] else [m % 256] + EncodeMagnitude(m / 256)
  }

  /** Minimal scriptnum encoding of `n` (write_scriptint). */
  function Encode(n: int): (r: seq<u8>)
    ensures r == [] <==> n == 0
  {
    if n == 0 then [] else WithSign(EncodeMagnitude(Abs(n)), n < 0)
  }

  /** Folds the sign into a non-empty magnitude: into the top bit of its last byte,
      or into an extra byte when that bit is already taken by the magnitude. */
  function WithSign(mag: seq<u8>, negative: bool): (r: seq<u8>)
    requires mag != []
    ensures |r| == |mag| || |r| == |mag| + 1
  {
    var last := mag[|mag| - 1];
    var sign: u8 := if negative then 0x80 else 0;
    if last >= 0x80 then mag + [sign] else mag[..|mag| - 1] + [last + sign]
  }

  /** The bytes of a non-empty item with the sign bit of its last byte cleared. */
  function MagnitudeBytes(v: seq<u8>): (r: seq<u8>)
    requires v != []
    ensures |r| == |v|
  {
    v[..|v| - 1] + [v[|v| - 1] % 0x80]
  }

  /** Value of any sign-magnitude byte string, however long and however padded. */
  function DecodeValue(v: seq<u8>): (r: int)
  {
    if v == [] then 0
    else if v[|v| - 1] >= 0x80 then -(LeValue(MagnitudeBytes(v)) as int)
    else LeValue(MagnitudeBytes(v))
  }

  /** No superfluous trailing byte: the last byte carries magnitude bits, or it is
      needed because the byte before it has its top bit set. */
  predicate IsMinimal(v: seq<u8>)
  {
    v == [] || v[|v| - 1] % 0x80 != 0 || (|v| > 1 && v[|v| - 2] >= 0x80)
  }

  /** read_scriptint_non_minimal: any padding is accepted; items longer than
      MAX_NUM_LEN bytes are rejected. */
  function DecodeNonMinimal(v: seq<u8>): (r: Result<int, Error>)
    ensures r.Ok? <==> |v| <= MAX_NUM_LEN
    ensures r.Err? ==> r.error == InvalidNumericEncoding
    ensures r.Ok? ==> r.value == DecodeValue(v) && 2 * Abs(r.value) < Pow256(MAX_NUM_LEN)
  {
    if v == [] then Ok(0)
    else if |v| > MAX_NUM_LEN then Err(InvalidNumericEncoding)
    else DecodeBound(v); Ok(DecodeValue(v))
  }

  /** read_scriptbool: false exactly when every byte is zero, except that the last
      byte may be the bare sign bit (negative zero). */
  function ReadBool(v: seq<u8>): (r: bool)
    ensures r <==> DecodeValue(v) != 0
  {
    ReadBoolIsNonZero(v);
    v != [] && !(v[|v| - 1] % 0x80 == 0 && forall i | 0 <= i < |v| - 1 :: v[i] == 0)
  }

  // ---------------------------------------------------------------------------
  // Little-endian arithmetic

  lemma {:induction false} LeValueAppend(s: seq<u8>, b: u8)
    ensures LeValue(s + [b]) == LeValue(s) + Pow256(|s|) * b
  {
    if s == [] {
      assert [b][1..] == [];
    } else {
      assert (s + [b])[1..] == s[1..] + [b];
      LeValueAppend(s[1..], b);
      calc {
        LeValue(s + [b]);
        s[0] + 256 * LeValue(s[1..] + [b]);
        s[0] + 256 * (LeValue(s[1..]) + Pow256(|s| - 1) * b);
        { assert 256 * (Pow256(|s| - 1) * b) == (256 * Pow256(|s| - 1)) * b; }
        LeValue(s) + Pow256(|s|) * b;
      }
    }
  }

  lemma {:induction false} LeValueBound(s: seq<u8>)
    ensures LeValue(s) < Pow256(|s|)
  {
    if s != [] {
      LeValueBound(s[1..]);
    }
  }

  lemma {:induction false} LeValueZero(s: seq<u8>)
    ensures LeValue(s) == 0 <==> forall i | 0 <= i < |s| :: s[i] == 0
  {
    if s != [] {
      LeValueZero(s[1..]);
      assert forall i | 1 <= i < |s| :: s[i] == s[1..][i - 1];
    }
  }

  lemma {:induction false} PowMonotone(j: nat, k: nat)
    requires j <= k
    ensures Pow256(j) <= Pow256(k)
  {
    if j < k {
      PowMonotone(j, k - 1);
    }
  }

  /** A byte string without a trailing zero byte is the minimal encoding of its value. */
  lemma {:induction false} EncodeMagnitudeOfLeValue(w: seq<u8>)
    requires w == [] || w[|w| - 1] != 0
    ensures EncodeMagnitude(LeValue(w)) == w
  {
    if w != [] {
      var t := w[1..];
      var m := LeValue(w);
      ByteSplit(w[0], LeValue(t));
      if t != [] {
        EncodeMagnitudeOfLeValue(t);
      }
      assert EncodeMagnitude(m) == [w[0]] + EncodeMagnitude(LeValue(t));
      assert [w[0]] + t == w;
    }
  }

  /** Splitting a number into its low byte and the rest. */
  lemma ByteSplit(b: u8, rest: nat)
    ensures (b + 256 * rest) % 256 == b && (b + 256 * rest) / 256 == rest
  {
  }

  /** The number of bytes of a magnitude is at most k exactly when it is below 256^k. */
  lemma {:induction false} MagnitudeLength(m: nat, k: nat)
    ensures |EncodeMagnitude(m)| <= k <==> m < Pow256(k)
  {
    if m != 0 && k != 0 {
      MagnitudeLength(m / 256, k - 1);
      assert |EncodeMagnitude(m)| == 1 + |EncodeMagnitude(m / 256)|;
      DivLess(m, Pow256(k - 1));
    }
  }

  lemma DivLess(m: nat, p: nat)
    ensures m / 256 < p <==> m < 256 * p
  {
  }

  // ---------------------------------------------------------------------------
  // Properties of the codec

  /** Clearing the sign bit undoes WithSign, up to a zero byte of padding. */
  lemma MagnitudeBytesOfWithSign(mag: seq<u8>, negative: bool)
    requires mag != []
    ensures var r := WithSign(mag, negative);
      && (r[|r| - 1] >= 0x80 <==> negative)
      && MagnitudeBytes(r) == if mag[|mag| - 1] >= 0x80 then mag + [0] else mag
  {
    var r := WithSign(mag, negative);
    if mag[|mag| - 1] < 0x80 {
      assert mag[..|mag| - 1] + [mag[|mag| - 1]] == mag;
    }
  }

  /** Decoding the encoding of any integer gives it back. */
  lemma {:induction false} DecodeEncode(n: int)
    ensures DecodeValue(Encode(n)) == n
  {
    if n != 0 {
      var mag := EncodeMagnitude(Abs(n));
      MagnitudeBytesOfWithSign(mag, n < 0);
      LeValueAppend(mag, 0);
    }
  }

  /** The encoder never emits a superfluous byte. */
  lemma {:induction false} EncodeIsMinimal(n: int)
    ensures IsMinimal(Encode(n))
  {
  }

  /** A byte string is minimal exactly when it is what the encoder emits for its value:
      the minimal encoding of a value is unique. */
  lemma {:induction false} MinimalIffCanonical(v: seq<u8>)
    ensures IsMinimal(v) <==> Encode(DecodeValue(v)) == v
  {
    EncodeIsMinimal(DecodeValue(v));
    if IsMinimal(v) && v != [] {
      if v[|v| - 1] % 0x80 != 0 {
        CanonicalSignInLastByte(v);
      } else {
        CanonicalSignByte(v);
      }
    }
  }

  /** A signed magnitude without trailing zero byte is encoded by folding in its sign. */
  lemma EncodeOfSigned(mag: seq<u8>, negative: bool)
    requires mag != [] && mag[|mag| - 1] != 0
    ensures Encode(if negative then -(LeValue(mag) as int) else LeValue(mag)) == WithSign(mag, negative)
  {
    var m := LeValue(mag);
    EncodeMagnitudeOfLeValue(mag);
    assert m != 0;
    var n: int := if negative then -(m as int) else m;
    assert Abs(n) == m && (n < 0 <==> negative);
    assert Encode(n) == WithSign(EncodeMagnitude(m), negative);
  }

  /** A minimal item whose last byte carries magnitude bits is re-encoded as itself. */
  lemma CanonicalSignInLastByte(v: seq<u8>)
    requires v != [] && v[|v| - 1] % 0x80 != 0
    ensures Encode(DecodeValue(v)) == v
  {
    var k := |v|;
    var w := MagnitudeBytes(v);
    var negative := v[k - 1] >= 0x80;
    EncodeOfSigned(w, negative);
    assert w[..k - 1] == v[..k - 1];
    assert WithSign(w, negative) == v[..k - 1] + [v[k - 1]];
    assert v[..k - 1] + [v[k - 1]] == v;
  }

  /** A minimal item whose last byte is only a sign byte is re-encoded as itself. */
  lemma CanonicalSignByte(v: seq<u8>)
    requires |v| > 1 && v[|v| - 1] % 0x80 == 0 && v[|v| - 2] >= 0x80
    ensures Encode(DecodeValue(v)) == v
  {
    var k := |v|;
    var pre := v[..k - 1];
    var negative := v[k - 1] >= 0x80;
    assert MagnitudeBytes(v) == pre + [0];
    LeValueAppend(pre, 0);
    EncodeOfSigned(pre, negative);
    assert WithSign(pre, negative) == pre + [v[k - 1]];
    assert pre + [v[k - 1]] == v;
  }

  /** A value read from k bytes has magnitude below 256^k / 2. */
  lemma {:induction false} DecodeBound(v: seq<u8>)
    ensures 2 * Abs(DecodeValue(v)) < Pow256(|v|)
  {
    if v != [] {
      var k := |v|;
      var pre := v[..k - 1];
      var b := v[k - 1] % 0x80;
      var p := Pow256(k - 1);
      assert MagnitudeBytes(v) == pre + [b];
      LeValueAppend(pre, b);
      LeValueBound(pre);
      MulMonotone(p, b, 127);
      assert Abs(DecodeValue(v)) == LeValue(pre) + p * b;
    }
  }

  lemma MulMonotone(p: nat, a: nat, b: nat)
    requires a <= b
    ensures p * a <= p * b
  {
  }

  /** The encoding of n fits k bytes exactly when 2|n| < 256^k. */
  lemma {:induction false} EncodeLength(n: int, k: nat)
    requires k >= 1
    ensures |Encode(n)| <= k <==> 2 * Abs(n) < Pow256(k)
  {
    if |Encode(n)| <= k {
      DecodeEncode(n);
      DecodeBound(Encode(n));
      PowMonotone(|Encode(n)|, k);
    }
    if n != 0 && 2 * Abs(n) < Pow256(k) {
      EncodeFits(n, k);
    }
  }

  lemma EncodeFits(n: int, k: nat)
    requires n != 0 && 2 * Abs(n) < Pow256(k)
    ensures |Encode(n)| <= k
  {
    var mag := EncodeMagnitude(Abs(n));
    var l := |mag|;
    MagnitudeLength(Abs(n), k);
    if mag[l - 1] >= 0x80 {
      TopBitMagnitude(mag);
      if l >= k {
        PowMonotone(k, l);
      }
    }
  }

  /** A magnitude whose last byte has its top bit set is at least half of 256^length. */
  lemma TopBitMagnitude(mag: seq<u8>)
    requires mag != [] && mag[|mag| - 1] >= 0x80
    ensures Pow256(|mag|) <= 2 * LeValue(mag)
  {
    var l := |mag|;
    var pre := mag[..l - 1];
    assert pre + [mag[l - 1]] == mag;
    LeValueAppend(pre, mag[l - 1]);
    MulMonotone(Pow256(l - 1), 128, mag[l - 1]);
  }

  /** The non-minimal decoder reads back every encoding that fits MAX_NUM_LEN bytes,
      and only those. */
  lemma {:induction false} NonMinimalRoundTrip(n: int)
    ensures DecodeNonMinimal(Encode(n)) == Ok(n) <==> 2 * Abs(n) < Pow256(MAX_NUM_LEN)
  {
    EncodeLength(n, MAX_NUM_LEN);
    DecodeEncode(n);
  }

  /** Boolean falsity is numeric zero, negative zero included. */
  lemma {:induction false} ReadBoolIsNonZero(v: seq<u8>)
    ensures (v != [] && !(v[|v| - 1] % 0x80 == 0 && forall i | 0 <= i < |v| - 1 :: v[i] == 0))
            <==> DecodeValue(v) != 0
  {
    if v != [] {
      var k := |v|;
      var w := v[..k - 1] + [v[k - 1] % 0x80];
      LeValueZero(w);
      assert forall i | 0 <= i < k - 1 :: w[i] == v[i];
      assert w[k - 1] == v[k - 1] % 0x80;
    }
  }

  /** The encoding of a number reads as true exactly when the number is non-zero. */
  lemma {:induction false} ReadBoolOfEncode(n: int)
    ensures ReadBool(Encode(n)) <==> n != 0
  {
    DecodeEncode(n);
  }
}
