/** Bytes, fixed-width integers and the conversions between naturals and byte strings
    that every wire format of the two servers relies on. */
module Bytes {
  type byte = x: int | 0 <= x < 0x100
  type u16 = x: int | 0 <= x < 0x1_0000
  type u32 = x: int | 0 <= x < 0x1_0000_0000
  type u64 = x: int | 0 <= x < 0x1_0000_0000_0000_0000

  type Bytes4 = s: seq<byte> | |s| == 4 witness seq(4, _ => 0)
  type Bytes8 = s: seq<byte> | |s| == 8 witness seq(8, _ => 0)
  type Bytes16 = s: seq<byte> | |s| == 16 witness seq(16, _ => 0)
  type Bytes20 = s: seq<byte> | |s| == 20 witness seq(20, _ => 0)
  type Bytes32 = s: seq<byte> | |s| == 32 witness seq(32, _ => 0)
  type Bytes40 = s: seq<byte> | |s| == 40 witness seq(40, _ => 0)

  /** The result of code that may panic (`expect`, a slice index out of range, arithmetic overflow). */
  datatype Outcome<+T> = Returned(value: T) | Panicked

  datatype Option<+T> = None | Some(value: T)

  datatype Result<+T, +E> = Ok(value: T) | Err(error: E)

  /** 256 to the power `width`: the number of values of a `width`-byte integer. */
  function Span(width: nat): (r: nat)
    ensures r >= 1
  {
    if width == 0 then 1 else 256 * Span(width - 1)
  }

  /** `BigUint::from_bytes_le`. */
  function FromLe(s: seq<byte>): nat {
    if s == [] then 0 else s[0] + 256 * FromLe(s[1..])
  }

  /** `BigUint::from_bytes_be`. */
  function FromBe(s: seq<byte>): nat {
    if s == [] then 0 else 256 * FromBe(s[..|s| - 1]) + s[|s| - 1]
  }

  /** `BigUint::to_bytes_le`: as few bytes as possible, but at least one. */
  function ToLe(n: nat): seq<byte> {
    if n < 256 then [n] else [n % 256] + ToLe(n / 256)
  }

  /** The low `width` bytes of `n`, least significant first (fixed-width integer encoding). */
  function PadLe(n: nat, width: nat): (s: seq<byte>)
    ensures |s| == width
  {
    if width == 0 then [] else [n % 256] + PadLe(n / 256, width - 1)
  }

  function Reversed(s: seq<byte>): (r: seq<byte>)
    ensures |r| == |s|
  {
    if s == [] then [] else Reversed(s[1..]) + [s[0]]
  }

  /** `to_bytes_le().try_into().expect("correct size")` into an array of `width` bytes. */
  function ToArray(n: nat, width: nat): (r: Outcome<seq<byte>>)
    ensures r.Returned? ==> |r.value| == width
  {
    if |ToLe(n)| == width then Returned(ToLe(n)) else Panicked
  }

  lemma {:induction false} MinimalRoundTrip(n: nat)
    ensures FromLe(ToLe(n)) == n
  {
    if n < 256 {
      assert ToLe(n)[1..] == [];
    } else {
      MinimalRoundTrip(n / 256);
      assert ToLe(n)[1..] == ToLe(n / 256);
    }
  }

  lemma {:induction false} FromLeBound(s: seq<byte>)
    ensures FromLe(s) < Span(|s|)
  {
    if s != [] {
      FromLeBound(s[1..]);
    }
  }

  lemma {:induction false} PaddedRoundTrip(n: nat, width: nat)
    requires n < Span(width)
    ensures FromLe(PadLe(n, width)) == n
  {
    if width > 0 {
      PaddedRoundTrip(n / 256, width - 1);
      assert PadLe(n, width)[1..] == PadLe(n / 256, width - 1);
    }
  }

  /** The converse: padding the decoded number back to the same width restores the bytes. */
  lemma {:induction false} DecodedRoundTrip(s: seq<byte>)
    ensures PadLe(FromLe(s), |s|) == s
  {
    if s != [] {
      DecodedRoundTrip(s[1..]);
      assert FromLe(s) % 256 == s[0] && FromLe(s) / 256 == FromLe(s[1..]);
    }
  }

  /** The exact length of the minimal encoding. */
  lemma {:induction false} MinimalLength(n: nat)
    ensures |ToLe(n)| >= 1 && n < Span(|ToLe(n)|)
    ensures |ToLe(n)| > 1 ==> Span(|ToLe(n)| - 1) <= n
  {
    if n >= 256 {
      MinimalLength(n / 256);
    } else {
      assert Span(1) == 256 * Span(0);
    }
  }

  lemma {:induction false} SpanMonotone(i: nat, j: nat)
    requires i <= j
    ensures Span(i) <= Span(j)
    decreases j - i
  {
    if i < j {
      SpanMonotone(i, j - 1);
    }
  }

  /** A fixed-size conversion panics on every number whose minimal encoding is shorter (or longer) than the array. */
  lemma ToArrayExact(n: nat, width: nat)
    requires width >= 2
    ensures ToArray(n, width).Returned? <==> Span(width - 1) <= n < Span(width)
    ensures ToArray(n, width).Returned? ==>
              FromLe(ToArray(n, width).value) == n && ToArray(n, width).value == PadLe(n, width)
  {
    MinimalLength(n);
    MinimalRoundTrip(n);
    var length := |ToLe(n)|;
    if length < width {
      SpanMonotone(length, width - 1);
    } else if length > width {
      SpanMonotone(width, length - 1);
    } else {
      DecodedRoundTrip(ToLe(n));
    }
  }

  lemma {:induction false} ReversedAppend(s: seq<byte>, b: byte)
    ensures Reversed(s + [b]) == [b] + Reversed(s)
  {
    if s == [] {
      assert (s + [b])[1..] == [];
    } else {
      ReversedAppend(s[1..], b);
      assert (s + [b])[1..] == s[1..] + [b];
    }
  }

  lemma {:induction false} BigEndianIsReversedLittleEndian(s: seq<byte>)
    ensures FromBe(s) == FromLe(Reversed(s))
  {
    if s != [] {
      var front, last := s[..|s| - 1], s[|s| - 1];
      assert s == front + [last];
      ReversedAppend(front, last);
      BigEndianIsReversedLittleEndian(front);
      assert Reversed(s)[1..] == Reversed(front);
    }
  }

  lemma WidthValues()
    ensures Span(1) == 0x100 && Span(2) == 0x1_0000
    ensures Span(4) == 0x1_0000_0000 && Span(8) == 0x1_0000_0000_0000_0000
  {
    assert Span(2) == 256 * Span(1) && Span(3) == 256 * Span(2) && Span(4) == 256 * Span(3);
    assert Span(5) == 256 * Span(4) && Span(6) == 256 * Span(5) && Span(7) == 256 * Span(6);
  }

  /** Parts written one after the other. */
  function Flatten(parts: seq<seq<byte>>): seq<byte> {
    if parts == [] then [] else parts[0] + Flatten(parts[1..])
  }

  lemma Regroup<T>(a: seq<T>, b: seq<T>, c: seq<T>)
    ensures (a + b) + c == a + (b + c)
  {
  }

  lemma {:induction false} FlattenSplit(x: seq<seq<byte>>, y: seq<seq<byte>>)
    ensures Flatten(x + y) == Flatten(x) + Flatten(y)
  {
    if x == [] {
      assert x + y == y;
    } else {
      FlattenSplit(x[1..], y);
      assert (x + y)[1..] == x[1..] + y;
      Regroup(x[0], Flatten(x[1..]), Flatten(y));
    }
  }

  lemma FlattenAppend(x: seq<seq<byte>>, part: seq<byte>)
    ensures Flatten(x + [part]) == Flatten(x) + part
  {
    FlattenSplit(x, [part]);
    assert Flatten([part]) == part + Flatten([]) == part;
  }

  lemma FlattenThree(x: seq<seq<byte>>, part: seq<byte>, y: seq<seq<byte>>)
    ensures Flatten(x + [part] + y) == Flatten(x) + part + Flatten(y)
  {
    FlattenSplit(x + [part], y);
    FlattenAppend(x, part);
  }

  lemma SplitAround<T>(s: seq<T>, i: nat)
    requires i < |s|
    ensures s == s[..i] + [s[i]] + s[i + 1..]
    ensures s[..i + 1] == s[..i] + [s[i]]
  {
  }

  /** The whole text seen from part `i`. */
  lemma FlattenAround(parts: seq<seq<byte>>, i: nat)
    requires i < |parts|
    ensures Flatten(parts) == Flatten(parts[..i]) + parts[i] + Flatten(parts[i + 1..])
    ensures Flatten(parts[..i + 1]) == Flatten(parts[..i]) + parts[i]
  {
    SplitAround(parts, i);
    FlattenThree(parts[..i], parts[i], parts[i + 1..]);
    FlattenAppend(parts[..i], parts[i]);
  }

  /** Behind a head: where part `i` lies. */
  lemma PartSlice(head: seq<byte>, parts: seq<seq<byte>>, data: seq<byte>, i: nat, start: nat, end: nat)
    requires i < |parts| && data == head + Flatten(parts)
    requires start == |head| + |Flatten(parts[..i])| && end == |head| + |Flatten(parts[..i + 1])|
    ensures end == start + |parts[i]| && end <= |data| && data[start..end] == parts[i]
  {
    FlattenAround(parts, i);
    var before, after := head + Flatten(parts[..i]), Flatten(parts[i + 1..]);
    Regroup(head, Flatten(parts[..i]), parts[i]);
    Regroup(head, Flatten(parts[..i]) + parts[i], after);
    SliceInside(before, parts[i], after, 0, |parts[i]|);
  }

  lemma SubSlice(s: seq<byte>, i: nat, j: nat, k: nat, l: nat)
    requires i <= j <= |s| && k <= l <= j - i
    ensures s[i..j][k..l] == s[i + k..i + l]
  {
    assert forall m :: 0 <= m < l - k ==> s[i..j][k..l][m] == s[i + k..i + l][m];
  }

  /** A piece found at `c`, seen in the text around it. */
  lemma SliceAt(s: seq<byte>, c: nat, piece: seq<byte>, k: nat)
    requires c + |piece| <= |s| && s[c..c + |piece|] == piece && k < |piece|
    ensures s[c + k] == piece[k]
  {
  }

  lemma SliceSub(s: seq<byte>, c: nat, piece: seq<byte>, k: nat, l: nat)
    requires c + |piece| <= |s| && s[c..c + |piece|] == piece && k <= l <= |piece|
    ensures s[c + k..c + l] == piece[k..l]
  {
    SubSlice(s, c, c + |piece|, k, l);
  }

  /** A slice of the middle part is a slice of the whole. */
  lemma SliceInside(before: seq<byte>, part: seq<byte>, after: seq<byte>, i: nat, j: nat)
    requires i <= j <= |part|
    ensures (before + part + after)[|before| + i..|before| + j] == part[i..j]
  {
    var whole := before + part + after;
    assert forall m :: 0 <= m < j - i ==> whole[|before| + i..|before| + j][m] == part[i..j][m];
  }

  lemma DropSlice(s: seq<byte>, i: nat, k: nat, l: nat)
    requires i <= |s| && k <= l <= |s| - i
    ensures s[i..][k..l] == s[i + k..i + l]
    ensures s[i..][..l] == s[i..i + l] && s[i..][l..] == s[i + l..]
  {
    assert forall m :: 0 <= m < l - k ==> s[i..][k..l][m] == s[i + k..i + l][m];
    assert forall m :: 0 <= m < l ==> s[i..][..l][m] == s[i..i + l][m];
    assert forall m :: 0 <= m < |s| - i - l ==> s[i..][l..][m] == s[i + l..][m];
  }

  /** Bitwise exclusive or of the low `width` bits. */
  function XorBits(a: nat, b: nat, width: nat): nat {
    if width == 0 then 0 else (a % 2 + b % 2) % 2 + 2 * XorBits(a / 2, b / 2, width - 1)
  }

  function PowerOfTwo(width: nat): nat {
    if width == 0 then 1 else 2 * PowerOfTwo(width - 1)
  }

  lemma {:induction false} XorBitsBound(a: nat, b: nat, width: nat)
    ensures XorBits(a, b, width) < PowerOfTwo(width)
  {
    if width > 0 {
      XorBitsBound(a / 2, b / 2, width - 1);
    }
  }

  lemma XorBitsStep(a: nat, b: nat, width: nat, bit: nat, upper: nat)
    requires width > 0 && bit == (a % 2 + b % 2) % 2 && upper == XorBits(a / 2, b / 2, width - 1)
    ensures XorBits(XorBits(a, b, width), b, width) == a % 2 + 2 * XorBits(upper, b / 2, width - 1)
  {
    var x := bit + 2 * upper;
    assert x / 2 == upper && x % 2 == bit;
    assert (bit + b % 2) % 2 == a % 2;
  }

  lemma {:induction false} XorBitsCancel(a: nat, b: nat, width: nat)
    requires a < PowerOfTwo(width)
    ensures XorBits(XorBits(a, b, width), b, width) == a
  {
    if width > 0 {
      XorBitsCancel(a / 2, b / 2, width - 1);
      XorBitsStep(a, b, width, (a % 2 + b % 2) % 2, XorBits(a / 2, b / 2, width - 1));
    }
  }

  /** Binary digit `k`. */
  function Bit(n: nat, k: nat): nat {
    if k == 0 then n % 2 else Bit(n / 2, k - 1)
  }

  /** Each digit of an exclusive or is set exactly where the digits of its operands differ. */
  lemma {:induction false} XorBit(a: nat, b: nat, width: nat, k: nat)
    requires k < width
    ensures Bit(XorBits(a, b, width), k) == 1 <==> Bit(a, k) != Bit(b, k)
  {
    var bit, upper := (a % 2 + b % 2) % 2, XorBits(a / 2, b / 2, width - 1);
    LowestDigit(bit, upper);
    if k > 0 {
      XorBit(a / 2, b / 2, width - 1, k - 1);
    }
  }

  lemma LowestDigit(bit: nat, upper: nat)
    requires bit < 2
    ensures (bit + 2 * upper) % 2 == bit && (bit + 2 * upper) / 2 == upper
  {
  }

  lemma XorDigits(a: nat, b: nat)
    ensures forall k :: 0 <= k < 8 ==> (Bit(XorBits(a, b, 8), k) == 1 <==> Bit(a, k) != Bit(b, k))
  {
    forall k | 0 <= k < 8
      ensures Bit(XorBits(a, b, 8), k) == 1 <==> Bit(a, k) != Bit(b, k)
    {
      XorBit(a, b, 8, k);
    }
  }

  function Xor(a: byte, b: byte): (r: byte)
    ensures forall k :: 0 <= k < 8 ==> (Bit(r, k) == 1 <==> Bit(a, k) != Bit(b, k))
  {
    XorBitsBound(a, b, 8);
    XorDigits(a, b);
    assert PowerOfTwo(8) == 256;
    XorBits(a, b, 8)
  }

  lemma XorCancel(a: byte, b: byte)
    ensures Xor(Xor(a, b), b) == a
  {
    assert PowerOfTwo(8) == 256;
    XorBitsCancel(a, b, 8);
  }

  lemma {:induction false} XorBitsCommute(a: nat, b: nat, width: nat)
    ensures XorBits(a, b, width) == XorBits(b, a, width)
  {
    if width > 0 {
      XorBitsCommute(a / 2, b / 2, width - 1);
    }
  }

  /** One mask undoes another exactly when they are the same. */
  lemma XorExact(x: byte, a: byte, b: byte)
    ensures Xor(Xor(x, a), b) == x <==> a == b
  {
    XorCancel(x, a);
    if Xor(Xor(x, a), b) == x {
      var y := Xor(x, a);
      XorBitsCommute(y, a, 8);
      XorBitsCommute(y, b, 8);
      XorCancel(a, y);
      XorCancel(b, y);
    }
  }

  lemma {:induction false} BitIsBinary(n: nat, k: nat)
    ensures Bit(n, k) < 2
  {
    if k > 0 {
      BitIsBinary(n / 2, k - 1);
    }
  }

  /** Numbers with the same digits are the same. */
  lemma {:induction false} SameDigits(a: nat, b: nat, width: nat)
    requires a < PowerOfTwo(width) && b < PowerOfTwo(width) && forall k :: 0 <= k < width ==> Bit(a, k) == Bit(b, k)
    ensures a == b
  {
    if width > 0 {
      forall k | 0 <= k < width - 1
        ensures Bit(a / 2, k) == Bit(b / 2, k)
      {
        assert Bit(a, k + 1) == Bit(b, k + 1);
      }
      SameDigits(a / 2, b / 2, width - 1);
      assert Bit(a, 0) == Bit(b, 0);
    }
  }

  /** Every byte weighs 256 times the one before. */
  lemma {:induction false} FromLeConcat(x: seq<byte>, y: seq<byte>)
    ensures FromLe(x + y) == FromLe(x) + Span(|x|) * FromLe(y)
  {
    if x == [] {
      assert x + y == y;
    } else {
      FromLeConcat(x[1..], y);
      assert (x + y)[1..] == x[1..] + y;
      Weigh(FromLe(x[1..]), Span(|x| - 1), FromLe(y));
    }
  }

  lemma Weigh(low: nat, span: nat, high: nat)
    ensures 256 * (low + span * high) == 256 * low + (256 * span) * high
  {
  }
}
