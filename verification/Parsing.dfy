/** Decoding helpers shared by both servers: strings that end in NUL, fixed-width integers, and runs of records. */
module Parsing {
  import opened Bytes

  /** An error ends the connection in an orderly way, an abort is a panic (slice out of range, `todo!`). */
  datatype Decode<+T> = Decoded(value: T) | Invalid | Abort

  function FirstNul(s: seq<byte>, from: nat): (r: Option<nat>)
    ensures r.Some? ==> from <= r.value < |s| && s[r.value] == 0
    decreases |s| - from
  {
    if from >= |s| then None else if s[from] == 0 then Some(from) else FirstNul(s, from + 1)
  }

  predicate NulFree(s: seq<byte>) {
    forall i :: 0 <= i < |s| ==> s[i] != 0
  }

  lemma {:induction false} FirstNulAt(s: seq<byte>, from: nat, end: nat)
    requires from <= end < |s| && s[end] == 0 && forall i :: from <= i < end ==> s[i] != 0
    ensures FirstNul(s, from) == Some(end)
    decreases end - from
  {
    if from < end {
      FirstNulAt(s, from + 1, end);
    }
  }

  lemma TextThenNul(data: seq<byte>, i: nat, j: nat, text: seq<byte>)
    requires i <= j < |data| && data[i..j] == text && NulFree(text) && data[j] == 0
    ensures FirstNul(data, i) == Some(j)
  {
    forall k | i <= k < j
      ensures data[k] != 0
    {
      assert data[k] == text[k - i];
    }
    FirstNulAt(data, i, j);
  }

  lemma U32Range(s: seq<byte>)
    ensures |s| == 4 ==> FromLe(s) < 0x1_0000_0000
    ensures |s| == 8 ==> FromLe(s) < 0x1_0000_0000_0000_0000
    ensures |s| == 2 ==> FromLe(s) < 0x1_0000
  {
    FromLeBound(s);
    WidthValues();
  }

  function GetU32(s: seq<byte>): u32
    requires |s| == 4
  {
    U32Range(s);
    FromLe(s)
  }

  function GetU64(s: seq<byte>): u64
    requires |s| == 8
  {
    U32Range(s);
    FromLe(s)
  }

  lemma PutGet(n: nat)
    ensures n < 0x1_0000_0000 ==> GetU32(PadLe(n, 4)) == n
    ensures n < 0x1_0000_0000_0000_0000 ==> GetU64(PadLe(n, 8)) == n
  {
    WidthValues();
    if n < Span(4) { PaddedRoundTrip(n, 4); }
    if n < Span(8) { PaddedRoundTrip(n, 8); }
  }

  /** A 16-bit size in network order. */
  function PutBe16(n: u16): (r: seq<byte>)
    ensures |r| == 2
  {
    [n / 256, n % 256]
  }

  function GetBe16(s: seq<byte>): u16
    requires |s| == 2
  {
    var high: nat, low: nat := s[0], s[1];
    256 * high + low
  }

  function PutLe16(n: u16): (r: seq<byte>)
    ensures |r| == 2
  {
    [n % 256, n / 256]
  }

  function GetLe16(s: seq<byte>): u16
    requires |s| == 2
  {
    var low: nat, high: nat := s[0], s[1];
    low + 256 * high
  }

  lemma ShortRoundTrip(n: u16)
    ensures GetBe16(PutBe16(n)) == n && GetLe16(PutLe16(n)) == n
  {
  }

  lemma ShortBytes(s: seq<byte>)
    requires |s| == 2
    ensures PutBe16(GetBe16(s)) == s && PutLe16(GetLe16(s)) == s
  {
  }

  function Prepend<T>(front: seq<T>, r: Decode<seq<T>>): Decode<seq<T>> {
    if r.Decoded? then Decoded(front + r.value) else r
  }

  lemma PrependNothing<T>(r: Decode<seq<T>>)
    ensures Prepend([], r) == r
  {
    if r.Decoded? {
      assert [] + r.value == r.value;
    }
  }

  lemma PrependTwice<T>(a: seq<T>, b: seq<T>, r: Decode<seq<T>>)
    ensures Prepend(a, Prepend(b, r)) == Prepend(a + b, r)
  {
    if r.Decoded? {
      assert a + (b + r.value) == (a + b) + r.value;
    }
  }

  /** `count` items in a row, each step yielding an item and where the next one starts. */
  function Repeat<T>(step: nat -> Decode<(T, nat)>, cursor: nat, count: nat): Decode<seq<T>>
    decreases count
  {
    if count == 0 then Decoded([])
    else match step(cursor)
      case Decoded((item, next)) => Prepend([item], Repeat(step, next, count - 1))
      case Invalid => Invalid
      case Abort => Abort
  }

  /** One more turn moves one item from the rest of the run to what has been read, or ends it. */
  lemma RepeatTurn<T>(step: nat -> Decode<(T, nat)>, front: seq<T>, cursor: nat, count: nat, turn: Decode<(T, nat)>,
                      whole: Decode<seq<T>>)
    requires count > 0 && turn == step(cursor) && whole == Prepend(front, Repeat(step, cursor, count))
    ensures turn.Decoded? ==> whole == Prepend(front + [turn.value.0], Repeat(step, turn.value.1, count - 1))
    ensures (turn.Invalid? ==> whole == Invalid) && (turn.Abort? ==> whole == Abort)
  {
    if turn.Decoded? {
      PrependTwice(front, [turn.value.0], Repeat(step, turn.value.1, count - 1));
    }
  }

  lemma RepeatEnds<T>(step: nat -> Decode<(T, nat)>, front: seq<T>, cursor: nat)
    ensures Prepend(front, Repeat(step, cursor, 0)) == Decoded(front)
  {
    assert front + [] == front;
  }

  /** If `part` sits at `c`, a step there yields `item` and moves past it. */
  ghost predicate ReadsAt<T>(step: nat -> Decode<(T, nat)>, part: seq<byte>, item: T, data: seq<byte>, c: nat) {
    c + |part| <= |data| && data[c..c + |part|] == part ==> step(c) == Decoded((item, c + |part|))
  }

  /** Wherever `part` sits in `data`, it is read as `item`. */
  ghost predicate Reads<T>(step: nat -> Decode<(T, nat)>, part: seq<byte>, item: T, data: seq<byte>) {
    forall c: nat :: ReadsAt(step, part, item, data, c)
  }

  lemma PartStep<T>(step: nat -> Decode<(T, nat)>, head: seq<byte>, parts: seq<seq<byte>>, item: T, data: seq<byte>, i: nat,
                    start: nat, end: nat)
    requires i < |parts| && data == head + Flatten(parts) && Reads(step, parts[i], item, data)
    requires start == |head| + |Flatten(parts[..i])| && end == |head| + |Flatten(parts[..i + 1])|
    ensures step(start) == Decoded((item, end))
  {
    PartSlice(head, parts, data, i, start, end);
    assert ReadsAt(step, parts[i], item, data, start);
  }

  lemma PartTurn<T>(step: nat -> Decode<(T, nat)>, head: seq<byte>, parts: seq<seq<byte>>, items: seq<T>, data: seq<byte>, i: nat,
                    start: nat, end: nat, whole: Decode<seq<T>>)
    requires i < |parts| == |items| && data == head + Flatten(parts) && Reads(step, parts[i], items[i], data)
    requires start == |head| + |Flatten(parts[..i])| && end == |head| + |Flatten(parts[..i + 1])|
    requires whole == Prepend(items[..i], Repeat(step, start, |items| - i))
    ensures whole == Prepend(items[..i + 1], Repeat(step, end, |items| - (i + 1)))
  {
    PartStep(step, head, parts, items[i], data, i, start, end);
    RepeatTurn(step, items[..i], start, |items| - i, Decoded((items[i], end)), whole);
    SplitAround(items, i);
  }

  /** Reading parts written one after the other: after `i` of them exactly the first `i` items have been read and the
      cursor is behind part `i`. */
  lemma {:induction false} PartsReadBack<T>(step: nat -> Decode<(T, nat)>, head: seq<byte>, parts: seq<seq<byte>>, items: seq<T>,
                                            data: seq<byte>, i: nat, cursor: nat)
    requires |items| == |parts| && i <= |items| && data == head + Flatten(parts)
    requires cursor == |head| + |Flatten(parts[..i])|
    requires forall k :: 0 <= k < |parts| ==> Reads(step, parts[k], items[k], data)
    ensures Repeat(step, |head|, |items|) == Prepend(items[..i], Repeat(step, cursor, |items| - i))
  {
    var whole := Repeat(step, |head|, |items|);
    if i == 0 {
      PrependNothing(whole);
    } else {
      var start := |head| + |Flatten(parts[..i - 1])|;
      PartsReadBack(step, head, parts, items, data, i - 1, start);
      PartTurn(step, head, parts, items, data, i - 1, start, cursor, whole);
    }
  }

  lemma AllPartsReadBack<T>(step: nat -> Decode<(T, nat)>, head: seq<byte>, parts: seq<seq<byte>>, items: seq<T>, data: seq<byte>)
    requires |items| == |parts| && data == head + Flatten(parts)
    requires forall k :: 0 <= k < |parts| ==> Reads(step, parts[k], items[k], data)
    ensures Repeat(step, |head|, |items|) == Decoded(items)
  {
    assert parts[..|parts|] == parts && items[..|items|] + [] == items;
    PartsReadBack(step, head, parts, items, data, |items|, |data|);
  }
}
