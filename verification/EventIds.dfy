/**
 Event ids: UUIDs of version 7 (RFC 9562) whose `rand_a` field counts within the millisecond
 (section 6.2, method 1), and which borrow the next millisecond once 4096 are used.
 */
module EventIds {
  import opened Arithmetic
  import opened Wrappers
  import Text

  const SEQUENCE_MAX: nat := 0xfff
  const PER_MS: nat := 4096
  const MS_LIMIT: nat := 0x1_0000_0000_0000

  // ---------- The counter ----------

  /** The two module variables of the generator. */
  datatype Stamp = Stamp(ms: nat, sequence: nat)

  predicate InRange(st: Stamp) {
    st.sequence <= SEQUENCE_MAX
  }

  /** The stamp as one number; later ids have larger ones. */
  function Value(st: Stamp): nat {
    st.ms * PER_MS + st.sequence
  }

  function NextStamp(st: Stamp, now: int): Stamp {
    if now > st.ms then Stamp(now, 0)
    else if st.sequence < SEQUENCE_MAX then Stamp(st.ms, st.sequence + 1)
    else Stamp(st.ms + 1, 0)
  }

  /** The stamps of successive calls that read the clock as `nows`. */
  function Stamps(st: Stamp, nows: seq<int>): (r: seq<Stamp>)
    ensures |r| == |nows|
    decreases |nows|
  {
    if nows == [] then [] else [NextStamp(st, nows[0])] + Stamps(NextStamp(st, nows[0]), nows[1..])
  }

  /** The largest clock reading, or 0 when the clock never passed it. */
  function Latest(nows: seq<int>): (m: nat)
    ensures forall i :: 0 <= i < |nows| ==> nows[i] <= m
  {
    if nows == [] then 0
    else
      var rest := Latest(nows[1..]);
      if nows[0] > rest then nows[0] else rest
  }

  /** Under any clock, one that goes backwards included, the ids of a process strictly increase. */
  lemma {:induction false} StampsIncrease(st: Stamp, nows: seq<int>, i: nat, j: nat)
    requires InRange(st) && i < j < |nows|
    ensures Value(st) < Value(Stamps(st, nows)[i]) < Value(Stamps(st, nows)[j])
    ensures InRange(Stamps(st, nows)[i]) && InRange(Stamps(st, nows)[j])
    decreases |nows|
  {
    var next := NextStamp(st, nows[0]);
    if i > 0 {
      StampsIncrease(next, nows[1..], i - 1, j - 1);
    } else if j > 1 {
      StampsIncrease(next, nows[1..], 0, j - 1);
    } else {
      assert Stamps(st, nows)[1] == NextStamp(next, nows[1]);
    }
  }

  /** The counter gains at most one over the clock with every call. */
  lemma {:induction false} ValueStaysNear(st: Stamp, nows: seq<int>, bound: nat)
    requires InRange(st) && Value(st) <= bound
    requires forall i :: 0 <= i < |nows| ==> nows[i] * PER_MS <= bound
    ensures forall i :: 0 <= i < |nows| ==>
              InRange(Stamps(st, nows)[i]) && Value(Stamps(st, nows)[i]) <= bound + i + 1
    decreases |nows|
  {
    if nows != [] {
      var next := NextStamp(st, nows[0]);
      assert forall i :: 0 <= i < |nows[1..]| ==> nows[1..][i] == nows[i + 1];
      ValueStaysNear(next, nows[1..], bound + 1);
      var all := Stamps(st, nows);
      assert all[0] == next;
      assert forall i :: 1 <= i < |nows| ==> all[i] == Stamps(next, nows[1..])[i - 1];
    }
  }

  /**
   After `k` calls from start-up the timestamp is at most `k / 4096` milliseconds ahead of the
   largest clock reading.
   */
  lemma DriftIsBounded(nows: seq<int>)
    requires nows != []
    ensures Stamps(Stamp(0, 0), nows)[|nows| - 1].ms <= Latest(nows) + |nows| / PER_MS
  {
    var k := |nows|;
    var latest := Latest(nows);
    ValueStaysNear(Stamp(0, 0), nows, latest * PER_MS);
    var last := Stamps(Stamp(0, 0), nows)[k - 1];
    assert last.ms * PER_MS <= latest * PER_MS + k;
  }

  // ---------- Packing ----------

  /** Bitwise or, and bitwise and, of non-negative integers. */
  function BitOr(a: nat, b: nat): nat {
    if a == 0 && b == 0 then 0
    else 2 * BitOr(a / 2, b / 2) + if a % 2 == 1 || b % 2 == 1 then 1 else 0
  }

  function BitAnd(a: nat, b: nat): nat {
    if a == 0 || b == 0 then 0
    else 2 * BitAnd(a / 2, b / 2) + if a % 2 == 1 && b % 2 == 1 then 1 else 0
  }

  lemma {:induction false} OrOfZero(b: nat)
    ensures BitOr(0, b) == b
  {
    if b > 0 {
      OrOfZero(b / 2);
    }
  }

  /** Setting bits above `b` adds them. */
  lemma {:induction false} OrAdds(high: nat, b: nat, n: nat)
    requires b < Pow2(n)
    ensures BitOr(high * Pow2(n), b) == high * Pow2(n) + b
  {
    if high == 0 {
      OrOfZero(b);
    } else if n == 0 {
      OrWithZero(high);
    } else {
      var a := high * Pow2(n);
      assert a == 2 * (high * Pow2(n - 1));
      OrAdds(high, b / 2, n - 1);
    }
  }

  lemma {:induction false} OrWithZero(a: nat)
    ensures BitOr(a, 0) == a
  {
    if a > 0 {
      OrWithZero(a / 2);
    }
  }

  lemma {:induction false} MaskHalves(n: nat)
    requires n > 0
    ensures Pow2(n) == 2 * Pow2(n - 1)
    ensures Pow2(n) - 1 > 0 && (Pow2(n) - 1) / 2 == Pow2(n - 1) - 1 && (Pow2(n) - 1) % 2 == 1
  {
    HalfOfOdd(Pow2(n - 1) - 1);
  }

  lemma {:induction false} HalfOfOdd(h: nat)
    ensures (2 * h + 1) / 2 == h && (2 * h + 1) % 2 == 1
  {
  }

  lemma {:induction false} AndOfOdd(a: nat, b: nat)
    requires a > 0 && b > 0 && b % 2 == 1
    ensures BitAnd(a, b) == 2 * BitAnd(a / 2, b / 2) + a % 2
  {
  }

  function Mask(n: nat): nat {
    Pow2(n) - 1
  }

  function LowBits(a: nat, n: nat): nat {
    a % Pow2(n)
  }

  lemma {:induction false} MaskOneBit(a: nat, n: nat)
    requires a > 0 && n > 0
    ensures BitAnd(a, Mask(n)) == 2 * BitAnd(a / 2, Mask(n - 1)) + a % 2
  {
    MaskHalves(n);
    AndOfOdd(a, Mask(n));
  }

  lemma {:induction false} LowOneBit(a: nat, n: nat)
    requires n > 0
    ensures LowBits(a, n) == 2 * LowBits(a / 2, n - 1) + a % 2
  {
    HalfOfRemainder(a, Pow2(n - 1));
  }

  lemma {:induction false} NoLowBits(n: nat)
    ensures LowBits(0, n) == 0
  {
    RemainderIs(0, Pow2(n), 0, 0);
  }

  lemma {:induction false} MaskIsLowBits(a: nat, n: nat)
    ensures BitAnd(a, Mask(n)) == LowBits(a, n)
  {
    if n == 0 {
      assert Pow2(0) == 1;
    } else if a > 0 {
      MaskOneBit(a, n);
      LowOneBit(a, n);
      MaskIsLowBits(a / 2, n - 1);
    } else {
      NoLowBits(n);
    }
  }

  /** A mask of `n` ones keeps the low `n` bits. */
  lemma {:induction false} AndKeepsLow(a: nat, n: nat)
    ensures BitAnd(a, Pow2(n) - 1) == a % Pow2(n)
  {
    MaskIsLowBits(a, n);
  }

  lemma HalfOfRemainder(a: nat, p: nat)
    requires p > 0
    ensures a % (2 * p) == 2 * ((a / 2) % p) + a % 2
  {
    var h := a / 2;
    var q := h / p;
    assert h == q * p + h % p;
    assert a == q * (2 * p) + (2 * (h % p) + a % 2);
    RemainderIs(a, 2 * p, q, 2 * (h % p) + a % 2);
  }

  lemma RemainderIs(a: nat, d: nat, q: nat, r: nat)
    requires a == q * d + r && r < d
    ensures a % d == r
  {
    var e := a / d - q;
    assert a == (a / d) * d + a % d;
    assert e * d == r - a % d;
    MultipleIsFar(e, d);
  }

  lemma MultipleIsFar(e: int, d: int)
    requires d > 0
    ensures e >= 1 ==> e * d >= d
    ensures e <= -1 ==> e * d <= -d
  {
  }

  predicate IsBytes(s: seq<nat>) {
    forall i :: 0 <= i < |s| ==> s[i] < 256
  }

  /** The bytes of an id: 48 bits of time, the version, the counter, the variant, random bits. */
  ghost predicate IsPacked(bytes: seq<nat>, st: Stamp, random: seq<nat>) {
    && |bytes| == |random| == 16 && IsBytes(bytes)
    && Unsigned(bytes[..6]) == st.ms
    && bytes[6] == 0x70 + st.sequence / 256
    && bytes[7] == st.sequence % 256
    && bytes[8] == 0x80 + random[8] % 64
    && bytes[9..] == random[9..]
  }

  /** Big-endian reading of bytes. */
  function Unsigned(bytes: seq<nat>): nat {
    if bytes == [] then 0 else Unsigned(bytes[..|bytes| - 1]) * 256 + bytes[|bytes| - 1]
  }

  /** What a reader of the id finds: the time, the counter, version 7 and the variant 10. */
  lemma PackedDecodes(bytes: seq<nat>, st: Stamp, random: seq<nat>)
    requires IsPacked(bytes, st, random) && InRange(st) && IsBytes(random)
    ensures Unsigned(bytes[..6]) == st.ms
    ensures BitAnd(bytes[6], 0xf) * 256 + bytes[7] == st.sequence
    ensures bytes[6] / 16 == 7
    ensures bytes[8] / 64 == 2
  {
    assert Pow2(4) == 16;
    AndKeepsLow(bytes[6], 4);
  }

  // ---------- The text ----------

  function Digit(n: nat): char
    requires n < 16
  {
    if n < 10 then '0' + n as char else 'a' + (n - 10) as char
  }

  function Hex(bytes: seq<nat>): (text: string)
    requires IsBytes(bytes)
    ensures |text| == 2 * |bytes|
  {
    if bytes == [] then ""
    else
      var last := bytes[|bytes| - 1];
      Hex(bytes[..|bytes| - 1]) + [Digit(last / 16), Digit(last % 16)]
  }

  function Dashed(hex: string): (text: string)
    requires |hex| == 32
  {
    hex[..8] + "-" + hex[8..12] + "-" + hex[12..16] + "-" + hex[16..20] + "-" + hex[20..]
  }

  lemma {:induction false} HexOfOneMore(front: seq<nat>, last: nat)
    requires IsBytes(front + [last])
    ensures IsBytes(front) && last < 256
    ensures Hex(front + [last]) == Hex(front) + [Digit(last / 16), Digit(last % 16)]
  {
    assert (front + [last])[..|front|] == front && (front + [last])[|front|] == last;
    assert forall i :: 0 <= i < |front| ==> (front + [last])[i] == front[i];
  }

  lemma {:induction false} DigitsDiffer(x: nat, y: nat)
    requires x < y < 256
    ensures Digit(x / 16) < Digit(y / 16) || (x / 16 == y / 16 && Digit(x % 16) < Digit(y % 16))
  {
  }

  /** Two byte strings of one length print in the order of their first difference. */
  lemma {:induction false} HexDiffers(a: seq<nat>, b: seq<nat>) returns (k: nat)
    requires IsBytes(a) && IsBytes(b) && |a| == |b| && Unsigned(a) < Unsigned(b)
    ensures k < 2 * |a|
    ensures Hex(a)[..k] == Hex(b)[..k] && Hex(a)[k] < Hex(b)[k]
  {
    var n := |a| - 1;
    var a', b' := a[..n], b[..n];
    assert a == a' + [a[n]] && b == b' + [b[n]];
    HexOfOneMore(a', a[n]);
    HexOfOneMore(b', b[n]);
    if Unsigned(a') < Unsigned(b') {
      k := HexDiffers(a', b');
      assert Hex(a)[..k] == Hex(a')[..k] && Hex(b)[..k] == Hex(b')[..k];
    } else {
      SameNumberSameBytes(a', b');
      DigitsDiffer(a[n], b[n]);
      k := if a[n] / 16 < b[n] / 16 then 2 * n else 2 * n + 1;
    }
  }

  lemma {:induction false} SameNumberSameBytes(a: seq<nat>, b: seq<nat>)
    requires IsBytes(a) && IsBytes(b) && |a| == |b| && Unsigned(a) == Unsigned(b)
    ensures a == b
  {
    if a != [] {
      var n := |a| - 1;
      SameNumberSameBytes(a[..n], b[..n]);
      assert a == a[..n] + [a[n]] && b == b[..n] + [b[n]];
    }
  }

  lemma {:induction false} HexOfParts(a: seq<nat>, b: seq<nat>)
    requires IsBytes(a) && IsBytes(b)
    ensures Hex(a + b) == Hex(a) + Hex(b)
  {
    if b == [] {
      assert a + b == a;
    } else {
      var n := |b| - 1;
      assert (a + b)[..|a + b| - 1] == a + b[..n];
      HexOfParts(a, b[..n]);
    }
  }

  lemma {:induction false} UnsignedOfTwoMore(head: seq<nat>, x: nat, y: nat)
    ensures Unsigned(head + [x, y]) == Unsigned(head) * 65536 + x * 256 + y
  {
    assert (head + [x, y])[..|head| + 1] == head + [x];
    assert (head + [x])[..|head|] == head;
  }

  /**
   The text of two ids sorts as their stamps do, whatever their random bits: an id made later by
   the process sorts after one made earlier.
   */
  lemma TextSortsByStamp(a: seq<nat>, b: seq<nat>, sa: Stamp, sb: Stamp, ra: seq<nat>, rb: seq<nat>)
    requires IsPacked(a, sa, ra) && IsPacked(b, sb, rb) && InRange(sa) && InRange(sb)
    requires Value(sa) < Value(sb)
    ensures Text.Less(Dashed(Hex(a)), Dashed(Hex(b)))
  {
    FirstHalfIsStamp(a, sa, ra);
    FirstHalfIsStamp(b, sb, rb);
    StampOrder(sa, sb);
    var k := HexDiffers(a[..8], b[..8]);
    FirstHalfOfHex(a);
    FirstHalfOfHex(b);
    DashesKeepDifference(Hex(a), Hex(b), k);
  }

  /** Time, version and counter as one number. */
  function StampNumber(st: Stamp): nat {
    st.ms * 65536 + 0x7000 + st.sequence
  }

  lemma {:induction false} StampOrder(sa: Stamp, sb: Stamp)
    requires InRange(sa) && InRange(sb) && Value(sa) < Value(sb)
    ensures StampNumber(sa) < StampNumber(sb)
  {
    assert sa.ms < sb.ms || (sa.ms == sb.ms && sa.sequence < sb.sequence);
  }

  lemma {:induction false} FirstHalfIsStamp(a: seq<nat>, sa: Stamp, ra: seq<nat>)
    requires IsPacked(a, sa, ra) && InRange(sa)
    ensures Unsigned(a[..8]) == StampNumber(sa)
  {
    assert a[..8] == a[..6] + [a[6], a[7]];
    UnsignedOfTwoMore(a[..6], a[6], a[7]);
  }

  lemma {:induction false} FirstHalfOfHex(a: seq<nat>)
    requires |a| == 16 && forall i :: 0 <= i < 16 ==> a[i] < 256
    ensures |Hex(a)| == 32 && |Hex(a[..8])| == 16 && Hex(a)[..16] == Hex(a[..8])
  {
    assert a == a[..8] + a[8..];
    HexOfParts(a[..8], a[8..]);
  }

  /** Where a digit of the first half stands in the dashed text. */
  function DashedAt(k: nat): nat {
    if k < 8 then k else if k < 12 then k + 1 else k + 2
  }

  lemma {:induction false} DashedDigit(hex: string, k: nat)
    requires |hex| == 32 && k < 16
    ensures |Dashed(hex)| == 36 && Dashed(hex)[DashedAt(k)] == hex[k]
    ensures Dashed(hex)[8] == '-' && Dashed(hex)[13] == '-'
  {
  }

  lemma {:induction false} DashesKeepDifference(ha: string, hb: string, k: nat)
    requires |ha| == |hb| == 32 && k < 16
    requires ha[..16][..k] == hb[..16][..k] && ha[k] < hb[k]
    ensures Text.Less(Dashed(ha), Dashed(hb))
  {
    var da, db, at := Dashed(ha), Dashed(hb), DashedAt(k);
    DashedDigit(ha, k);
    DashedDigit(hb, k);
    forall i | 0 <= i < at
      ensures da[i] == db[i]
    {
      if i != 8 && i != 13 {
        var j := if i < 8 then i else if i < 13 then i - 1 else i - 2;
        DashedDigit(ha, j);
        DashedDigit(hb, j);
        assert ha[j] == ha[..16][..k][j] && hb[j] == hb[..16][..k][j];
      }
    }
    assert da[..at] == db[..at];
    Text.LessAt(da, db, at);
  }

  // ---------- The generator ----------

  datatype IdError = TimestampTooLarge

  class EventIdSource {
    var lastMs: nat
    var sequence: nat

    ghost predicate Valid()
      reads this
    {
      InRange(Stamp(lastMs, sequence))
    }

    function Last(): Stamp
      reads this
    {
      Stamp(lastMs, sequence)
    }

    constructor ()
      ensures Valid() && Last() == Stamp(0, 0)
    {
      lastMs, sequence := 0, 0;
    }

    /**
     A new id from the clock's reading and 16 random bytes. The counter moves even when the time no
     longer fits in 48 bits, where writing it fails.
     */
    method NewEventId(now: int, random: seq<nat>) returns (id: Result<string, IdError>, ghost bytes: seq<nat>)
      requires Valid() && |random| == 16 && IsBytes(random)
      modifies this
      ensures Valid()
      ensures Last() == NextStamp(old(Last()), now)
      ensures lastMs < MS_LIMIT ==> IsPacked(bytes, Last(), random) && id == Ok(Dashed(Hex(bytes)))
      ensures lastMs >= MS_LIMIT ==> id == Err(TimestampTooLarge)
    {
      if now > lastMs {
        lastMs := now;
        sequence := 0;
      } else if sequence < SEQUENCE_MAX {
        sequence := sequence + 1;
      } else {
        lastMs := lastMs + 1;
        sequence := 0;
      }
      bytes := [];
      if lastMs >= MS_LIMIT {
        return Err(TimestampTooLarge), bytes;
      }
      var buffer := new nat[16](i requires 0 <= i < 16 => random[i]);
      assert buffer[..] == random;
      Pack(buffer, lastMs, sequence);
      bytes := buffer[..];
      id := Ok(Dashed(Hex(buffer[..])));
    }
  }

  /** Writes the time, the version, the counter and the variant over sixteen random bytes. */
  method Pack(buffer: array<nat>, ms: nat, sequence: nat)
    requires buffer.Length == 16 && IsBytes(buffer[..]) && ms < MS_LIMIT && sequence <= SEQUENCE_MAX
    modifies buffer
    ensures IsPacked(buffer[..], Stamp(ms, sequence), old(buffer[..]))
  {
    ghost var random := buffer[..];
    WriteUIntBE(buffer, ms);
    ghost var timed := buffer[..];
    assert timed[6..] == random[6..];
    assert buffer[8] == timed[6..][2] == random[8];
    VersionAndVariant(sequence, buffer[8]);
    buffer[6] := BitOr(0x70, sequence / 256);
    buffer[7] := BitAnd(sequence, 0xff);
    buffer[8] := BitOr(BitAnd(buffer[8], 0x3f), 0x80);
    assert buffer[..6] == timed[..6];
    assert buffer[9..] == timed[6..][3..] == random[9..];
  }

  lemma VersionAndVariant(sequence: nat, b: nat)
    requires sequence <= SEQUENCE_MAX && b < 256
    ensures BitOr(0x70, sequence / 256) == 0x70 + sequence / 256
    ensures BitAnd(sequence, 0xff) == sequence % 256
    ensures BitOr(BitAnd(b, 0x3f), 0x80) == 0x80 + b % 64
  {
    assert Pow2(4) == 16 && Pow2(6) == 64;
    assert Pow2(7) == 2 * Pow2(6) && Pow2(8) == 2 * Pow2(7);
    OrAdds(7, sequence / 256, 4);
    AndKeepsLow(sequence, 8);
    AndKeepsLow(b, 6);
    OrAdds(2, b % 64, 6);
    OrCommutes(0x80, b % 64);
  }

  lemma {:induction false} OrCommutes(a: nat, b: nat)
    ensures BitOr(a, b) == BitOr(b, a)
  {
    if a > 0 || b > 0 {
      OrCommutes(a / 2, b / 2);
    }
  }

  function Pow256(n: nat): (p: nat)
    ensures p >= 1
  {
    if n == 0 then 1 else 256 * Pow256(n - 1)
  }

  /** The low `n` bytes of a number, most significant first. */
  function BigEndian(value: nat, n: nat): (bytes: seq<nat>)
    ensures |bytes| == n && IsBytes(bytes)
  {
    if n == 0 then [] else BigEndian(value / 256, n - 1) + [value % 256]
  }

  lemma {:induction false} BigEndianReadsBack(value: nat, n: nat)
    requires value < Pow256(n)
    ensures Unsigned(BigEndian(value, n)) == value
  {
    if n > 0 {
      var bytes := BigEndian(value, n);
      assert bytes[..n - 1] == BigEndian(value / 256, n - 1);
      BigEndianReadsBack(value / 256, n - 1);
    }
  }

  /** Writes the low 48 bits of `value` into the first six bytes, most significant first. */
  method WriteUIntBE(buffer: array<nat>, value: nat)
    requires buffer.Length == 16 && value < MS_LIMIT
    requires IsBytes(buffer[..])
    modifies buffer
    ensures IsBytes(buffer[..])
    ensures Unsigned(buffer[..6]) == value
    ensures buffer[6..] == old(buffer[6..])
  {
    var rest: nat := value;
    var i := 6;
    assert BigEndian(value, 6) == BigEndian(rest, 6) + buffer[6..6];
    while i > 0
      invariant 0 <= i <= 6
      invariant buffer[6..] == old(buffer[6..])
      invariant BigEndian(value, 6) == BigEndian(rest, i) + buffer[i..6]
    {
      ghost var tail := buffer[i..6];
      i := i - 1;
      buffer[i] := rest % 256;
      assert buffer[i..6] == [buffer[i]] + tail;
      rest := rest / 256;
    }
    assert buffer[..6] == BigEndian(value, 6);
    assert buffer[..] == buffer[..6] + buffer[6..];
    assert Pow256(6) == 256 * (256 * (256 * (256 * (256 * (256 * Pow256(0))))));
    BigEndianReadsBack(value, 6);
  }
}
