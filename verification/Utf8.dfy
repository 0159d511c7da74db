/** UTF-8 as aetherlock/src/unicode.c writes and measures it, against the table in section 3
    of RFC 3629. Shifts and masks are written as division and remainder: for an unsigned `c`,
    `c >> 6` is `c / 64`, `(c & 0x3f) | 0x80` is `0x80 + c % 64`, and `(b & 0xc0) == 0x80`
    says `b / 64 == 2`. */
module Utf8 {
  import opened Bytes

  function ChSize(ch: u32): (n: nat)
    ensures 1 <= n <= 4
  {
    if ch < 0x80 then 1 else if ch < 0x800 then 2 else if ch < 0x10000 then 3 else 4
  }

  function Continuation(x: u32): byte { 0x80 + x % 0x40 }

  /** The bytes of one character. Above U+1FFFFF the leading byte keeps only the low four bits
      of the shifted code point, as the C assignment to a char does. */
  function Encode(ch: u32): (s: seq<byte>)
    ensures |s| == ChSize(ch)
  {
    if ch < 0x80 then [ch]
    else if ch < 0x800 then [0xC0 + ch / 0x40, Continuation(ch)]
    else if ch < 0x10000 then [0xE0 + ch / 0x1000, Continuation(ch / 0x40), Continuation(ch)]
    else [0xF0 + ch / 0x40000 % 0x10, Continuation(ch / 0x1000), Continuation(ch / 0x40), Continuation(ch)]
  }

  /** The number a continuation byte adds. */
  function SixBits(b: byte): int { b as int - 0x80 }

  lemma SixBitGroup(ch: nat, d: nat)
    requires d in {1, 0x40, 0x1000}
    ensures ch / d == ch / (d * 0x40) * 0x40 + ch / d % 0x40
  {
    assert ch / d / 0x40 == ch / (d * 0x40);
  }

  lemma SixBitGroups(ch: nat)
    ensures ch == ch / 0x40 * 0x40 + ch % 0x40
    ensures ch == ch / 0x1000 * 0x1000 + ch / 0x40 % 0x40 * 0x40 + ch % 0x40
    ensures ch == ch / 0x40000 * 0x40000 + ch / 0x1000 % 0x40 * 0x1000 + ch / 0x40 % 0x40 * 0x40 + ch % 0x40
  {
    SixBitGroup(ch, 1);
    SixBitGroup(ch, 0x40);
    SixBitGroup(ch, 0x1000);
  }

  /** The bytes as section 3 of RFC 3629 lays them out: a mark and six-bit groups. */
  lemma EncodeLayout(ch: u32)
    ensures var s := Encode(ch); forall j :: 0 < j < |s| ==> 0x80 <= s[j] < 0xC0
    ensures var s := Encode(ch); ch < 0x80 ==> s == [ch]
    ensures var s := Encode(ch);
      0x80 <= ch < 0x800 ==> |s| == 2 && ch == (s[0] as int - 0xC0) * 0x40 + SixBits(s[1])
    ensures var s := Encode(ch);
      0x800 <= ch < 0x10000 ==>
        |s| == 3 && ch == (s[0] as int - 0xE0) * 0x1000 + SixBits(s[1]) * 0x40 + SixBits(s[2])
    ensures var s := Encode(ch);
      0x10000 <= ch < 0x400000 ==>
        |s| == 4 && ch == (s[0] as int - 0xF0) * 0x40000 + SixBits(s[1]) * 0x1000 + SixBits(s[2]) * 0x40 + SixBits(s[3])
  {
    SixBitGroups(ch);
  }

  predicate IsContinuation(b: byte) { b / 0x40 == 2 }

  function EncodeAll(cs: seq<u32>): seq<byte> {
    if cs == [] then [] else EncodeAll(cs[..|cs| - 1]) + Encode(cs[|cs| - 1])
  }

  /** The low byte of `c | first` for the leading-byte marks. */
  function WithMark(c: u32, first: byte): byte
    requires first in {0, 0xC0, 0xE0, 0xF0}
  {
    if first == 0 then c % 0x100
    else if first == 0xC0 then 0xC0 + c % 0x40
    else if first == 0xE0 then 0xE0 + c % 0x20
    else 0xF0 + c % 0x10
  }

  function Shifted(ch: u32, k: nat): u32 {
    if k == 0 then ch else if k == 1 then ch / 0x40 else if k == 2 then ch / 0x1000 else ch / 0x40000
  }

  lemma ShiftOnce(ch: u32, k: nat)
    requires k < 3
    ensures Shifted(ch, k) / 0x40 == Shifted(ch, k + 1)
  {
  }

  /** The bytes of a character in the form the loop computes them. */
  lemma EncodedBytes(ch: u32)
    ensures var n := ChSize(ch); var s := Encode(ch);
            && (forall j :: 0 < j < n ==> s[j] == Shifted(ch, n - 1 - j) % 0x40 + 0x80)
            && s[0] == WithMark(Shifted(ch, n - 1),
                                if n == 1 then 0 else if n == 2 then 0xC0 else if n == 3 then 0xE0 else 0xF0)
  {
    match ChSize(ch) {
      case 4 => assert Encode(ch)[1] == Shifted(ch, 2) % 0x40 + 0x80;
      case 3 => assert Encode(ch)[1] == Shifted(ch, 1) % 0x40 + 0x80;
      case _ =>
    }
  }

  lemma Splice(was: seq<byte>, now: seq<byte>, off: nat, mid: seq<byte>)
    requires off + |mid| <= |was| == |now|
    requires forall j :: 0 <= j < |mid| ==> now[off + j] == mid[j]
    requires forall j :: 0 <= j < |now| && !(off <= j < off + |mid|) ==> now[j] == was[j]
    ensures now == was[..off] + mid + was[off + |mid|..]
  {
    assert now[off..off + |mid|] == mid;
    assert now == now[..off] + now[off..off + |mid|] + now[off + |mid|..];
  }

  /** utf8_encode, writing at `off`: trailing bytes from the last to the second, then the
      leading one. */
  method WriteEncoded(a: array<byte>, off: nat, ch: u32) returns (len: nat)
    requires off + ChSize(ch) <= a.Length
    modifies a
    ensures len == ChSize(ch)
    ensures a[..] == old(a[..off]) + Encode(ch) + old(a[off + len..])
  {
    var first: byte;
    if ch < 0x80 {
      first, len := 0, 1;
    } else if ch < 0x800 {
      first, len := 0xC0, 2;
    } else if ch < 0x10000 {
      first, len := 0xE0, 3;
    } else {
      first, len := 0xF0, 4;
    }
    ghost var was := a[..];
    EncodedBytes(ch);
    var c: u32, i := ch, len - 1;
    while i > 0
      invariant 0 <= i < len
      invariant c == Shifted(ch, len - 1 - i)
      invariant forall j :: i < j < len ==> a[off + j] == Encode(ch)[j]
      invariant forall j :: 0 <= j < a.Length && !(off + i < j < off + len) ==> a[j] == was[j]
    {
      a[off + i] := c % 0x40 + 0x80;
      ShiftOnce(ch, len - 1 - i);
      c := c / 0x40;
      i := i - 1;
    }
    a[off] := WithMark(c, first);
    Splice(was, a[..], off, Encode(ch));
  }

  // ---- decoding

  /** utf8_size: the length announced by a leading byte, -1 for a continuation byte. The rows
      of the C table are (mask, result) pairs, searched in order. */
  function SizeFromLead(c: byte): int {
    if c / 0x80 == 0 then 1
    else if c / 0x20 == 6 then 2
    else if c / 0x10 == 14 then 3
    else if c / 0x08 == 30 then 4
    else if c / 0x04 == 62 then 5
    else if c / 0x02 == 124 then 6
    else -1
  }

  /** The row for six bytes repeats a case of the row for five, so it is never reached; the others
      cover consecutive ranges. */
  lemma NeverSix(c: byte)
    ensures SizeFromLead(c) != 6
    ensures SizeFromLead(c) == -1 <==> 0x80 <= c < 0xC0 || c >= 0xFC
    ensures SizeFromLead(c) == 1 <==> c < 0x80
    ensures SizeFromLead(c) == 2 <==> 0xC0 <= c < 0xE0
    ensures SizeFromLead(c) == 3 <==> 0xE0 <= c < 0xF0
    ensures SizeFromLead(c) == 4 <==> 0xF0 <= c < 0xF8
    ensures SizeFromLead(c) == 5 <==> 0xF8 <= c < 0xFC
  {
  }

  /** The leading byte announces the true length exactly when bit 21 of a four-byte character
      is clear, in particular for every code point of RFC 3629. */
  lemma LeadAnnouncesSize(ch: u32)
    ensures SizeFromLead(Encode(ch)[0]) == |Encode(ch)| <==> ch < 0x10000 || ch / 0x200000 % 2 == 0
  {
    if ch >= 0x10000 {
      assert ch / 0x40000 % 0x10 >= 8 <==> ch / 0x200000 % 2 == 1;
    }
  }

  /** The bits of a leading byte of an `n`-byte character. */
  function LeadBits(b: byte, n: nat): nat {
    b % (if n == 2 then 0x20 else if n == 3 then 0x10 else 0x08)
  }

  function AddPayload(acc: nat, tail: seq<byte>): nat
    decreases |tail|
  {
    if tail == [] then acc else AddPayload(acc * 0x40 + tail[0] % 0x40, tail[1..])
  }

  /** The character at the front of a string, as RFC 3629 reads it. */
  function Decode(s: seq<byte>): nat
    requires |s| >= 1
  {
    var n := SizeFromLead(s[0]);
    if n == 1 then s[0]
    else if 2 <= n <= 4 && |s| >= n then AddPayload(LeadBits(s[0], n), s[1..n])
    else 0
  }

  /** The last `k` bytes of a character. */
  ghost function Tail(ch: u32, k: nat): seq<byte>
    requires k < 4
  {
    if k == 0 then [] else [Continuation(Shifted(ch, k - 1))] + Tail(ch, k - 1)
  }

  lemma {:induction false} TailPayload(ch: u32, k: nat)
    requires k < 4
    ensures AddPayload(Shifted(ch, k), Tail(ch, k)) == ch
  {
    if k > 0 {
      ShiftOnce(ch, k - 1);
      assert Tail(ch, k)[1..] == Tail(ch, k - 1);
      TailPayload(ch, k - 1);
    }
  }

  lemma EncodeTail(ch: u32)
    ensures Encode(ch)[1..] == Tail(ch, ChSize(ch) - 1)
  {
    assert Tail(ch, 0) == [];
    assert Tail(ch, 1) == [Continuation(ch)];
    assert Tail(ch, 2) == [Continuation(ch / 0x40), Continuation(ch)];
    assert Tail(ch, 3) == [Continuation(ch / 0x1000), Continuation(ch / 0x40), Continuation(ch)];
  }

  lemma LeadSize(ch: u32)
    requires ch < 0x200000
    ensures var b, n := Encode(ch)[0], ChSize(ch);
            SizeFromLead(b) == n && (n > 1 ==> LeadBits(b, n) == Shifted(ch, n - 1))
  {
    LeadAnnouncesSize(ch);
    assert ch / 0x200000 == 0;
  }

  lemma DecodeEncode(ch: u32, rest: seq<byte>)
    requires ch < 0x200000
    ensures Decode(Encode(ch) + rest) == ch
  {
    var s, n := Encode(ch) + rest, ChSize(ch);
    LeadSize(ch);
    if n > 1 {
      EncodeTail(ch);
      assert s[1..n] == Encode(ch)[1..];
      TailPayload(ch, n - 1);
    }
  }

  function DecodeAll(s: seq<byte>): seq<nat> {
    if s == [] then []
    else
      var n := SizeFromLead(s[0]);
      if 1 <= n <= |s| then [Decode(s)] + DecodeAll(s[n..]) else []
  }

  lemma {:induction false} EncodeAllFront(cs: seq<u32>)
    requires cs != []
    ensures EncodeAll(cs) == Encode(cs[0]) + EncodeAll(cs[1..])
  {
    var k := |cs| - 1;
    if k > 0 {
      EncodeAllFront(cs[..k]);
      assert cs[..k][1..] == cs[1..][..k - 1];
    }
  }

  /** Reading back a string of characters: nothing is lost and no boundary is mistaken. */
  lemma {:induction false} DecodeEncodeAll(cs: seq<u32>)
    requires forall i :: 0 <= i < |cs| ==> cs[i] < 0x200000
    ensures DecodeAll(EncodeAll(cs)) == cs
  {
    if cs != [] {
      EncodeAllFront(cs);
      DecodeEncode(cs[0], EncodeAll(cs[1..]));
      LeadAnnouncesSize(cs[0]);
      DecodeEncodeAll(cs[1..]);
      assert EncodeAll(cs)[ChSize(cs[0])..] == EncodeAll(cs[1..]);
    }
  }

  // ---- the last character

  /** utf8_last_size on the bytes before the terminator: back to the nearest byte that starts a
      character, 0 if there is none. */
  function LastSize(s: seq<byte>): (n: nat)
    ensures n <= |s|
  {
    if s == [] then 0
    else if !IsContinuation(s[|s| - 1]) then 1
    else var n := LastSize(s[..|s| - 1]); if n == 0 then 0 else n + 1
  }

  lemma EncodingShape(ch: u32)
    ensures !IsContinuation(Encode(ch)[0])
    ensures forall j :: 0 < j < ChSize(ch) ==> IsContinuation(Encode(ch)[j])
    ensures ch != 0 ==> forall b :: b in Encode(ch) ==> b != 0
  {
  }

  lemma {:induction false} LastSizeSkips(prefix: seq<byte>, lead: byte, tail: seq<byte>)
    requires !IsContinuation(lead) && forall b :: b in tail ==> IsContinuation(b)
    ensures LastSize(prefix + [lead] + tail) == |tail| + 1
  {
    var s := prefix + [lead] + tail;
    if tail != [] {
      assert s[..|s| - 1] == prefix + [lead] + tail[..|tail| - 1];
      LastSizeSkips(prefix, lead, tail[..|tail| - 1]);
      assert tail[|tail| - 1] in tail;
    }
  }

  /** Whatever comes before it, the last character's size is recovered. */
  lemma LastSizeOfEncoding(prefix: seq<byte>, ch: u32)
    ensures LastSize(prefix + Encode(ch)) == ChSize(ch)
  {
    EncodingShape(ch);
    var e := Encode(ch);
    assert prefix + e == prefix + [e[0]] + e[1..];
    LastSizeSkips(prefix, e[0], e[1..]);
  }

  lemma {:induction false} NoZeroByte(cs: seq<u32>)
    requires forall i :: 0 <= i < |cs| ==> cs[i] != 0
    ensures 0 !in EncodeAll(cs)
  {
    if cs != [] {
      NoZeroByte(cs[..|cs| - 1]);
      EncodingShape(cs[|cs| - 1]);
    }
  }

  /** utf8_last_size: find the terminator, then walk back. */
  method MeasureLast(a: array<byte>) returns (len: nat)
    requires 0 in a[..]
    ensures exists z :: 0 <= z < a.Length && a[z] == 0 && 0 !in a[..z] && len == LastSize(a[..z])
  {
    var end := 0;
    while a[end] != 0
      invariant 0 <= end < a.Length && 0 !in a[..end]
      invariant 0 in a[end..]
      decreases a.Length - end
    {
      assert a[end..] == [a[end]] + a[end + 1..];
      assert a[..end + 1] == a[..end] + [a[end]];
      end := end + 1;
    }
    len := 0;
    var pos := end;
    while pos > 0
      invariant 0 <= pos <= end && len == end - pos
      invariant LastSize(a[..end]) == if LastSize(a[..pos]) == 0 then 0 else LastSize(a[..pos]) + len
    {
      assert a[..pos][..pos - 1] == a[..pos - 1];
      pos, len := pos - 1, len + 1;
      if !IsContinuation(a[pos]) {
        return;
      }
    }
    len := 0;
  }
}
