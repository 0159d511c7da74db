/** The numbers of seconds in the idle daemon's arguments (aetheridle/main.c:729-752): what
    strtoul reads, which words are accepted, and what timeout they give. */
module IdleSeconds {
  import opened Collections

  const TWO32: int := 0x1_0000_0000
  const TWO64: int := 0x1_0000_0000_0000_0000

  // ---- strtoul

  predicate IsSpace(c: char) { c == ' ' || ('\t' <= c <= '\r') }

  predicate IsDigit(c: char) { '0' <= c <= '9' }

  predicate IsSign(c: char) { c == '+' || c == '-' }

  function DropSpaces(s: string): string {
    if s != "" && IsSpace(s[0]) then DropSpaces(s[1..]) else s
  }

  predicate AllDigits(s: string) {
    forall i :: 0 <= i < |s| ==> IsDigit(s[i])
  }

  function CountDigits(s: string): (n: nat)
    ensures n <= |s|
  {
    if s != "" && IsDigit(s[0]) then 1 + CountDigits(s[1..]) else 0
  }

  function DigitOf(c: char): nat { if IsDigit(c) then c as int - '0' as int else 0 }

  function Value(s: string): nat {
    if s == "" then 0 else 10 * Value(s[..|s| - 1]) + DigitOf(s[|s| - 1])
  }

  /** Digits count ten times as much with every digit behind them. */
  lemma ValueIsDecimal(s: string, c: char)
    requires '0' <= c <= '9'
    ensures Value("") == 0 && Value(s + [c]) == 10 * Value(s) + (c as int - '0' as int)
  {
    assert (s + [c])[..|s|] == s;
  }

  /** Value, where conversion stopped, and whether it was out of range. Without digits nothing is
      consumed. */
  datatype Number = Number(value: nat, rest: string, outOfRange: bool)

  function Strtoul(s: string): Number {
    var t := DropSpaces(s);
    var u := if t != "" && IsSign(t[0]) then t[1..] else t;
    var n := CountDigits(u);
    if n == 0 then Number(0, s, false)
    else if Value(u[..n]) >= TWO64 then Number(TWO64 - 1, u[n..], true)
    else Number(if t[0] == '-' then (TWO64 - Value(u[..n])) % TWO64 else Value(u[..n]), u[n..], false)
  }

  /** Conversion of an unsigned long to int. */
  function ToInt(v: int): (r: int)
    ensures -0x8000_0000 <= r < 0x8000_0000
  {
    if v % TWO32 < 0x8000_0000 then v % TWO32 else v % TWO32 - TWO32
  }

  function Seconds(s: string): Maybe<int> {
    var n := Strtoul(s);
    if n.outOfRange || n.rest != "" then None else Some(ToInt(n.value))
  }

  function Millis(seconds: int): int {
    if seconds > 0 then ToInt(seconds * 1000) else -1
  }

  // ---- what a number of seconds may look like

  /** White space, an optional sign and digits, with nothing behind them. */
  predicate Spelled(w: string, spaces: string, sign: string, digits: string) {
    && w == spaces + sign + digits && (forall i :: 0 <= i < |spaces| ==> IsSpace(spaces[i]))
    && sign in ["", "+", "-"] && digits != "" && AllDigits(digits)
  }

  lemma SpelledMeans(w: string, spaces: string, sign: string, digits: string)
    ensures Spelled(w, spaces, sign, digits)
       <==> && w == spaces + sign + digits && (sign == "" || sign == "+" || sign == "-") && |digits| > 0
            && (forall i :: 0 <= i < |spaces| ==> spaces[i] == ' ' || '\t' <= spaces[i] <= '\r')
            && (forall i :: 0 <= i < |digits| ==> '0' <= digits[i] <= '9')
  {
  }

  function Worth(sign: string, digits: string): int {
    var value: int := Value(digits);
    if sign == "-" then -value else value
  }

  lemma {:induction false} CountAll(s: string)
    requires AllDigits(s)
    ensures CountDigits(s) == |s|
  {
    if s != "" {
      assert forall i :: 0 <= i < |s[1..]| ==> s[1..][i] == s[i + 1];
      CountAll(s[1..]);
    }
  }

  lemma {:induction false} DropsSpaces(spaces: string, t: string)
    requires forall i :: 0 <= i < |spaces| ==> IsSpace(spaces[i])
    requires t == "" || !IsSpace(t[0])
    ensures DropSpaces(spaces + t) == t
  {
    if spaces == "" {
      assert spaces + t == t;
    } else {
      assert (spaces + t)[1..] == spaces[1..] + t;
      DropsSpaces(spaces[1..], t);
    }
  }

  lemma SignDropped(sign: string, digits: string)
    requires sign in ["", "+", "-"] && digits != "" && AllDigits(digits)
    ensures var t := sign + digits;
      t != "" && !IsSpace(t[0]) && (t[0] == '-' <==> sign == "-") && (if IsSign(t[0]) then t[1..] else t) == digits
  {
    assert IsDigit(digits[0]);
    if sign == "" {
      assert sign + digits == digits;
    } else {
      assert (sign + digits)[0] == sign[0] && (sign + digits)[1..] == digits;
    }
  }

  lemma DigitsRead(w: string, digits: string)
    requires var t := DropSpaces(w); t != "" && (if IsSign(t[0]) then t[1..] else t) == digits
    requires digits != "" && AllDigits(digits)
    ensures Strtoul(w) == if Value(digits) >= TWO64 then Number(TWO64 - 1, "", true)
                          else Number(if DropSpaces(w)[0] == '-' then (TWO64 - Value(digits)) % TWO64
                                      else Value(digits), "", false)
  {
    CountAll(digits);
    assert digits[..|digits|] == digits && digits[|digits|..] == "";
  }

  lemma Negated(v: int)
    ensures (TWO64 - v) % TWO64 == -v % TWO64
    ensures 0 <= v < TWO64 ==> v % TWO64 == v
  {
  }

  lemma SpelledReads(w: string, spaces: string, sign: string, digits: string)
    requires Spelled(w, spaces, sign, digits)
    ensures Strtoul(w).rest == "" && (Strtoul(w).outOfRange <==> Value(digits) >= TWO64)
    ensures Value(digits) < TWO64 ==> Strtoul(w).value == Worth(sign, digits) % TWO64
  {
    var t := sign + digits;
    assert w == spaces + t;
    SignDropped(sign, digits);
    DropsSpaces(spaces, t);
    DigitsRead(w, digits);
    Negated(Value(digits));
  }

  lemma {:induction false} SpacesInFront(s: string) returns (spaces: string)
    ensures s == spaces + DropSpaces(s) && forall i :: 0 <= i < |spaces| ==> IsSpace(spaces[i])
  {
    spaces := "";
    if s != "" && IsSpace(s[0]) {
      var more := SpacesInFront(s[1..]);
      spaces := [s[0]] + more;
    }
  }

  lemma {:induction false} CountedDigits(s: string)
    ensures AllDigits(s[..CountDigits(s)])
  {
    if s != "" && IsDigit(s[0]) {
      CountedDigits(s[1..]);
      assert s[..CountDigits(s)] == [s[0]] + s[1..][..CountDigits(s[1..])];
    }
  }

  lemma AllCounted(w: string)
    requires w != "" && Strtoul(w).rest == ""
    ensures var t := DropSpaces(w);
            t != "" && var u := if IsSign(t[0]) then t[1..] else t; CountDigits(u) == |u| > 0
  {
    var t := DropSpaces(w);
    var u := if t != "" && IsSign(t[0]) then t[1..] else t;
    assert CountDigits(u) > 0;
    assert |u[CountDigits(u)..]| == 0;
  }

  lemma ReadIsSpelled(w: string) returns (spaces: string, sign: string, digits: string)
    requires w != "" && Strtoul(w).rest == ""
    ensures Spelled(w, spaces, sign, digits)
  {
    spaces := SpacesInFront(w);
    var t := DropSpaces(w);
    AllCounted(w);
    sign := if IsSign(t[0]) then [t[0]] else "";
    digits := t[|sign|..];
    CountedDigits(digits);
    assert t == sign + digits && digits[..CountDigits(digits)] == digits;
  }

  /** A word is taken for a number of seconds exactly when it is empty, or spelled as a number
      that an unsigned long can hold, the sign left aside. */
  lemma SecondsAccepts(w: string)
    ensures Seconds(w).Some?
       <==> || w == ""
            || exists spaces, sign, digits ::
                 Spelled(w, spaces, sign, digits) && Value(digits) < 0x1_0000_0000_0000_0000
  {
    if w != "" && Seconds(w).Some? {
      var spaces, sign, digits := ReadIsSpelled(w);
      SpelledReads(w, spaces, sign, digits);
    }
    forall spaces, sign, digits | Spelled(w, spaces, sign, digits) && Value(digits) < TWO64
      ensures Seconds(w).Some?
    {
      SpelledReads(w, spaces, sign, digits);
    }
  }

  lemma Congruent(v: int, k: int)
    ensures (v - TWO32 * k) % TWO32 == v % TWO32
  {
  }

  lemma ToIntModular(v: int)
    ensures ToInt(v % TWO64) == ToInt(v)
    ensures ToInt(v) == v <==> -0x8000_0000 <= v < 0x8000_0000
  {
    assert v % TWO64 == v - TWO32 * (TWO32 * (v / TWO64));
    Congruent(v, TWO32 * (v / TWO64));
  }

  /** It then stands for its value as an int, which is the value exactly when it fits one. */
  lemma SecondsMean(w: string, spaces: string, sign: string, digits: string)
    requires Spelled(w, spaces, sign, digits) && Value(digits) < TWO64
    ensures var value: int := Value(digits); var n := if sign == "-" then -value else value;
      && Seconds(w).Some? && (Seconds(w).value - n) % 0x1_0000_0000 == 0
      && -0x8000_0000 <= Seconds(w).value < 0x8000_0000
      && (Seconds(w).value == n <==> -0x8000_0000 <= n < 0x8000_0000)
  {
    SpelledReads(w, spaces, sign, digits);
    ToIntModular(Worth(sign, digits));
  }

  /** Milliseconds for so many seconds, none if there are no seconds to wait. */
  function MillisMeant(seconds: int): int {
    if seconds > 0 then seconds * 1000 else -1
  }

  lemma NeverOdd(n: int)
    ensures ToInt(n * 1000) != -1
  {
  }

  /** The timeout is the one asked for exactly when a positive number of seconds is an int in
      milliseconds too, and no other number becomes positive when cut to 32 bits. */
  lemma TimeoutMeant(w: string, spaces: string, sign: string, digits: string)
    requires Spelled(w, spaces, sign, digits) && Value(digits) < TWO64
    ensures Seconds(w).Some?
    ensures var value: int := Value(digits); var n := if sign == "-" then -value else value;
      Millis(Seconds(w).value) == (if n > 0 then n * 1000 else -1) <==>
        if n > 0 then n * 1000 < 0x8000_0000 else n % 0x1_0000_0000 == 0 || 0x8000_0000 <= n % 0x1_0000_0000
  {
    SpelledReads(w, spaces, sign, digits);
    ToIntModular(Worth(sign, digits));
    ToIntModular(ToInt(Worth(sign, digits)) * 1000);
    NeverOdd(ToInt(Worth(sign, digits)));
  }

  // ---- printed numbers

  function Digit(n: nat): char
    requires n < 10
  {
    '0' + n as char
  }

  function Decimal(n: nat): string {
    if n < 10 then [Digit(n)] else Decimal(n / 10) + [Digit(n % 10)]
  }

  lemma {:induction false} DecimalValue(n: nat)
    ensures Value(Decimal(n)) == n && Decimal(n) != "" && AllDigits(Decimal(n))
  {
    if n < 10 {
      assert Decimal(n)[..0] == "";
    } else {
      DecimalValue(n / 10);
      assert Decimal(n)[..|Decimal(n)| - 1] == Decimal(n / 10);
    }
  }

  lemma PlainReads(s: string)
    requires s != "" && AllDigits(s) && Value(s) < TWO64
    ensures Strtoul(s) == Number(Value(s), "", false)
  {
    assert Spelled(s, "", "", s);
    SpelledReads(s, "", "", s);
    Negated(Value(s));
  }

  /** A number printed in decimal is read back, for every unsigned long. */
  lemma ReadsBack(n: nat)
    requires n < TWO64
    ensures Strtoul(Decimal(n)) == Number(n, "", false)
  {
    DecimalValue(n);
    PlainReads(Decimal(n));
  }

  lemma DecimalSeconds(n: nat)
    requires n < TWO64
    ensures Seconds(Decimal(n)) == Some(ToInt(n))
  {
    ReadsBack(n);
    var r := Strtoul(Decimal(n));
    assert r == Number(n, "", false);
  }

  lemma SecondsOf(n: nat)
    requires n * 1000 < 0x8000_0000
    ensures Seconds(Decimal(n)) == Some(n) && Millis(n) == MillisMeant(n)
  {
    DecimalSeconds(n);
    ToIntModular(n);
    ToIntModular(n * 1000);
  }

  lemma EmptyMisread()
    ensures Seconds("") == Some(0) && Millis(0) == -1
  {
  }

  /** What is no such number of seconds passes for one: the empty word, which switches a timeout
      off, and any two numbers that agree modulo 2^32, such as 4294967297 and 1. */
  lemma Misread(m: nat, n: nat)
    requires m < TWO64 && n < TWO64 && m % TWO32 == n % TWO32
    ensures Seconds("") == Some(0) && Millis(0) == -1
    ensures Seconds(Decimal(m)) == Seconds(Decimal(n))
  {
    EmptyMisread();
    DecimalSeconds(m);
    DecimalSeconds(n);
  }
}
