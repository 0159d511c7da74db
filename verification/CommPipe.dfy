/** The length-prefixed requests the lock screen writes to its password-checking child
    (aetherlock/src/comm.c:14-80 and 113-133). A system call may move any non-empty part of
    what was asked, be interrupted, or fail; a script of answers says which, call by call. */
module CommPipe {
  import opened Bytes
  import opened Utf8
  import opened PasswordBuffer

  /** One answer of the kernel. `Some(n)` moves `n` bytes, kept between one and what can be
      moved. */
  datatype Answer = Some(n: nat) | Interrupted | Fails

  /** What a full transfer came to; `Blocked` has used up the script and not returned. */
  datatype Outcome = Done | Closed | Error | Blocked

  function Moved(n: nat, most: nat): (k: nat)
    requires most > 0
    ensures 1 <= k <= most
  {
    if n == 0 then 1 else if n > most then most else n
  }

  /** How many calls of a script move bytes. */
  function Moves(script: seq<Answer>): nat {
    if script == [] then 0 else (if script[0].Some? then 1 else 0) + Moves(script[1..])
  }

  lemma MovesNext(script: seq<Answer>, used: nat)
    requires used < |script|
    ensures Moves(script[used..]) == (if script[used].Some? then 1 else 0) + Moves(script[used + 1..])
  {
    assert script[used..][1..] == script[used + 1..];
  }

  /** The script fails before it has moved more than `most` bytes, one a call. */
  ghost predicate FailsWithin(script: seq<Answer>, most: int) {
    exists i :: 0 <= i < |script| && script[i] == Fails && Moves(script) <= most + Moves(script[i + 1..])
  }

  /** The same after `used` calls that have moved enough. */
  lemma FailsLater(script: seq<Answer>, used: nat, moved: int, most: int)
    requires used <= |script| && Moves(script) <= moved + Moves(script[used..])
    requires FailsWithin(script[used..], most)
    ensures FailsWithin(script, moved + most)
  {
    var i :| 0 <= i < |script[used..]| && script[used..][i] == Fails
             && Moves(script[used..]) <= most + Moves(script[used..][i + 1..]);
    assert script[used + i] == Fails && script[used..][i + 1..] == script[used + i + 1..];
  }

  const SIZE_LIMIT := 0x1_0000_0000_0000_0000

  // ---- frames

  function Half(n: u32): (s: seq<byte>)
    ensures |s| == 4
  {
    [n % 0x100, n / 0x100 % 0x100, n / 0x1_0000 % 0x100, n / 0x100_0000]
  }

  /** The eight bytes of a size, least significant first. */
  function SizeBytes(n: nat): (s: seq<byte>)
    ensures |s| == 8
  {
    Half(n % 0x1_0000_0000) + Half(n / 0x1_0000_0000 % 0x1_0000_0000)
  }

  function FromHalf(s: seq<byte>): u32
    requires |s| == 4
  {
    s[0] as int + (s[1] as int) * 0x100 + (s[2] as int) * 0x1_0000 + (s[3] as int) * 0x100_0000
  }

  function SizeFrom(s: seq<byte>): nat
    requires |s| == 8
  {
    FromHalf(s[..4]) + 0x1_0000_0000 * FromHalf(s[4..])
  }

  lemma HalfRoundTrip(n: u32)
    ensures FromHalf(Half(n)) == n
  {
    assert n / 0x100 == n / 0x1_0000 * 0x100 + n / 0x100 % 0x100;
    assert n / 0x1_0000 == n / 0x100_0000 * 0x100 + n / 0x1_0000 % 0x100;
  }

  /** Byte `i` counts 256^i. */
  lemma LittleEndian(n: nat)
    requires n < SIZE_LIMIT
    ensures var s := SizeBytes(n);
      n == s[0] as int + 0x100 * s[1] as int + 0x1_0000 * s[2] as int + 0x100_0000 * s[3] as int
           + 0x1_0000_0000 * (s[4] as int + 0x100 * s[5] as int + 0x1_0000 * s[6] as int + 0x100_0000 * s[7] as int)
  {
    HalfRoundTrip(n % 0x1_0000_0000);
    HalfRoundTrip(n / 0x1_0000_0000 % 0x1_0000_0000);
  }

  lemma SizeRoundTrip(n: nat)
    requires n < SIZE_LIMIT
    ensures SizeFrom(SizeBytes(n)) == n
  {
    HalfRoundTrip(n % 0x1_0000_0000);
    HalfRoundTrip(n / 0x1_0000_0000 % 0x1_0000_0000);
    assert SizeBytes(n)[..4] == Half(n % 0x1_0000_0000);
    assert SizeBytes(n)[4..] == Half(n / 0x1_0000_0000 % 0x1_0000_0000);
  }

  function FrameSize(text: seq<byte>): nat { |text| + 9 }

  /** A request: the size of the text with its terminator, then both. */
  function Frame(text: seq<byte>): (f: seq<byte>)
    ensures |f| == FrameSize(text)
  {
    SizeBytes(|text| + 1) + text + [0]
  }

  /** What is written for a password: its size with the terminator, its bytes, the terminator. */
  lemma FrameLayout(text: seq<byte>)
    requires |text| + 1 < 0x1_0000_0000_0000_0000
    ensures var f := Frame(text);
      && |f| == |text| + 9 && f[8..|text| + 8] == text && f[|text| + 8] == 0
      && |text| + 1 == f[0] as int + 0x100 * f[1] as int + 0x1_0000 * f[2] as int + 0x100_0000 * f[3] as int
                       + 0x1_0000_0000 * (f[4] as int + 0x100 * f[5] as int + 0x1_0000 * f[6] as int
                                          + 0x100_0000 * f[7] as int)
  {
    LittleEndian(|text| + 1);
  }

  lemma HeaderOf(text: seq<byte>, rest: seq<byte>)
    requires |text| + 1 < SIZE_LIMIT
    ensures SizeFrom((Frame(text) + rest)[..8]) == |text| + 1
    ensures (Frame(text) + rest)[8..|text| + 9] == text + [0]
    ensures (Frame(text) + rest)[|text| + 9..] == rest
  {
    assert (Frame(text) + rest)[..8] == SizeBytes(|text| + 1);
    SizeRoundTrip(|text| + 1);
  }

  function Frames(texts: seq<seq<byte>>): seq<byte> {
    if texts == [] then [] else Frame(texts[0]) + Frames(texts[1..])
  }

  /** The requests in a stream and the bytes left when no whole one follows. A zero size stops
      the reader, as its assertion would. */
  function Parse(s: seq<byte>): (r: (seq<seq<byte>>, seq<byte>))
    decreases |s|
  {
    if |s| < 8 then ([], s)
    else
      var size := SizeFrom(s[..8]);
      if size == 0 || |s| < 8 + size then ([], s)
      else var (more, rest) := Parse(s[8 + size..]); ([s[8..8 + size]] + more, rest)
  }

  function Terminated(texts: seq<seq<byte>>): (bufs: seq<seq<byte>>)
    ensures |bufs| == |texts|
  {
    seq(|texts|, i requires 0 <= i < |texts| => texts[i] + [0])
  }

  ghost predicate Sendable(texts: seq<seq<byte>>) {
    forall i :: 0 <= i < |texts| ==> |texts[i]| + 1 < SIZE_LIMIT
  }

  /** Requests written one after another, the last perhaps cut short, are read back as they
      were, each with its terminator. */
  lemma {:induction false} ParseFrames(texts: seq<seq<byte>>, cut: seq<byte>, next: seq<byte>)
    requires Sendable(texts) && |next| + 1 < SIZE_LIMIT
    requires cut < Frame(next)
    ensures Parse(Frames(texts) + cut) == (Terminated(texts), cut)
  {
    var s := Frames(texts) + cut;
    if texts == [] {
      assert s == cut;
      if |cut| >= 8 {
        HeaderOf(next, []);
        assert cut[..8] == Frame(next)[..8] == (Frame(next) + [])[..8];
      }
    } else {
      var rest := Frames(texts[1..]) + cut;
      assert s == Frame(texts[0]) + rest;
      HeaderOf(texts[0], rest);
      ParseFrames(texts[1..], cut, next);
      assert Terminated(texts) == [texts[0] + [0]] + Terminated(texts[1..]);
    }
  }

  ghost function TotalSize(bufs: seq<seq<byte>>): nat {
    if bufs == [] then 0 else 8 + |bufs[0]| + TotalSize(bufs[1..])
  }

  lemma {:induction false} ParseKeepsBytes(s: seq<byte>)
    ensures var (bufs, rest) := Parse(s); |s| == TotalSize(bufs) + |rest|
    decreases |s|
  {
    if |s| >= 8 {
      var size := SizeFrom(s[..8]);
      if size != 0 && |s| >= 8 + size {
        ParseKeepsBytes(s[8 + size..]);
      }
    }
  }

  // ---- attempts that fail half way

  /** An attempt to send `text` that got `k` bytes of its frame into the pipe. */
  datatype Attempt = Attempt(text: seq<byte>, k: nat)

  ghost predicate AttemptOk(a: Attempt) { a.k <= FrameSize(a.text) && |a.text| + 1 < SIZE_LIMIT }
  predicate Succeeded(a: Attempt) { a.k == FrameSize(a.text) }

  ghost predicate Attempts(log: seq<Attempt>) {
    forall i :: 0 <= i < |log| ==> AttemptOk(log[i])
  }

  ghost function Stream(log: seq<Attempt>): seq<byte>
    requires Attempts(log)
  {
    if log == [] then [] else
      assert AttemptOk(log[0]);
      Frame(log[0].text)[..log[0].k] + Stream(log[1..])
  }

  function TextIfSent(a: Attempt): seq<seq<byte>> {
    if Succeeded(a) then [a.text] else []
  }

  ghost function Successes(log: seq<Attempt>): seq<seq<byte>> {
    if log == [] then [] else TextIfSent(log[0]) + Successes(log[1..])
  }

  lemma Assoc<T>(a: seq<T>, b: seq<T>, c: seq<T>)
    ensures a + (b + c) == (a + b) + c
  {
  }

  lemma {:induction false} SuccessesGrow(log: seq<Attempt>, a: Attempt)
    ensures Successes(log + [a]) == Successes(log) + TextIfSent(a)
  {
    var all := log + [a];
    if log == [] {
      assert all[1..] == [] && Successes([]) == [];
    } else {
      SuccessesGrow(log[1..], a);
      assert all[1..] == log[1..] + [a] && all[0] == log[0];
      Assoc(TextIfSent(log[0]), Successes(log[1..]), TextIfSent(a));
    }
  }

  lemma {:induction false} StreamGrows(log: seq<Attempt>, a: Attempt)
    requires Attempts(log) && AttemptOk(a)
    ensures Attempts(log + [a]) && Stream(log + [a]) == Stream(log) + Frame(a.text)[..a.k]
  {
    assert forall i :: 0 <= i < |log| ==> AttemptOk(log[i]);
    var all := log + [a];
    assert Attempts(all);
    if log == [] {
      assert all[1..] == [];
    } else {
      StreamGrows(log[1..], a);
      assert all[1..] == log[1..] + [a] && all[0] == log[0];
      Assoc(Frame(log[0].text)[..log[0].k], Stream(log[1..]), Frame(a.text)[..a.k]);
    }
  }

  /** No failed attempt left a byte in the pipe. */
  ghost predicate Clean(log: seq<Attempt>) {
    forall i :: 0 <= i < |log| && !Succeeded(log[i]) ==> log[i].k == 0
  }

  lemma {:induction false} SuccessesSendable(log: seq<Attempt>)
    requires Attempts(log)
    ensures Sendable(Successes(log))
  {
    if log != [] {
      SuccessesSendable(log[1..]);
      assert AttemptOk(log[0]);
      assert forall i :: 1 <= i < |Successes(log)| && Succeeded(log[0]) ==>
        Successes(log)[i] == Successes(log[1..])[i - 1];
    }
  }

  lemma {:induction false} NothingLeft(log: seq<Attempt>)
    requires Attempts(log) && Clean(log)
    ensures Stream(log) == Frames(Successes(log))
  {
    if log != [] {
      NothingLeft(log[1..]);
      assert AttemptOk(log[0]);
      if Succeeded(log[0]) {
        assert Successes(log)[1..] == Successes(log[1..]);
        assert Frame(log[0].text)[..log[0].k] == Frame(log[0].text);
      } else {
        assert Successes(log) == Successes(log[1..]);
        assert Stream(log) == [] + Stream(log[1..]);
      }
    }
  }

  lemma {:induction false} StreamSize(log: seq<Attempt>)
    requires Attempts(log)
    ensures |Stream(log)| >= TotalSize(Terminated(Successes(log)))
    ensures |Stream(log)| == TotalSize(Terminated(Successes(log))) ==> Clean(log)
  {
    if log != [] {
      StreamSize(log[1..]);
      if Succeeded(log[0]) {
        assert Terminated(Successes(log))[1..] == Terminated(Successes(log[1..]));
      } else {
        assert Successes(log) == Successes(log[1..]);
      }
      forall i | |Stream(log)| == TotalSize(Terminated(Successes(log))) && 0 <= i < |log| && !Succeeded(log[i])
        ensures log[i].k == 0
      {
        if i > 0 {
          assert log[i] == log[1..][i - 1];
        }
      }
    }
  }

  /** A clean log is read as its successful requests, in order, with nothing left over. */
  lemma CleanRead(log: seq<Attempt>)
    requires Attempts(log) && Clean(log)
    ensures Parse(Stream(log)) == (Terminated(Successes(log)), [])
  {
    NothingLeft(log);
    SuccessesSendable(log);
    ParseFrames(Successes(log), [], []);
    assert Frames(Successes(log)) + [] == Frames(Successes(log));
  }

  /** After the log one more password goes out completely. */
  function Then(log: seq<Attempt>, later: seq<byte>): seq<Attempt> {
    log + [Attempt(later, |Frame(later)|)]
  }

  lemma ThenStream(log: seq<Attempt>, later: seq<byte>)
    requires Attempts(log) && |later| + 1 < SIZE_LIMIT
    ensures Attempts(Then(log, later)) && Stream(Then(log, later)) == Stream(log) + Frame(later)
    ensures Successes(Then(log, later)) == Successes(log) + [later]
  {
    StreamGrows(log, Attempt(later, |Frame(later)|));
    SuccessesGrow(log, Attempt(later, |Frame(later)|));
    assert Frame(later)[..|Frame(later)|] == Frame(later);
  }

  /** The child reads the successful requests of the log and then the later one. */
  ghost predicate ReadsBoth(log: seq<Attempt>, later: seq<byte>) {
    Attempts(Then(log, later)) && Parse(Stream(Then(log, later))).0 == Terminated(Successes(log) + [later])
  }

  lemma LowByte(h: seq<byte>)
    requires |h| == 8
    ensures SizeFrom(h) % 0x100 == h[0]
  {
  }

  /** The last request read has its size in front of it. */
  lemma {:induction false} LastHeader(s: seq<byte>, bufs: seq<seq<byte>>, last: seq<byte>)
    requires Parse(s).0 == bufs + [last]
    ensures TotalSize(bufs) + 8 <= |s| && SizeFrom(s[TotalSize(bufs)..][..8]) == |last|
    decreases |bufs|
  {
    var size := SizeFrom(s[..8]);
    if bufs == [] {
      assert s[0..] == s;
      assert Parse(s).0[0] == s[8..8 + size];
    } else {
      var rest := s[8 + size..];
      assert Parse(s).0[1..] == bufs[1..] + [last] && Parse(s).0[0] == bufs[0];
      LastHeader(rest, bufs[1..], last);
      assert rest[TotalSize(bufs[1..])..] == s[TotalSize(bufs)..];
    }
  }

  lemma FirstLeftover(a: seq<byte>, f: seq<byte>, p: nat, n: nat)
    requires p < |a| && p + 8 <= |a + f| && SizeFrom((a + f)[p..][..8]) == n
    ensures a[p] == n % 0x100
  {
    LowByte((a + f)[p..][..8]);
    assert (a + f)[p..][..8][0] == a[p];
  }

  /** After a failed attempt that left bytes, the size of a later request is read from them. */
  lemma SizeFromLeftover(log: seq<Attempt>, later: seq<byte>)
    requires Attempts(log) && !Clean(log) && |later| + 1 < SIZE_LIMIT && ReadsBoth(log, later)
    ensures var p := TotalSize(Terminated(Successes(log)));
            p < |Stream(log)| && Stream(log)[p] == (|later| + 1) % 0x100
  {
    var bufs := Terminated(Successes(log));
    StreamSize(log);
    ThenStream(log, later);
    assert Terminated(Successes(log) + [later]) == bufs + [later + [0]];
    LastHeader(Stream(log) + Frame(later), bufs, later + [0]);
    FirstLeftover(Stream(log), Frame(later), TotalSize(bufs), |later| + 1);
  }

  lemma LowSuccessor(a: nat, b: nat)
    requires (a + 1) % 0x100 == (b + 1) % 0x100
    ensures a % 0x100 == b % 0x100
  {
  }

  lemma SameLowByte(log: seq<Attempt>, a: seq<byte>, b: seq<byte>)
    requires Attempts(log) && !Clean(log) && |a| + 1 < SIZE_LIMIT && |b| + 1 < SIZE_LIMIT
    requires ReadsBoth(log, a) && ReadsBoth(log, b)
    ensures |a| % 0x100 == |b| % 0x100
  {
    SizeFromLeftover(log, a);
    SizeFromLeftover(log, b);
    LowSuccessor(|a|, |b|);
  }

  /** A failed write that left bytes spoils the stream: of two passwords whose sizes differ in the
      low byte, at most one could be sent next and be read back with the earlier ones. */
  lemma PartialWriteSpoils(log: seq<Attempt>, a: seq<byte>, b: seq<byte>)
    requires Attempts(log) && !Clean(log) && |a| + 1 < SIZE_LIMIT && |b| + 1 < SIZE_LIMIT
    requires |a| % 0x100 != |b| % 0x100
    ensures !ReadsBoth(log, a) || !ReadsBoth(log, b)
  {
    if ReadsBoth(log, a) && ReadsBoth(log, b) {
      SameLowByte(log, a, b);
    }
  }

  lemma TwoSizes() returns (a: seq<byte>, b: seq<byte>)
    ensures |a| == 0 && |b| == 1
  {
    a, b := [], [1];
  }

  lemma ThenClean(log: seq<Attempt>, later: seq<byte>)
    requires Clean(log)
    ensures Clean(Then(log, later))
  {
  }

  /** Whatever password is sent next, the child reads exactly the successful requests, in order,
      if and only if no failed attempt left a byte behind. */
  lemma CleanStream(log: seq<Attempt>)
    requires Attempts(log)
    ensures (forall later: seq<byte> :: |later| + 1 < SIZE_LIMIT ==> ReadsBoth(log, later)) <==> Clean(log)
  {
    if Clean(log) {
      forall later: seq<byte> | |later| + 1 < SIZE_LIMIT
        ensures ReadsBoth(log, later)
      {
        ThenStream(log, later);
        ThenClean(log, later);
        CleanRead(Then(log, later));
      }
    } else {
      var a, b := TwoSizes();
      PartialWriteSpoils(log, a, b);
    }
  }

  // ---- the lock screen's end

  /** What has been written after part of the first write, and after part of the second. */
  lemma FirstPart(a: seq<byte>, b: seq<byte>, k: nat)
    requires k <= |a|
    ensures (a + b)[..k] == a[..k]
  {
  }

  lemma SecondPart(s: seq<byte>, a: seq<byte>, b: seq<byte>, k: nat)
    requires k <= |b|
    ensures (s + a[..|a|]) + b[..k] == s + (a + b)[..|a| + k]
  {
    assert (a + b)[..|a| + k] == a + b[..k];
  }

  /** The write end: `sent` is every byte written so far and `log` every request attempted. */
  class WriteEnd {
    var sent: seq<byte>
    ghost var log: seq<Attempt>

    ghost predicate Valid()
      reads this
    {
      Attempts(log) && sent == Stream(log)
    }

    constructor ()
      ensures Valid() && log == []
    {
      sent, log := [], [];
    }

    /** write_full. */
    method WriteFull(src: seq<byte>, script: seq<Answer>) returns (outcome: Outcome, used: nat, ghost k: nat)
      modifies this`sent
      ensures k <= |src| && sent == old(sent) + src[..k] && used <= |script|
      ensures outcome != Closed
      ensures outcome == Done <==> k == |src|
      ensures outcome == Error ==> Fails in script[..used] && FailsWithin(script, k)
      ensures outcome == Blocked ==> used == |script|
      ensures Moves(script) <= k + Moves(script[used..])
    {
      var offset := 0;
      used := 0;
      while offset < |src|
        invariant 0 <= offset <= |src| && used <= |script|
        invariant sent == old(sent) + src[..offset]
        invariant Moves(script) <= offset + Moves(script[used..])
        decreases |script| - used
      {
        if used == |script| {
          return Blocked, used, offset;
        }
        var answer := script[used];
        MovesNext(script, used);
        used := used + 1;
        match answer {
          case Some(n) =>
            var m := Moved(n, |src| - offset);
            sent := sent + src[offset..offset + m];
            assert src[..offset + m] == src[..offset] + src[offset..offset + m];
            offset := offset + m;
          case Interrupted =>
          case Fails =>
            assert script[..used][used - 1] == script[used - 1] == Fails;
            return Error, used, offset;
        }
      }
      return Done, used, offset;
    }

    /** The two writes of a request; the second is only tried after the first. They fail only if
        the kernel does, or wait for it to take more bytes. */
    method WriteBoth(header: seq<byte>, body: seq<byte>, script: seq<Answer>) returns (ok: bool, ghost k: nat)
      modifies this`sent
      ensures k <= |header + body| && sent == old(sent) + (header + body)[..k]
      ensures ok <==> k == |header + body|
      ensures !ok ==> FailsWithin(script, k) || Moves(script) <= k
    {
      var outcome, used, n := WriteFull(header, script);
      if outcome != Done {
        FirstPart(header, body, n);
        return false, n;
      }
      var rest := script[used..];
      ghost var first := used;
      outcome, used, n := WriteFull(body, rest);
      SecondPart(old(sent), header, body, n);
      if outcome == Error {
        FailsLater(script, first, |header|, n);
      }
      ok, k := outcome == Done, |header| + n;
    }

    /** write_comm_request: the password is cleared whatever happens. A request that is not
        written completely leaves a proper prefix of its frame in the pipe, and then the kernel
        has failed or taken no more bytes. */
    method WriteRequest(pw: Password, script: seq<Answer>) returns (ok: bool, ghost k: nat)
      requires Valid() && pw.Valid() && pw.buffer.Length < SIZE_LIMIT
      modifies this, pw, pw.buffer
      ensures pw.Valid() && pw.stack == []
      ensures forall i :: 0 <= i < pw.buffer.Length ==> pw.buffer[i] == 0
      ensures Valid() && log == old(log) + [Attempt(EncodeAll(old(pw.stack)), k)]
      ensures var f := Frame(EncodeAll(old(pw.stack)));
              k <= |f| && sent == old(sent) + f[..k] && (ok <==> k == |f|)
      ensures !ok ==> FailsWithin(script, k) || Moves(script) <= k
    {
      var size := pw.len + 1;
      var header, body := SizeBytes(size), pw.buffer[..size];
      assert Frame(EncodeAll(pw.stack)) == header + body by {
        assert body == pw.buffer[..pw.len] + [0];
      }
      ghost var a := Attempt(EncodeAll(pw.stack), 0);
      ok, k := WriteBoth(header, body, script);
      StreamGrows(log, a.(k := k));
      log := log + [a.(k := k)];
      pw.Clear();
    }
  }

  // ---- the child

  ghost predicate TrapAt(bufs: seq<seq<byte>>, rest: seq<byte>, n: nat) {
    if n < |bufs| then bufs[n] == [] || bufs[n][|bufs[n]| - 1] != 0
    else |rest| >= 8 && SizeFrom(rest[..8]) == 0
  }

  /** After `n` whole requests, an assertion of the reader would fail on `s`. */
  ghost predicate Trap(s: seq<byte>, n: nat) {
    TrapAt(Parse(s).0, Parse(s).1, n)
  }

  /** The stream ends inside a request. */
  ghost predicate CutShort(s: seq<byte>) {
    s != [] && (|s| < 8 || (SizeFrom(s[..8]) > 0 && |s| < 8 + SizeFrom(s[..8])))
  }

  /** No request follows where the stream ends inside one. */
  lemma CutParse(s: seq<byte>)
    requires CutShort(s)
    ensures Parse(s) == ([], s)
  {
  }

  /** The replies are the verdicts on the requests in order, refusals only before the last; `Done`
      is a success and `Closed` the end of the pipe, reached when all are answered. */
  ghost predicate Answered(replies: seq<bool>, bufs: seq<seq<byte>>, verdict: seq<byte> -> bool, outcome: Outcome) {
    && |replies| <= |bufs|
    && (forall i :: 0 <= i < |replies| ==> replies[i] == verdict(bufs[i]))
    && (forall i :: 0 <= i < |replies| - 1 ==> !replies[i])
    && (outcome == Closed ==> |replies| == |bufs|)
    && (outcome == Done <==> replies != [] && replies[|replies| - 1])
  }

  /** The read end: `stream` is everything that will ever be written, `pos` how much of it has
      been read. */
  class ReadEnd {
    const stream: seq<byte>
    var pos: nat

    constructor (bytes: seq<byte>)
      ensures stream == bytes && pos == 0
    {
      stream := bytes;
      pos := 0;
    }

    /** read_full. `Closed` is its return value 0. */
    method ReadFull(size: nat, script: seq<Answer>) returns (outcome: Outcome, buf: seq<byte>, used: nat)
      requires pos <= |stream|
      modifies this
      ensures old(pos) <= pos <= |stream| && pos <= old(pos) + size && used <= |script|
      ensures outcome == Done <==> pos == old(pos) + size
      ensures outcome == Done ==> buf == stream[old(pos)..pos]
      ensures outcome == Closed ==> pos == old(pos) == |stream|
      ensures outcome == Error ==>
                (Fails in script[..used] && FailsWithin(script, pos - old(pos))) || (pos == |stream| && pos > old(pos))
      ensures outcome == Blocked ==> used == |script|
      ensures outcome in {Done, Blocked} ==> Moves(script) <= pos - old(pos) + Moves(script[used..])
    {
      buf, used := [], 0;
      while |buf| < size
        invariant |buf| <= size && used <= |script|
        invariant pos == old(pos) + |buf| <= |stream| && buf == stream[old(pos)..pos]
        invariant Moves(script) <= |buf| + Moves(script[used..])
        decreases |script| - used
      {
        if used == |script| {
          return Blocked, buf, used;
        }
        var answer := script[used];
        MovesNext(script, used);
        used := used + 1;
        match answer {
          case Some(n) =>
            if pos == |stream| {
              // end of file
              return if |buf| == 0 then Closed else Error, buf, used;
            }
            var left, wanted := |stream| - pos, size - |buf|;
            var m := Moved(n, if left < wanted then left else wanted);
            assert stream[old(pos)..pos + m] == stream[old(pos)..pos] + stream[pos..pos + m];
            buf := buf + stream[pos..pos + m];
            pos := pos + m;
          case Interrupted =>
          case Fails =>
            assert script[..used][used - 1] == script[used - 1] == Fails;
            return Error, buf, used;
        }
      }
      outcome := Done;
    }

    /** The second read of a request: an end of file in front of the body is an error too. */
    method ReadBody(size: nat, script: seq<Answer>, from: nat) returns (outcome: Outcome, body: seq<byte>, used: nat)
      requires pos <= |stream| && size > 0 && from <= |script|
      modifies this
      ensures old(pos) <= pos <= |stream| && from <= used <= |script| && outcome != Closed
      ensures outcome == Done ==> pos == old(pos) + size && body == stream[old(pos)..pos]
      ensures outcome == Error ==> FailsWithin(script[from..], pos - old(pos)) || |stream| < old(pos) + size
      ensures outcome == Blocked ==> used == |script|
      ensures outcome != Error ==> Moves(script[from..]) <= pos - old(pos) + Moves(script[used..])
    {
      var more;
      outcome, body, more := ReadFull(size, script[from..]);
      used := from + more;
      assert script[from..][more..] == script[used..];
      if outcome == Closed {
        outcome := Error;
      }
    }

    /** read_comm_request. `trapped` is set when one of its two assertions would fail. Short of
        that it fails only if the kernel does or the stream ends inside a request, and waits only
        for the kernel to deliver more bytes. */
    method ReadRequest(script: seq<Answer>) returns (outcome: Outcome, buf: seq<byte>, used: nat, trapped: bool)
      requires pos <= |stream|
      modifies this
      ensures old(pos) <= pos <= |stream| && used <= |script|
      ensures outcome == Done ==> !trapped && buf != [] && buf[|buf| - 1] == 0
      ensures outcome == Done ==>
                var (bufs, rest) := Parse(stream[old(pos)..]);
                bufs != [] && buf == bufs[0] && Parse(stream[pos..]) == (bufs[1..], rest)
      ensures outcome == Closed ==> pos == old(pos) == |stream| && !trapped
      ensures outcome == Error && !trapped ==> FailsWithin(script, pos - old(pos)) || CutShort(stream[old(pos)..])
      ensures outcome == Blocked ==> used == |script| && !trapped
      ensures outcome in {Done, Blocked} ==> Moves(script) <= pos - old(pos) + Moves(script[used..])
      ensures trapped ==> outcome == Error
      ensures trapped ==>
                var (bufs, rest) := Parse(stream[old(pos)..]);
                if bufs == [] then |rest| >= 8 && SizeFrom(rest[..8]) == 0
                else bufs[0] == [] || bufs[0][|bufs[0]| - 1] != 0
    {
      trapped := false;
      ghost var s := stream[pos..];
      var header;
      outcome, header, used := ReadFull(8, script);
      if outcome != Done {
        return outcome, [], used, false;
      }
      assert header == s[..8];
      var size := SizeFrom(header);
      if size == 0 {
        return Error, [], used, true;
      }
      ghost var at := pos;
      ghost var from := used;
      var body;
      outcome, body, used := ReadBody(size, script, used);
      if outcome != Done {
        if FailsWithin(script[from..], pos - at) {
          FailsLater(script, from, 8, pos - at);
        }
        return outcome, [], used, false;
      }
      assert body == s[8..8 + size];
      assert stream[pos..] == s[8 + size..];
      if body[size - 1] != 0 {
        return Error, [], used, true;
      }
      buf := body;
    }

    /** The request after the first `n`, seen from the parse of the stream. */
    method NextRequest(script: seq<Answer>, from: nat, ghost bufs: seq<seq<byte>>, ghost rest: seq<byte>, ghost n: nat)
      returns (outcome: Outcome, buf: seq<byte>, used: nat, trapped: bool)
      requires pos <= |stream| && from <= |script| && n <= |bufs| && Parse(stream[pos..]) == (bufs[n..], rest)
      modifies this
      ensures old(pos) <= pos <= |stream| && from <= used <= |script|
      ensures outcome == Done ==> n < |bufs| && buf == bufs[n] && Parse(stream[pos..]) == (bufs[n + 1..], rest)
      ensures outcome == Closed ==> n == |bufs|
      ensures trapped ==> outcome == Error && TrapAt(bufs, rest, n)
      ensures outcome == Error && !trapped ==>
                FailsWithin(script[from..], pos - old(pos)) || (n == |bufs| && CutShort(rest))
      ensures outcome == Done ==> Moves(script[from..]) <= pos - old(pos) + Moves(script[used..])
      ensures outcome == Blocked ==> Moves(script[from..]) <= pos - old(pos)
    {
      ghost var s := stream[pos..];
      var more;
      outcome, buf, more, trapped := ReadRequest(script[from..]);
      used := from + more;
      assert script[from..][more..] == script[used..];
      if CutShort(s) {
        CutParse(s);
      }
    }

    /** The loop of run_pw_backend_child, seen from the parse of the stream. */
    method AnswerAll(verdict: seq<byte> -> bool, script: seq<Answer>, ghost bufs: seq<seq<byte>>, ghost rest: seq<byte>)
      returns (replies: seq<bool>, outcome: Outcome, trapped: bool)
      requires pos <= |stream| && Parse(stream[pos..]) == (bufs, rest)
      modifies this
      ensures Answered(replies, bufs, verdict, outcome)
      ensures trapped ==> outcome == Error && TrapAt(bufs, rest, |replies|)
      ensures outcome == Error && !trapped ==>
                FailsWithin(script, pos - old(pos)) || (|replies| == |bufs| && CutShort(rest))
      ensures old(pos) <= pos <= |stream| && (outcome == Blocked ==> Moves(script) <= pos - old(pos))
    {
      replies, outcome, trapped := [], Blocked, false;
      var used: nat := 0;
      while true
        invariant old(pos) <= pos <= |stream| && used <= |script| && |replies| <= |bufs|
        invariant Moves(script) <= pos - old(pos) + Moves(script[used..])
        invariant Parse(stream[pos..]) == (bufs[|replies|..], rest)
        invariant forall i :: 0 <= i < |replies| ==> replies[i] == verdict(bufs[i]) && !replies[i]
        decreases |bufs| - |replies|
      {
        var buf;
        ghost var from, at := used, pos;
        outcome, buf, used, trapped := NextRequest(script, used, bufs, rest, |replies|);
        if outcome != Done {
          if FailsWithin(script[from..], pos - at) {
            FailsLater(script, from, at - old(pos), pos - at);
          }
          return;
        }
        replies := replies + [verdict(buf)];
        if verdict(buf) {
          return;
        }
      }
    }

    /** run_pw_backend_child: answer requests until one succeeds or the pipe ends. `verdict` is
        what the authentication service says of a password. It gives up earlier only if the kernel
        fails, and waits only for more bytes; where the stream ends inside a request, all whole
        ones have been answered. */
    method Serve(verdict: seq<byte> -> bool, script: seq<Answer>)
      returns (replies: seq<bool>, outcome: Outcome, trapped: bool)
      requires pos <= |stream|
      modifies this
      ensures Answered(replies, Parse(stream[old(pos)..]).0, verdict, outcome)
      ensures trapped ==> outcome == Error && Trap(stream[old(pos)..], |replies|)
      ensures outcome == Error && !trapped ==>
                var (bufs, rest) := Parse(stream[old(pos)..]);
                FailsWithin(script, pos - old(pos)) || (|replies| == |bufs| && CutShort(rest))
      ensures old(pos) <= pos <= |stream| && (outcome == Blocked ==> Moves(script) <= pos - old(pos))
    {
      ghost var (bufs, rest) := Parse(stream[pos..]);
      replies, outcome, trapped := AnswerAll(verdict, script, bufs, rest);
    }
  }

  /** As long as only the last request can be cut short, the reader's assertions hold. */
  lemma NeverTrapped(texts: seq<seq<byte>>, cut: seq<byte>, next: seq<byte>, n: nat)
    requires Sendable(texts) && |next| + 1 < SIZE_LIMIT
    requires cut < Frame(next)
    ensures !Trap(Frames(texts) + cut, n)
  {
    ParseFrames(texts, cut, next);
    if n >= |texts| && |cut| >= 8 {
      HeaderOf(next, []);
      assert cut[..8] == Frame(next)[..8] == (Frame(next) + [])[..8];
    }
  }

  /** Both ends: after any sequence of requests of which none failed half way, a child reading what
      was sent trips none of its assertions and answers the passwords sent successfully, in order.
      However the reads are split and interrupted, if none fails before the bytes written must have
      been delivered, it answers all of them or those up to the first that is right. */
  method Converse(w: WriteEnd, verdict: seq<byte> -> bool, script: seq<Answer>)
    returns (replies: seq<bool>, outcome: Outcome, trapped: bool)
    requires w.Valid() && Clean(w.log)
    ensures !trapped
    ensures Answered(replies, Terminated(Successes(w.log)), verdict, outcome)
    ensures !FailsWithin(script, |w.sent|) && Moves(script) > |w.sent| ==> outcome in {Closed, Done}
  {
    var r := new ReadEnd(w.sent);
    CleanRead(w.log);
    assert r.stream[0..] == w.sent;
    replies, outcome, trapped := r.Serve(verdict, script);
  }
}
