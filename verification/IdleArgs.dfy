/** The idle daemon's command-line clauses (aetheridle/main.c:719-939): what parse_args accepts
    after its options, and what configuration it builds. */
module IdleArgs {
  import opened Collections
  import opened IdleSeconds

  // ---- clauses and configurations

  datatype Timeout = Timeout(ms: int, idleCmd: Maybe<string>, resumeCmd: Maybe<string>, idlehint: bool)

  /** The most recent clause comes first in `timeouts`. */
  datatype Config = Config(timeouts: seq<Timeout>, beforeSleep: Maybe<string>, afterResume: Maybe<string>,
                           lock: Maybe<string>, unlock: Maybe<string>, idlehint: bool)

  const EMPTY := Config([], None, None, None, None, false)

  /** A clause of the grammar; `T` is the spelling of the seconds or their number. */
  datatype Clause<T> =
    | OnTimeout(seconds: T, cmd: string, resumeCmd: Maybe<string>)
    | BeforeSleep(cmd: string)
    | AfterResume(cmd: string)
    | Lock(cmd: string)
    | Unlock(cmd: string)
    | IdleHint(seconds: T)

  function Words(c: Clause<string>): (ws: seq<string>)
    ensures |ws| >= 2
  {
    match c
    case OnTimeout(n, cmd, None) => ["timeout", n, cmd]
    case OnTimeout(n, cmd, Some(r)) => ["timeout", n, cmd, "resume", r]
    case BeforeSleep(cmd) => ["before-sleep", cmd]
    case AfterResume(cmd) => ["after-resume", cmd]
    case Lock(cmd) => ["lock", cmd]
    case Unlock(cmd) => ["unlock", cmd]
    case IdleHint(n) => ["idlehint", n]
  }

  function AllWords(cs: seq<Clause<string>>): seq<string> {
    if cs == [] then [] else Words(cs[0]) + AllWords(cs[1..])
  }

  /** What a clause with these seconds adds. */
  function Add<T>(cfg: Config, c: Clause<T>, ms: int): Config {
    match c
    case OnTimeout(_, cmd, r) => cfg.(timeouts := [Timeout(ms, Some(cmd), r, false)] + cfg.timeouts)
    case BeforeSleep(cmd) => cfg.(beforeSleep := Some(cmd))
    case AfterResume(cmd) => cfg.(afterResume := Some(cmd))
    case Lock(cmd) => cfg.(lock := Some(cmd))
    case Unlock(cmd) => cfg.(unlock := Some(cmd))
    case IdleHint(_) => cfg.(timeouts := [Timeout(ms, None, None, true)] + cfg.timeouts, idlehint := true)
  }

  // ---- the parser

  /** One turn of the loop: words used and the new configuration, exit(-1), or return 1. */
  datatype Taken = Took(n: nat, cfg: Config) | Exits | Unsupported

  function TakeTimeout(args: seq<string>, cfg: Config): Taken {
    if |args| < 3 then Exits
    else match Seconds(args[1])
      case None => Exits
      case Some(n) =>
        if |args| >= 5 && args[3] == "resume"
        then Took(5, cfg.(timeouts := [Timeout(Millis(n), Some(args[2]), Some(args[4]), false)] + cfg.timeouts))
        else Took(3, cfg.(timeouts := [Timeout(Millis(n), Some(args[2]), None, false)] + cfg.timeouts))
  }

  function TakeIdleHint(args: seq<string>, cfg: Config): Taken {
    if cfg.idlehint || |args| < 2 then Exits
    else match Seconds(args[1])
      case None => Exits
      case Some(n) => Took(2, cfg.(timeouts := [Timeout(Millis(n), None, None, true)] + cfg.timeouts, idlehint := true))
  }

  /** `logind`: compiled with systemd or elogind support. */
  function Take(args: seq<string>, cfg: Config, logind: bool): (t: Taken)
    requires args != []
    ensures t.Took? ==> 2 <= t.n <= |args|
  {
    if args[0] == "timeout" then TakeTimeout(args, cfg)
    else if args[0] in ["before-sleep", "after-resume", "lock", "unlock", "idlehint"] then
      if !logind then Exits
      else if args[0] == "idlehint" then TakeIdleHint(args, cfg)
      else if |args| < 2 then Exits
      else if args[0] == "before-sleep" then Took(2, cfg.(beforeSleep := Some(args[1])))
      else if args[0] == "after-resume" then Took(2, cfg.(afterResume := Some(args[1])))
      else if args[0] == "lock" then Took(2, cfg.(lock := Some(args[1])))
      else Took(2, cfg.(unlock := Some(args[1])))
    else Unsupported
  }

  datatype Parsed = Accepted(cfg: Config) | Exit | Refused

  function Parse(args: seq<string>, cfg: Config, logind: bool): Parsed {
    if args == [] then Accepted(cfg)
    else match Take(args, cfg, logind)
      case Took(n, next) => Parse(args[n..], next, logind)
      case Exits => Exit
      case Unsupported => Refused
  }

  // ---- the grammar, defined without the parser

  predicate Numbered<T>(c: Clause<T>) { c.OnTimeout? || c.IdleHint? }

  predicate Fits(c: Clause<string>, cfg: Config, logind: bool) {
    && (c.OnTimeout? || logind)
    && (Numbered(c) ==> Seconds(c.seconds).Some?)
    && (c.IdleHint? ==> !cfg.idlehint)
  }

  function MillisOf(c: Clause<string>): int {
    if Numbered(c) && Seconds(c.seconds).Some? then Millis(Seconds(c.seconds).value) else 0
  }

  /** The configuration a list of clauses stands for. */
  function Meaning(cs: seq<Clause<string>>, cfg: Config, logind: bool): Parsed {
    if cs == [] then Accepted(cfg)
    else if Fits(cs[0], cfg, logind) then Meaning(cs[1..], Add(cfg, cs[0], MillisOf(cs[0])), logind)
    else Exit
  }

  lemma TakeTimeoutClause(c: Clause<string>, rest: seq<string>, cfg: Config)
    requires c.OnTimeout? && (rest == [] || rest[0] != "resume")
    ensures TakeTimeout(Words(c) + rest, cfg)
         == if Seconds(c.seconds).Some? then Took(|Words(c)|, Add(cfg, c, MillisOf(c))) else Exits
  {
    var ws := Words(c) + rest;
    assert ws[1] == Words(c)[1] && ws[2] == Words(c)[2];
  }

  lemma TakeClause(c: Clause<string>, rest: seq<string>, cfg: Config, logind: bool)
    requires rest == [] || rest[0] != "resume"
    ensures Take(Words(c) + rest, cfg, logind)
         == if Fits(c, cfg, logind) then Took(|Words(c)|, Add(cfg, c, MillisOf(c))) else Exits
  {
    var ws := Words(c) + rest;
    assert ws[0] == Words(c)[0] && ws[1] == Words(c)[1];
    if c.OnTimeout? {
      TakeTimeoutClause(c, rest, cfg);
    }
  }

  lemma NoResume(cs: seq<Clause<string>>)
    ensures AllWords(cs) == [] <==> cs == []
    ensures cs != [] ==> AllWords(cs)[0] == Words(cs[0])[0] && AllWords(cs)[0] != "resume"
  {
  }

  lemma ParseClauseFirst(c: Clause<string>, rest: seq<string>, cfg: Config, logind: bool)
    requires rest == [] || rest[0] != "resume"
    ensures Parse(Words(c) + rest, cfg, logind)
         == if Fits(c, cfg, logind) then Parse(rest, Add(cfg, c, MillisOf(c)), logind) else Exit
  {
    TakeClause(c, rest, cfg, logind);
    assert (Words(c) + rest)[|Words(c)|..] == rest;
  }

  /** Every list of clauses is parsed as exactly those clauses. */
  lemma {:induction false} ParsesMeaning(cs: seq<Clause<string>>, cfg: Config, logind: bool)
    ensures Parse(AllWords(cs), cfg, logind) == Meaning(cs, cfg, logind)
  {
    if cs != [] {
      NoResume(cs[1..]);
      ParseClauseFirst(cs[0], AllWords(cs[1..]), cfg, logind);
      ParsesMeaning(cs[1..], Add(cfg, cs[0], MillisOf(cs[0])), logind);
    }
  }

  /** The clause at the front of a list of words. */
  function Front(args: seq<string>): Clause<string>
    requires |args| >= 2
  {
    if args[0] == "before-sleep" then BeforeSleep(args[1])
    else if args[0] == "after-resume" then AfterResume(args[1])
    else if args[0] == "lock" then Lock(args[1])
    else if args[0] == "unlock" then Unlock(args[1])
    else if args[0] == "idlehint" || |args| < 3 then IdleHint(args[1])
    else OnTimeout(args[1], args[2], if |args| >= 5 && args[3] == "resume" then Some(args[4]) else None)
  }

  lemma TimeoutIsFront(args: seq<string>, cfg: Config)
    requires args != [] && args[0] == "timeout" && TakeTimeout(args, cfg).Took?
    ensures Front(args).OnTimeout? && Words(Front(args)) == args[..TakeTimeout(args, cfg).n]
    ensures Seconds(Front(args).seconds).Some?
    ensures TakeTimeout(args, cfg).cfg == Add(cfg, Front(args), MillisOf(Front(args)))
  {
  }

  lemma TakenIsFront(args: seq<string>, cfg: Config, logind: bool)
    requires args != [] && Take(args, cfg, logind).Took?
    ensures Words(Front(args)) == args[..Take(args, cfg, logind).n]
    ensures Fits(Front(args), cfg, logind)
    ensures Take(args, cfg, logind).cfg == Add(cfg, Front(args), MillisOf(Front(args)))
  {
    if args[0] == "timeout" {
      TimeoutIsFront(args, cfg);
    }
  }

  function Split(args: seq<string>, cfg: Config, logind: bool): seq<Clause<string>> {
    if args == [] || !Take(args, cfg, logind).Took? then []
    else [Front(args)] + Split(args[Take(args, cfg, logind).n..], Take(args, cfg, logind).cfg, logind)
  }

  lemma {:induction false} AcceptedIsWords(args: seq<string>, cfg: Config, logind: bool)
    requires Parse(args, cfg, logind).Accepted?
    ensures AllWords(Split(args, cfg, logind)) == args
    ensures Meaning(Split(args, cfg, logind), cfg, logind) == Parse(args, cfg, logind)
    decreases |args|
  {
    if args != [] {
      var t := Take(args, cfg, logind);
      TakenIsFront(args, cfg, logind);
      AcceptedIsWords(args[t.n..], t.cfg, logind);
      assert Split(args, cfg, logind)[1..] == Split(args[t.n..], t.cfg, logind);
      assert args == args[..t.n] + args[t.n..];
    }
  }

  /** The parser accepts exactly the lists of well-formed clauses, and builds what they mean. */
  lemma AcceptsExactly(args: seq<string>, cfg: Config, out: Config, logind: bool)
    ensures Parse(args, cfg, logind) == Accepted(out)
       <==> exists cs :: AllWords(cs) == args && Meaning(cs, cfg, logind) == Accepted(out)
  {
    if Parse(args, cfg, logind) == Accepted(out) {
      AcceptedIsWords(args, cfg, logind);
    }
    forall cs | AllWords(cs) == args && Meaning(cs, cfg, logind) == Accepted(out)
      ensures Parse(args, cfg, logind) == Accepted(out)
    {
      ParsesMeaning(cs, cfg, logind);
    }
  }

  lemma FirstClause(c: Clause<string>, d: Clause<string>, r: seq<string>, t: seq<string>)
    requires Words(c) + r == Words(d) + t
    requires (r == [] || r[0] != "resume") && (t == [] || t[0] != "resume")
    ensures c == d && r == t
  {
    var ws := Words(c) + r;
    assert ws[0] == Words(c)[0] == Words(d)[0] && ws[1] == Words(c)[1] == Words(d)[1];
    if c.OnTimeout? {
      assert ws[2] == Words(c)[2] == Words(d)[2];
      assert c.resumeCmd.Some? ==> ws[3] == "resume" && ws[4] == c.resumeCmd.value;
      assert d.resumeCmd.Some? ==> ws[3] == "resume" && ws[4] == d.resumeCmd.value;
      assert c.resumeCmd == None && r != [] ==> ws[3] == r[0];
      assert d.resumeCmd == None && t != [] ==> ws[3] == t[0];
    }
    assert Words(c) == Words(d);
    assert r == ws[|Words(c)|..] == t;
  }

  /** The optional resume words make no list ambiguous. */
  lemma {:induction false} Unambiguous(cs: seq<Clause<string>>, ds: seq<Clause<string>>)
    requires AllWords(cs) == AllWords(ds)
    ensures cs == ds
  {
    NoResume(cs);
    NoResume(ds);
    if cs != [] {
      NoResume(cs[1..]);
      NoResume(ds[1..]);
      FirstClause(cs[0], ds[0], AllWords(cs[1..]), AllWords(ds[1..]));
      Unambiguous(cs[1..], ds[1..]);
      assert cs == [cs[0]] + cs[1..] && ds == [ds[0]] + ds[1..];
    }
  }

  // ---- what each clause sets

  /** The words of each clause. */
  lemma WordsSpell(c: Clause<string>)
    ensures var keyword := match c
        case OnTimeout(_, _, _) => "timeout"
        case BeforeSleep(_) => "before-sleep"
        case AfterResume(_) => "after-resume"
        case Lock(_) => "lock"
        case Unlock(_) => "unlock"
        case IdleHint(_) => "idlehint";
      Words(c)[0] == keyword && Words(c)[1] == (if c.OnTimeout? || c.IdleHint? then c.seconds else c.cmd)
    ensures c.OnTimeout? ==> |Words(c)| >= 3 && Words(c)[2] == c.cmd
    ensures c.OnTimeout? && c.resumeCmd.Some? ==> |Words(c)| == 5 && Words(c)[3..] == ["resume", c.resumeCmd.value]
    ensures c.OnTimeout? && c.resumeCmd == None ==> |Words(c)| == 3
  {
  }

  lemma {:induction false} MeaningSplit(a: seq<Clause<string>>, b: seq<Clause<string>>, cfg: Config, logind: bool)
    ensures Meaning(a + b, cfg, logind)
         == match Meaning(a, cfg, logind) case Accepted(mid) => Meaning(b, mid, logind) case other => other
  {
    if a == [] {
      assert a + b == b;
    } else {
      assert (a + b)[1..] == a[1..] + b;
      if Fits(a[0], cfg, logind) {
        MeaningSplit(a[1..], b, Add(cfg, a[0], MillisOf(a[0])), logind);
      }
    }
  }

  /** A field that no clause sets stays as it was. */
  lemma {:induction false} FieldsKept(cs: seq<Clause<string>>, cfg: Config, out: Config, logind: bool)
    requires Meaning(cs, cfg, logind) == Accepted(out)
    ensures (forall c :: c in cs ==> !c.BeforeSleep?) ==> out.beforeSleep == cfg.beforeSleep
    ensures (forall c :: c in cs ==> !c.AfterResume?) ==> out.afterResume == cfg.afterResume
    ensures (forall c :: c in cs ==> !c.Lock?) ==> out.lock == cfg.lock
    ensures (forall c :: c in cs ==> !c.Unlock?) ==> out.unlock == cfg.unlock
    ensures (forall c :: c in cs ==> !c.OnTimeout? && !c.IdleHint?) ==> out.timeouts == cfg.timeouts
    ensures out.idlehint <==> cfg.idlehint || exists c :: c in cs && c.IdleHint?
  {
    if cs != [] {
      assert forall c :: c in cs <==> c == cs[0] || c in cs[1..];
      FieldsKept(cs[1..], Add(cfg, cs[0], MillisOf(cs[0])), out, logind);
    }
  }

  /** Each field comes from the last clause of its kind, and the last timeout comes first. */
  lemma LastClause(before: seq<Clause<string>>, c: Clause<string>, after: seq<Clause<string>>, cfg: Config, out: Config,
                   logind: bool)
    requires Meaning(before + ([c] + after), cfg, logind) == Accepted(out)
    ensures c.BeforeSleep? && (forall d :: d in after ==> !d.BeforeSleep?) ==> out.beforeSleep == Some(c.cmd)
    ensures c.AfterResume? && (forall d :: d in after ==> !d.AfterResume?) ==> out.afterResume == Some(c.cmd)
    ensures c.Lock? && (forall d :: d in after ==> !d.Lock?) ==> out.lock == Some(c.cmd)
    ensures c.Unlock? && (forall d :: d in after ==> !d.Unlock?) ==> out.unlock == Some(c.cmd)
    ensures c.OnTimeout? && (forall d :: d in after ==> !d.OnTimeout? && !d.IdleHint?) ==>
      Seconds(c.seconds).Some? && var n := Seconds(c.seconds).value;
      && out.timeouts != [] && out.timeouts[0].idleCmd == Some(c.cmd) && out.timeouts[0].resumeCmd == c.resumeCmd
      && !out.timeouts[0].idlehint && (0 < n <= 2_147_483 ==> out.timeouts[0].ms == n * 1000)
      && (n <= 0 ==> out.timeouts[0].ms == -1)
    ensures c.IdleHint? && (forall d :: d in after ==> !d.OnTimeout? && !d.IdleHint?) ==>
      Seconds(c.seconds).Some? && var n := Seconds(c.seconds).value;
      && out.idlehint && out.timeouts != [] && out.timeouts[0].idlehint
      && out.timeouts[0].idleCmd == None && out.timeouts[0].resumeCmd == None
      && (0 < n <= 2_147_483 ==> out.timeouts[0].ms == n * 1000) && (n <= 0 ==> out.timeouts[0].ms == -1)
  {
    MeaningSplit(before, [c] + after, cfg, logind);
    var mid := Meaning(before, cfg, logind).cfg;
    assert ([c] + after)[1..] == after;
    var next := Add(mid, c, MillisOf(c));
    FieldsKept(after, next, out, logind);
    if Numbered(c) {
      ToIntModular(Seconds(c.seconds).value * 1000);
    }
  }

  /** What the parser does at a word in a clause's place: it refuses a word it does not know, and
      exits on a clause that is cut short, not supported or repeated, or has no number. */
  lemma FirstWord(args: seq<string>, cfg: Config, logind: bool)
    requires args != []
    ensures args[0] !in ["timeout", "before-sleep", "after-resume", "lock", "unlock", "idlehint"] ==>
      Parse(args, cfg, logind) == Refused
    ensures args[0] == "timeout" && (|args| < 3 || Seconds(args[1]) == None) ==> Parse(args, cfg, logind) == Exit
    ensures args[0] in ["before-sleep", "after-resume", "lock", "unlock"] && (!logind || |args| < 2) ==>
      Parse(args, cfg, logind) == Exit
    ensures args[0] == "idlehint" && (!logind || cfg.idlehint || |args| < 2 || Seconds(args[1]) == None) ==>
      Parse(args, cfg, logind) == Exit
  {
    assert args[0] == "idlehint" ==> args[0] in ["before-sleep", "after-resume", "lock", "unlock", "idlehint"];
  }

  /** It gets to each such place past the clauses before it, with what they mean. */
  lemma {:induction false} Continues(cs: seq<Clause<string>>, rest: seq<string>, cfg: Config, mid: Config, logind: bool)
    requires Meaning(cs, cfg, logind) == Accepted(mid) && (rest == [] || rest[0] != "resume")
    ensures Parse(AllWords(cs) + rest, cfg, logind) == Parse(rest, mid, logind)
  {
    if cs == [] {
      assert AllWords(cs) + rest == rest;
    } else {
      var more := AllWords(cs[1..]) + rest;
      assert more == [] || more[0] != "resume" by {
        NoResume(cs[1..]);
      }
      assert AllWords(cs) + rest == Words(cs[0]) + more;
      ParseClauseFirst(cs[0], more, cfg, logind);
      Continues(cs[1..], rest, Add(cfg, cs[0], MillisOf(cs[0])), mid, logind);
    }
  }

  // ---- printed configurations

  function Spell(c: Clause<nat>): Clause<string> {
    match c
    case OnTimeout(n, cmd, r) => OnTimeout(Decimal(n), cmd, r)
    case BeforeSleep(cmd) => BeforeSleep(cmd)
    case AfterResume(cmd) => AfterResume(cmd)
    case Lock(cmd) => Lock(cmd)
    case Unlock(cmd) => Unlock(cmd)
    case IdleHint(n) => IdleHint(Decimal(n))
  }

  function SpellAll(cs: seq<Clause<nat>>): seq<Clause<string>> {
    if cs == [] then [] else [Spell(cs[0])] + SpellAll(cs[1..])
  }

  function IntendedMs(c: Clause<nat>): int {
    if Numbered(c) then MillisMeant(c.seconds) else -1
  }

  /** The configuration meant by a list of clauses. */
  function Intended(cs: seq<Clause<nat>>, cfg: Config): Config {
    if cs == [] then cfg else Intended(cs[1..], Add(cfg, cs[0], IntendedMs(cs[0])))
  }

  predicate InRange(cs: seq<Clause<nat>>, logind: bool) {
    forall i :: 0 <= i < |cs| ==>
      (Numbered(cs[i]) ==> cs[i].seconds * 1000 < 0x8000_0000) && (cs[i].OnTimeout? || logind)
  }

  predicate OneHint(cs: seq<Clause<nat>>) {
    forall i, j :: 0 <= i < j < |cs| ==> !(cs[i].IdleHint? && cs[j].IdleHint?)
  }

  predicate NoHint(cs: seq<Clause<nat>>) {
    forall i :: 0 <= i < |cs| ==> !cs[i].IdleHint?
  }

  lemma AddSpelled(cfg: Config, c: Clause<nat>)
    requires Numbered(c) ==> c.seconds * 1000 < 0x8000_0000
    ensures Add(cfg, Spell(c), MillisOf(Spell(c))) == Add(cfg, c, IntendedMs(c))
  {
    if Numbered(c) {
      SecondsOf(c.seconds);
    }
  }

  lemma HintsSplit(cs: seq<Clause<nat>>)
    requires cs != []
    ensures NoHint(cs) <==> !cs[0].IdleHint? && NoHint(cs[1..])
    ensures OneHint(cs) <==> OneHint(cs[1..]) && (cs[0].IdleHint? ==> NoHint(cs[1..]))
  {
    assert forall i :: 0 <= i < |cs[1..]| ==> cs[1..][i] == cs[i + 1];
    assert forall i :: 1 <= i < |cs| ==> cs[i] == cs[1..][i - 1];
  }

  lemma {:induction false} IntendedMeaning(cs: seq<Clause<nat>>, cfg: Config, logind: bool)
    requires InRange(cs, logind)
    ensures Meaning(SpellAll(cs), cfg, logind)
         == if OneHint(cs) && (cfg.idlehint ==> NoHint(cs)) then Accepted(Intended(cs, cfg)) else Exit
  {
    if cs != [] {
      var c := cs[0];
      if Numbered(c) {
        SecondsOf(c.seconds);
      }
      assert SpellAll(cs)[1..] == SpellAll(cs[1..]);
      HintsSplit(cs);
      if !(c.IdleHint? && cfg.idlehint) {
        AddSpelled(cfg, c);
        assert Fits(Spell(c), cfg, logind);
        IntendedMeaning(cs[1..], Add(cfg, c, IntendedMs(c)), logind);
      }
    }
  }

  /** Parsing a printed configuration rebuilds it, unless it has two idlehint clauses, on which
      the daemon exits. */
  lemma RoundTrip(cs: seq<Clause<nat>>, logind: bool)
    requires InRange(cs, logind)
    ensures Parse(AllWords(SpellAll(cs)), EMPTY, logind) == if OneHint(cs) then Accepted(Intended(cs, EMPTY)) else Exit
  {
    ParsesMeaning(SpellAll(cs), EMPTY, logind);
    IntendedMeaning(cs, EMPTY, logind);
  }

  /** The timeouts of a list of clauses, in order. */
  function Timeouts(cs: seq<Clause<nat>>): seq<Timeout> {
    if cs == [] then []
    else match cs[0]
      case OnTimeout(_, cmd, r) => [Timeout(IntendedMs(cs[0]), Some(cmd), r, false)] + Timeouts(cs[1..])
      case IdleHint(_) => [Timeout(IntendedMs(cs[0]), None, None, true)] + Timeouts(cs[1..])
      case _ => Timeouts(cs[1..])
  }

  function Reverse<T>(s: seq<T>): seq<T> {
    if s == [] then [] else Reverse(s[1..]) + [s[0]]
  }

  /** They end up in reverse order. */
  lemma {:induction false} TimeoutsReversed(cs: seq<Clause<nat>>, cfg: Config)
    ensures Intended(cs, cfg).timeouts == Reverse(Timeouts(cs)) + cfg.timeouts
  {
    if cs != [] {
      var next := Add(cfg, cs[0], IntendedMs(cs[0]));
      TimeoutsReversed(cs[1..], next);
      if Numbered(cs[0]) {
        assert Timeouts(cs) == [next.timeouts[0]] + Timeouts(cs[1..]) && Timeouts(cs)[1..] == Timeouts(cs[1..]);
        assert next.timeouts == [next.timeouts[0]] + cfg.timeouts;
      }
    }
  }

  // ---- the program's loop

  /** A clause parser's return: the words it used, or exit(-1). */
  ghost predicate Answers(t: Taken, used: Maybe<nat>, now: Config, before: Config) {
    if used.Some? then t == Took(used.value, now) else t == Exits && now == before
  }

  lemma Done(args: seq<string>, cfg: Config, logind: bool)
    requires args == []
    ensures Parse(args, cfg, logind) == Accepted(cfg)
  {
  }

  /** The part of the daemon's state that the arguments fill. No index below reaches argc. */
  class Options {
    const logind: bool
    var timeouts: seq<Timeout>
    var beforeSleep: Maybe<string>
    var afterResume: Maybe<string>
    var lock: Maybe<string>
    var unlock: Maybe<string>
    var idlehint: bool

    function Abs(): Config
      reads this
    {
      Config(timeouts, beforeSleep, afterResume, lock, unlock, idlehint)
    }

    constructor (logind: bool)
      ensures Abs() == EMPTY && this.logind == logind
      ensures timeouts == [] && beforeSleep == afterResume == lock == unlock == None && !idlehint
    {
      this.logind := logind;
      timeouts, beforeSleep, afterResume, lock, unlock, idlehint := [], None, None, None, None, false;
    }

    method BuildTimeoutCmd(argv: seq<string>, i: nat) returns (ms: Maybe<int>)
      requires i + 2 <= |argv|
      ensures ms == match Seconds(argv[i + 1]) case None => None case Some(n) => Some(Millis(n))
    {
      var number := Strtoul(argv[i + 1]);
      if number.outOfRange || number.rest != "" {
        return None;
      }
      var seconds := ToInt(number.value);
      if seconds > 0 {
        ms := Some(ToInt(seconds * 1000));
      } else {
        ms := Some(-1);
      }
    }

    method ParseTimeout(argv: seq<string>, i: nat) returns (used: Maybe<nat>)
      requires i < |argv|
      modifies this`timeouts
      ensures Answers(TakeTimeout(argv[i..], old(Abs())), used, Abs(), old(Abs()))
    {
      var argc := |argv| - i;
      if argc < 3 {
        return None;
      }
      var ms := BuildTimeoutCmd(argv, i);
      if ms == None {
        return None;
      }
      var resumeCmd := None;
      used := Some(3);
      if argc >= 5 && argv[i + 3] == "resume" {
        resumeCmd := Some(argv[i + 4]);
        used := Some(5);
      }
      timeouts := [Timeout(ms.value, Some(argv[i + 2]), resumeCmd, false)] + timeouts;
    }

    method ParseIdleHint(argv: seq<string>, i: nat) returns (used: Maybe<nat>)
      requires i < |argv|
      modifies this`timeouts, this`idlehint
      ensures Answers(if logind then TakeIdleHint(argv[i..], old(Abs())) else Exits, used, Abs(), old(Abs()))
    {
      if !logind || idlehint || |argv| - i < 2 {
        return None;
      }
      var ms := BuildTimeoutCmd(argv, i);
      if ms == None {
        return None;
      }
      timeouts := [Timeout(ms.value, None, None, true)] + timeouts;
      idlehint := true;
      used := Some(2);
    }

    /** The four parsers of one command. */
    method ParseHook(argv: seq<string>, i: nat) returns (command: Maybe<string>)
      requires i < |argv|
      ensures command == if logind && |argv| - i >= 2 then Some(argv[i + 1]) else None
    {
      if !logind || |argv| - i < 2 {
        return None;
      }
      command := Some(argv[i + 1]);
    }

    method ParseClause(argv: seq<string>, i: nat) returns (used: Maybe<nat>, known: bool)
      requires i < |argv|
      modifies this
      ensures known <==> Take(argv[i..], old(Abs()), logind) != Unsupported
      ensures known ==> Answers(Take(argv[i..], old(Abs()), logind), used, Abs(), old(Abs()))
    {
      known, used := true, None;
      if argv[i] == "timeout" {
        used := ParseTimeout(argv, i);
      } else if argv[i] == "idlehint" {
        used := ParseIdleHint(argv, i);
      } else if argv[i] in ["before-sleep", "after-resume", "lock", "unlock"] {
        var command := ParseHook(argv, i);
        if command.Some? {
          used := Some(2);
          if argv[i] == "before-sleep" {
            beforeSleep := command;
          } else if argv[i] == "after-resume" {
            afterResume := command;
          } else if argv[i] == "lock" {
            lock := command;
          } else {
            unlock := command;
          }
        }
      } else {
        known := false;
      }
    }

    /** One turn of the loop, seen from the parse of the rest. */
    method Turn(argv: seq<string>, i: nat, ghost whole: Parsed) returns (next: Maybe<nat>, known: bool)
      requires i < |argv| && Parse(argv[i..], Abs(), logind) == whole
      modifies this
      ensures !known ==> whole == Refused
      ensures known && next == None ==> whole == Exit
      ensures known && next.Some? ==> i < next.value <= |argv|
      ensures known && next.Some? ==> Parse(argv[next.value..], Abs(), logind) == whole
    {
      var used;
      used, known := ParseClause(argv, i);
      next := None;
      if known && used.Some? {
        assert argv[i..][used.value..] == argv[i + used.value..];
        next := Some(i + used.value);
      }
    }

    /** parse_args after its options. */
    method ParseArgs(argv: seq<string>, optind: nat) returns (r: Parsed)
      requires optind <= |argv|
      modifies this
      ensures r == Parse(argv[optind..], old(Abs()), logind)
      ensures r.Accepted? ==> r.cfg == Abs()
    {
      ghost var whole := Parse(argv[optind..], Abs(), logind);
      var i := optind;
      while i < |argv|
        invariant optind <= i <= |argv| && Parse(argv[i..], Abs(), logind) == whole
      {
        var next, known := Turn(argv, i, whole);
        if !known {
          return Refused;
        }
        if next == None {
          return Exit;
        }
        i := next.value;
      }
      Done(argv[i..], Abs(), logind);
      r := Accepted(Abs());
    }
  }
}
