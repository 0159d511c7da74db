/** The time stamps that the recorder's write loop gives to frames (aether-recorder/src/main.cpp:674-718),
    while the audio thread may still have to set its time base. */
module WriterTimestamps {

  type u64 = x: int | 0 <= x < 0x1_0000_0000_0000_0000

  /** Subtraction of unsigned words. */
  function Minus(a: u64, b: u64): u64 { (a - b) % 0x1_0000_0000_0000_0000 }

  /** A frame's presentation time and the up to three readings of the audio time base made for it. */
  datatype Frame = Frame(base: u64, test: u64, compare: u64, take: u64)

  datatype Origin = Unset | At(usec: u64)

  datatype Outcome = Drop | Stamp(usec: u64)

  function TurnOrigin(o: Origin, audio: bool, f: Frame): Origin {
    if o.At? then o
    else if !audio then At(f.base)
    else if f.test == 0 || f.compare > f.base then Unset
    else At(f.take)
  }

  function TurnOutcome(o: Origin, audio: bool, f: Frame): Outcome {
    match TurnOrigin(o, audio, f)
    case Unset => Drop
    case At(first) => Stamp(Minus(f.base, first))
  }

  /** first_frame_ts after `k` frames. */
  function OriginAfter(frames: seq<Frame>, audio: bool, k: nat): Origin
    requires k <= |frames|
  {
    if k == 0 then Unset else TurnOrigin(OriginAfter(frames, audio, k - 1), audio, frames[k - 1])
  }

  function OutcomeOf(frames: seq<Frame>, audio: bool, k: nat): Outcome
    requires k < |frames|
  {
    TurnOutcome(OriginAfter(frames, audio, k), audio, frames[k])
  }

  /** The loop of the write thread. */
  method WriteLoop(frames: seq<Frame>, audio: bool) returns (outs: seq<Outcome>)
    ensures |outs| == |frames|
    ensures forall k :: 0 <= k < |frames| ==> outs[k] == OutcomeOf(frames, audio, k)
  {
    var first := Unset;
    outs := [];
    for i := 0 to |frames|
      invariant first == OriginAfter(frames, audio, i) && |outs| == i
      invariant forall k :: 0 <= k < i ==> outs[k] == OutcomeOf(frames, audio, k)
    {
      var drop := false;
      var stamp: u64 := 0;
      if first.At? {
        stamp := Minus(frames[i].base, first.usec);
      } else if audio {
        if frames[i].test == 0 || frames[i].compare > frames[i].base {
          drop := true;
        } else {
          first := At(frames[i].take);
          stamp := Minus(frames[i].base, first.usec);
        }
      } else {
        first := At(frames[i].base);
      }
      outs := outs + [if drop then Drop else Stamp(stamp)];
    }
  }

  // ---- what the environment promises

  ghost predicate Rising(frames: seq<Frame>) {
    forall i, j :: 0 <= i < j < |frames| ==> frames[i].base <= frames[j].base
  }

  predicate Readings(f: Frame, t: u64) {
    && f.test in {0, t} && f.compare in {0, t} && f.take in {0, t}
    && (f.test == t ==> f.compare == t) && (f.compare == t ==> f.take == t)
  }

  /** A reading is zero until the audio thread has stored `t`, and `t` ever after. */
  ghost predicate SetOnce(frames: seq<Frame>, t: u64) {
    && t != 0
    && (forall i :: 0 <= i < |frames| ==> Readings(frames[i], t))
    && (forall i, j :: 0 <= i < j < |frames| && frames[i].take == t ==> frames[j].test == t)
  }

  /** The frame could be placed on the audio clock. */
  predicate Ready(f: Frame, audio: bool, t: u64) {
    !audio || (f.test == t && t <= f.base)
  }

  // ---- what every run of the loop gives

  lemma {:induction false} OriginIs(frames: seq<Frame>, audio: bool, t: u64, k: nat)
    requires Rising(frames) && SetOnce(frames, t) && k <= |frames|
    ensures OriginAfter(frames, audio, k).At? <==> exists i :: 0 <= i < k && Ready(frames[i], audio, t)
    ensures OriginAfter(frames, audio, k).At? ==>
      OriginAfter(frames, audio, k).usec == if audio then t else frames[0].base
    ensures OriginAfter(frames, audio, k).At? ==>
      forall j :: k - 1 <= j < |frames| ==> OriginAfter(frames, audio, k).usec <= frames[j].base
  {
    if k > 0 {
      OriginIs(frames, audio, t, k - 1);
      assert Readings(frames[k - 1], t);
      assert audio || Ready(frames[0], audio, t);
      assert forall j :: k - 1 < j < |frames| ==> frames[k - 1].base <= frames[j].base;
    }
  }

  /** A frame is dropped exactly while no frame up to it could be placed on the audio clock, so the
      dropped frames form a prefix; without audio none is. */
  lemma DroppedPrefix(frames: seq<Frame>, audio: bool, t: u64, k: nat)
    requires Rising(frames) && SetOnce(frames, t) && k < |frames|
    ensures OutcomeOf(frames, audio, k) == Drop
       <==> audio && forall i :: 0 <= i <= k ==> frames[i].test == 0 || frames[i].base < t
  {
    OriginIs(frames, audio, t, k + 1);
    assert forall i :: 0 <= i <= k ==> Readings(frames[i], t);
    assert !audio ==> Ready(frames[0], audio, t);
  }

  /** A stamp is the exact distance from the origin: no unsigned wrap-around. */
  lemma StampExact(frames: seq<Frame>, audio: bool, t: u64, k: nat)
    requires Rising(frames) && SetOnce(frames, t) && k < |frames| && OutcomeOf(frames, audio, k).Stamp?
    ensures var origin := if audio then t else frames[0].base;
            origin <= frames[k].base && OutcomeOf(frames, audio, k).usec == frames[k].base - origin
  {
    OriginIs(frames, audio, t, k + 1);
  }

  /** Stamps never decrease and keep the distances between presentation times. */
  lemma StampsKeepDistance(frames: seq<Frame>, audio: bool, t: u64, i: nat, j: nat)
    requires Rising(frames) && SetOnce(frames, t) && i < j < |frames| && OutcomeOf(frames, audio, i).Stamp?
    ensures OutcomeOf(frames, audio, j).Stamp?
    ensures OutcomeOf(frames, audio, j).usec - OutcomeOf(frames, audio, i).usec == frames[j].base - frames[i].base >= 0
  {
    DroppedPrefix(frames, audio, t, i);
    DroppedPrefix(frames, audio, t, j);
    StampExact(frames, audio, t, i);
    StampExact(frames, audio, t, j);
  }

  // ---- presentation times

  datatype Timespec = Timespec(sec: nat, nsec: nat)

  /** timespec_to_usec. */
  function ToUsec(ts: Timespec): nat { ts.sec * 1_000_000 + ts.nsec / 1000 }

  /** The whole microseconds of a presentation time. */
  lemma UsecFloor(ts: Timespec)
    ensures var ns := ts.sec * 1_000_000_000 + ts.nsec; ToUsec(ts) * 1000 <= ns < (ToUsec(ts) + 1) * 1000
  {
  }

  predicate NotAfter(a: Timespec, b: Timespec) { a.sec < b.sec || (a.sec == b.sec && a.nsec <= b.nsec) }

  /** Presentation times in order stay in order, as microseconds; equal stamps are less than one
      microsecond apart. */
  lemma UsecOrder(a: Timespec, b: Timespec)
    requires a.nsec < 1_000_000_000 && b.nsec < 1_000_000_000 && NotAfter(a, b)
    ensures ToUsec(a) <= ToUsec(b)
    ensures ToUsec(a) == ToUsec(b) ==> a.sec == b.sec && b.nsec - a.nsec < 1000
  {
  }
}
