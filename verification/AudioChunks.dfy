/** The PipeWire reader's re-chunker (aether-recorder/src/pipewire.cpp:50-116): chunks of any
    size go in, frames of exactly `audio_frame_size` bytes come out, the rest waits in `buf`. */
module AudioChunks {
  import opened Bytes

  function Concat(cs: seq<seq<byte>>): seq<byte> {
    if cs == [] then [] else cs[0] + Concat(cs[1..])
  }

  /** A byte string cut into whole frames of `f` bytes. */
  function Frames(f: nat, s: seq<byte>): seq<seq<byte>>
    requires f >= 1
  {
    if |s| < f then [] else [s[..f]] + Frames(f, s[f..])
  }

  /** What does not fill a frame. */
  function Left(f: nat, s: seq<byte>): (l: seq<byte>)
    requires f >= 1
    ensures |l| < f
  {
    if |s| < f then s else Left(f, s[f..])
  }

  ghost predicate Cut(f: nat, s: seq<byte>, out: seq<seq<byte>>, left: seq<byte>) {
    Concat(out) + left == s && |left| < f && forall i :: 0 <= i < |out| ==> |out[i]| == f
  }

  lemma {:induction false} CutHolds(f: nat, s: seq<byte>)
    requires f >= 1
    ensures Cut(f, s, Frames(f, s), Left(f, s))
    decreases |s|
  {
    if |s| >= f {
      CutHolds(f, s[f..]);
      assert Frames(f, s)[1..] == Frames(f, s[f..]);
      assert s == s[..f] + s[f..];
      assert Concat(Frames(f, s)) + Left(f, s) == s[..f] + (Concat(Frames(f, s[f..])) + Left(f, s[f..]));
    }
  }

  lemma {:induction false} CutOnce(f: nat, s: seq<byte>, out: seq<seq<byte>>, left: seq<byte>)
    requires f >= 1 && Cut(f, s, out, left)
    ensures out == Frames(f, s) && left == Left(f, s)
    decreases |out|
  {
    if out == [] {
      assert s == left;
    } else {
      assert s == out[0] + (Concat(out[1..]) + left);
      assert s[..f] == out[0] && s[f..] == Concat(out[1..]) + left;
      CutOnce(f, s[f..], out[1..], left);
      assert out == [out[0]] + out[1..];
    }
  }

  /** Frames and leftover are the only way to cut the bytes: nothing lost, doubled or reordered. */
  lemma CutUnique(f: nat, s: seq<byte>, out: seq<seq<byte>>, left: seq<byte>)
    requires f >= 1
    ensures Cut(f, s, out, left) <==> out == Frames(f, s) && left == Left(f, s)
  {
    if Cut(f, s, out, left) {
      CutOnce(f, s, out, left);
    } else {
      CutHolds(f, s);
    }
  }

  /** More bytes continue from the leftover, so where the chunks were split does not matter. */
  lemma {:induction false} CutResumes(f: nat, s: seq<byte>, t: seq<byte>)
    requires f >= 1
    ensures Frames(f, s + t) == Frames(f, s) + Frames(f, Left(f, s) + t)
    ensures Left(f, s + t) == Left(f, Left(f, s) + t)
    decreases |s|
  {
    if |s| >= f {
      CutResumes(f, s[f..], t);
      assert (s + t)[..f] == s[..f] && (s + t)[f..] == s[f..] + t;
    }
  }

  /** Every chunk finds room for itself behind the leftover of those before. */
  ghost predicate Room(f: nat, left: seq<byte>, chunks: seq<seq<byte>>)
    requires f >= 1
    decreases |chunks|
  {
    chunks != [] ==> |left| + |chunks[0]| <= 4 * f && Room(f, Left(f, left + chunks[0]), chunks[1..])
  }

  /** A size always fits, whatever is left over, exactly when it is at most three frames and a byte. */
  lemma AlwaysFits(f: nat, n: nat)
    requires f >= 1
    ensures n <= 3 * f + 1 <==> forall left: seq<byte> :: |left| < f ==> |left| + n <= 4 * f
  {
    var worst: seq<byte> := seq(f - 1, _ => 0);
    assert |worst| == f - 1;
  }

  lemma {:induction false} SmallChunksFit(f: nat, left: seq<byte>, chunks: seq<seq<byte>>)
    requires f >= 1 && |left| < f && forall i :: 0 <= i < |chunks| ==> |chunks[i]| <= 3 * f
    ensures Room(f, left, chunks)
    decreases |chunks|
  {
    if chunks != [] {
      SmallChunksFit(f, Left(f, left + chunks[0]), chunks[1..]);
    }
  }

  /** The reader: `out` is what add_audio has been given, in order. */
  class Reader {
    const frameSize: nat
    const buf: array<byte>
    var bufSize: nat
    var timeBase: nat
    var out: seq<seq<byte>>
    ghost var input: seq<byte>

    ghost predicate Valid()
      reads this, buf
    {
      && frameSize >= 1 && buf.Length == 4 * frameSize && bufSize < frameSize
      && out == Frames(frameSize, input) && buf[..bufSize] == Left(frameSize, input)
    }

    constructor (f: nat)
      requires f >= 1
      ensures Valid() && fresh(buf) && frameSize == f && input == [] && timeBase == 0
    {
      frameSize := f;
      buf := new byte[4 * f];
      bufSize, timeBase, out, input := 0, 0, [], [];
    }

    /** memcpy of a chunk behind the leftover. */
    method CopyIn(chunk: seq<byte>)
      requires bufSize + |chunk| <= buf.Length
      modifies buf, this`bufSize
      ensures bufSize == old(bufSize) + |chunk| && buf[..bufSize] == old(buf[..bufSize]) + chunk
    {
      for j := 0 to |chunk|
        invariant bufSize == old(bufSize) && buf[..bufSize] == old(buf[..bufSize])
        invariant buf[bufSize..bufSize + j] == chunk[..j]
      {
        buf[bufSize + j] := chunk[j];
      }
      bufSize := bufSize + |chunk|;
    }

    /** memmove of everything behind the first frame to the front. */
    method DropFrame()
      requires frameSize <= bufSize <= buf.Length
      modifies buf, this`bufSize
      ensures bufSize == old(bufSize) - frameSize && buf[..bufSize] == old(buf[frameSize..bufSize])
    {
      bufSize := bufSize - frameSize;
      for j := 0 to bufSize
        invariant bufSize == old(bufSize) - frameSize
        invariant forall i :: 0 <= i < j ==> buf[i] == old(buf[frameSize + i])
        invariant forall i :: j <= i < buf.Length ==> buf[i] == old(buf[i])
      {
        buf[j] := buf[frameSize + j];
      }
    }

    /** One frame handed to add_audio. */
    method Emit()
      requires frameSize >= 1 && frameSize <= bufSize <= buf.Length
      modifies this`bufSize, this`out, buf
      ensures bufSize <= buf.Length && bufSize == old(bufSize) - frameSize
      ensures old(out) + Frames(frameSize, old(buf[..bufSize])) == out + Frames(frameSize, buf[..bufSize])
      ensures Left(frameSize, old(buf[..bufSize])) == Left(frameSize, buf[..bufSize])
    {
      ghost var s := buf[..bufSize];
      assert s[..frameSize] == buf[..frameSize] && s[frameSize..] == buf[frameSize..bufSize];
      out := out + [buf[..frameSize]];
      DropFrame();
    }

    /** One chunk of the callback's loop. */
    method Feed(chunk: seq<byte>)
      requires Valid() && bufSize + |chunk| <= buf.Length
      modifies this`bufSize, this`out, this`input, buf
      ensures Valid() && input == old(input) + chunk
      ensures buf[..bufSize] == Left(frameSize, old(buf[..bufSize]) + chunk)
    {
      CutResumes(frameSize, input, chunk);
      ghost var all := Left(frameSize, input) + chunk;
      CopyIn(chunk);
      input := input + chunk;
      while bufSize >= frameSize
        invariant bufSize <= buf.Length && input == old(input) + chunk
        invariant out + Frames(frameSize, buf[..bufSize]) == old(out) + Frames(frameSize, all)
        invariant Left(frameSize, buf[..bufSize]) == Left(frameSize, all)
      {
        Emit();
      }
      assert Frames(frameSize, buf[..bufSize]) == [];
    }

    /** The whole callback: frames and leftover depend only on the bytes received so far, and the
        first non-zero time stamp is kept. Nothing checks that a chunk finds room: `overrun` is the
        point where the copy would leave the buffer, and what follows it is not modelled. */
    method OnStreamProcess(chunks: seq<seq<byte>>, time: nat) returns (overrun: bool)
      requires Valid()
      modifies this, buf
      ensures overrun <==> !Room(frameSize, old(buf[..bufSize]), chunks)
      ensures !overrun ==> Valid() && input == old(input) + Concat(chunks)
      ensures !overrun ==> timeBase == if old(timeBase) != 0 then old(timeBase) else time
    {
      for i := 0 to |chunks|
        invariant Valid()
        invariant Room(frameSize, buf[..bufSize], chunks[i..]) <==> Room(frameSize, old(buf[..bufSize]), chunks)
        invariant input + Concat(chunks[i..]) == old(input) + Concat(chunks) && timeBase == old(timeBase)
      {
        ghost var rest := chunks[i..];
        assert rest[0] == chunks[i] && rest[1..] == chunks[i + 1..];
        if bufSize + |chunks[i]| > buf.Length {
          return true;
        }
        ghost var was := input;
        Feed(chunks[i]);
        assert was + Concat(rest) == input + Concat(rest[1..]);
      }
      if timeBase == 0 {
        timeBase := time;
      }
      overrun := false;
    }
  }
}
