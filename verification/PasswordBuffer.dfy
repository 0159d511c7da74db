/** The lock screen's password buffer, edited in place (aetherlock/src/password.c:15-47). */
module PasswordBuffer {
  import opened Bytes
  import opened Utf8

  /** What is typed after one more character, in a buffer of `size` bytes: a character that
      would not leave a spare byte after the terminator is dropped. */
  function Typed(stack: seq<u32>, ch: u32, size: nat): seq<u32> {
    if |EncodeAll(stack)| + ChSize(ch) + 2 <= size then stack + [ch] else stack
  }

  /** `stack` is what the user has typed and not deleted. */
  class Password {
    const buffer: array<byte>
    var len: nat
    ghost var stack: seq<u32>

    /** The bytes before `len` are the encoding of the typed characters and a terminator
        follows; nothing is said about the bytes after it. */
    ghost predicate Valid()
      reads this, buffer
    {
      && len + 2 <= buffer.Length
      && buffer[..len] == EncodeAll(stack)
      && buffer[len] == 0
      && forall i :: 0 <= i < |stack| ==> stack[i] != 0
    }

    constructor (size: nat)
      requires size >= 2
      ensures Valid() && stack == [] && buffer.Length == size && fresh(buffer)
    {
      var a := new byte[size](_ => 0);
      buffer := a;
      len := 0;
      stack := [];
    }

    /** clear_buffer and clear_password_buffer. */
    method Clear()
      requires Valid()
      modifies this, buffer
      ensures Valid() && stack == [] && len == 0
      ensures forall i :: 0 <= i < buffer.Length ==> buffer[i] == 0
    {
      for i := 0 to buffer.Length
        invariant forall j :: 0 <= j < i ==> buffer[j] == 0
      {
        buffer[i] := 0;
      }
      len := 0;
      stack := [];
    }

    /** append_ch. */
    method Append(ch: u32)
      requires Valid() && ch != 0
      modifies this, buffer
      ensures Valid()
      ensures stack == Typed(old(stack), ch, buffer.Length)
      ensures var size := if ch < 0x80 then 1 else if ch < 0x800 then 2 else if ch < 0x10000 then 3 else 4;
              stack == if old(len) + size + 2 <= buffer.Length then old(stack) + [ch] else old(stack)
    {
      var size := ChSize(ch);
      if len + size + 1 >= buffer.Length {
        return;
      }
      var _ := WriteEncoded(buffer, len, ch);
      buffer[len + size] := 0;
      len := len + size;
      stack := stack + [ch];
      assert stack[..|stack| - 1] == old(stack);
      assert buffer[..len] == old(buffer[..len]) + Encode(ch);
    }

    /** backspace: the size of the last character is read back from the bytes. */
    method Backspace() returns (removed: bool)
      requires Valid()
      modifies this, buffer
      ensures Valid()
      ensures removed <==> old(stack) != []
      ensures stack == if removed then old(stack)[..|old(stack)| - 1] else []
    {
      TextIsFirstString();
      if len != 0 {
        var n := MeasureLast(buffer);
        var k := |stack| - 1;
        LastSizeOfEncoding(EncodeAll(stack[..k]), stack[k]);
        len := len - n;
        buffer[len] := 0;
        stack := stack[..k];
        assert buffer[..len] == old(buffer[..len])[..len] == EncodeAll(stack);
        removed := true;
      } else {
        removed := false;
      }
    }

    /** The first terminator is the one at `len`, whatever stale bytes lie beyond it. */
    lemma TextIsFirstString()
      requires Valid()
      ensures 0 in buffer[..]
      ensures forall z :: 0 <= z < buffer.Length && buffer[z] == 0 && 0 !in buffer[..z] ==> z == len
      ensures len == 0 <==> stack == []
    {
      NoZeroByte(stack);
      assert buffer[..][len] == 0;
      forall z | 0 <= z < buffer.Length && buffer[z] == 0 && 0 !in buffer[..z]
        ensures z == len
      {
        assert forall y :: 0 <= y < len ==> buffer[y] == buffer[..len][y] != 0;
        assert forall y :: 0 <= y < z ==> buffer[y] == buffer[..z][y] != 0;
      }
    }
  }
}
