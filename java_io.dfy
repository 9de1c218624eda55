/** The two `java.io` streams the server writes and reads frames with.

    `DataOutputStream` appends bytes to the connection: `writeByte` the low
    8 bits of its argument, `writeShort` the low 16 bits high byte first,
    `writeInt` all 32 bits high byte first, `write` an array unchanged. The
    written bytes are a sequence that grows; `IOException`s from the
    connection and `flush` are not modelled.

    `DataInputStream` reads the bytes the peer sends, front to back. Every
    read either gets all the bytes it asks for or throws `EOFException`;
    at end of stream nothing is left to read, so a failed read leaves the
    cursor at the end. A Java `byte` array is a sequence of byte patterns
    `0..255`; a signed Java `byte` read out of it is `AsI8` of the pattern. */
module JavaIo {
  import opened Bytes

  class DataOutput {
    var written: seq<byte>

    constructor ()
      ensures written == []
    {
      written := [];
    }

    method WriteByte(v: int)
      modifies this
      ensures written == old(written) + [Low8(v)]
    {
      written := written + [Low8(v)];
    }

    method WriteShort(v: int)
      modifies this
      ensures written == old(written) + Enc16(Low16(v))
    {
      written := written + Enc16(Low16(v));
    }

    method WriteInt(v: int)
      modifies this
      ensures written == old(written) + Enc32(Low32(v))
    {
      written := written + Enc32(Low32(v));
    }

    method Write(b: seq<byte>)
      modifies this
      ensures written == old(written) + b
    {
      written := written + b;
    }
  }

  class DataInput {
    const data: seq<byte>
    var pos: nat

    ghost predicate Valid()
      reads this
    {
      pos <= |data|
    }

    constructor (data: seq<byte>)
      ensures Valid() && this.data == data && pos == 0
    {
      this.data := data;
      pos := 0;
    }

    /** `readFully` into an `n`-byte array. */
    method ReadFully(n: nat) returns (ok: bool, b: seq<byte>)
      requires Valid()
      modifies this`pos
      ensures Valid()
      ensures ok <==> old(pos) + n <= |data|
      ensures ok ==> b == data[old(pos)..old(pos) + n] && pos == old(pos) + n
      ensures !ok ==> pos == |data|
    {
      if pos + n > |data| {
        pos := |data|;
        return false, [];
      }
      b := data[pos..pos + n];
      pos := pos + n;
      ok := true;
    }

    /** `skipNBytes`: nothing for `n <= 0`, otherwise exactly `n` bytes or
        `EOFException`. */
    method SkipNBytes(n: int) returns (ok: bool)
      requires Valid()
      modifies this`pos
      ensures Valid()
      ensures ok <==> n <= 0 || old(pos) + n <= |data|
      ensures ok ==> pos == old(pos) + (if n > 0 then n else 0)
      ensures !ok ==> pos == |data|
    {
      if n <= 0 {
        return true;
      }
      if pos + n > |data| {
        pos := |data|;
        return false;
      }
      pos := pos + n;
      ok := true;
    }

    method ReadByte() returns (ok: bool, v: i8)
      requires Valid()
      modifies this`pos
      ensures Valid()
      ensures ok <==> old(pos) + 1 <= |data|
      ensures ok ==> v == AsI8(data[old(pos)]) && pos == old(pos) + 1
      ensures !ok ==> pos == |data|
    {
      v := 0;
      var b;
      ok, b := ReadFully(1);
      if ok {
        v := AsI8(b[0]);
      }
    }

    method ReadUnsignedShort() returns (ok: bool, v: u16)
      requires Valid()
      modifies this`pos
      ensures Valid()
      ensures ok <==> old(pos) + 2 <= |data|
      ensures ok ==> v == Be16(data[old(pos)..]) && pos == old(pos) + 2
      ensures !ok ==> pos == |data|
    {
      v := 0;
      var b;
      ok, b := ReadFully(2);
      if ok {
        v := Be16(b);
      }
    }

    method ReadShort() returns (ok: bool, v: i16)
      requires Valid()
      modifies this`pos
      ensures Valid()
      ensures ok <==> old(pos) + 2 <= |data|
      ensures ok ==> v == AsI16(Be16(data[old(pos)..])) && pos == old(pos) + 2
      ensures !ok ==> pos == |data|
    {
      v := 0;
      var b;
      ok, b := ReadFully(2);
      if ok {
        v := AsI16(Be16(b));
      }
    }

    method ReadInt() returns (ok: bool, v: i32)
      requires Valid()
      modifies this`pos
      ensures Valid()
      ensures ok <==> old(pos) + 4 <= |data|
      ensures ok ==> v == AsI32(Be32(data[old(pos)..])) && pos == old(pos) + 4
      ensures !ok ==> pos == |data|
    {
      v := 0;
      var b;
      ok, b := ReadFully(4);
      if ok {
        v := AsI32(Be32(b));
      }
    }
  }
}
