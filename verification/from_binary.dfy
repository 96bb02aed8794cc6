/**
 bbox::enc::FromBinary: the reader as its methods run it.
 */
module FromBinaryClass {
  import opened BinaryCodec

  class FromBinary {
    const data: seq<Byte>
    var readPtr: nat
    var hasError: bool
    var errorStr: string

    ghost function View(): Reader
      reads this
    {
      Reader(data, readPtr, if hasError then Error(errorStr) else NoError)
    }

    constructor (bytes: seq<Byte>)
      ensures View() == Reader(bytes, 0, NoError)
    {
      data, readPtr, hasError, errorStr := bytes, 0, false, "";
    }

    method SetError(err: string)
      modifies this`hasError, this`errorStr
      ensures View() == Fail(old(View()), err)
    {
      if !hasError {
        hasError := true;
        errorStr := err;
      }
    }

    method PrivateCanRead(len: nat) returns (result: bool)
      requires ReaderOK(View())
      modifies this`hasError, this`errorStr
      ensures result <==> |data| - readPtr >= len
      ensures View() == if result then old(View()) else Fail(old(View()), "No more data remaining")
    {
      result := |data| - readPtr >= len;
      if !result && !hasError {
        SetError("No more data remaining");
      }
    }

    method ReadUint8() returns (result: nat)
      requires ReaderOK(View())
      modifies this
      ensures View() == ReadNum(old(View()), 1).r && result == ReadNum(old(View()), 1).v
    {
      result := 0;
      var ok := PrivateCanRead(1);
      if ok {
        result := data[readPtr];
        assert data[readPtr..readPtr + 1] == [data[readPtr]];
        assert FromLittleEndian([data[readPtr]][1..]) == 0;
        readPtr := readPtr + 1;
      }
    }

    method ReadUint16() returns (result: nat)
      requires ReaderOK(View())
      modifies this
      ensures View() == ReadNum(old(View()), 2).r && result == ReadNum(old(View()), 2).v
    {
      result := 0;
      var ok := PrivateCanRead(2);
      if ok {
        From2(data[readPtr..readPtr + 2]);
        result := data[readPtr] + data[readPtr + 1] as int * 0x100;
        readPtr := readPtr + 2;
      }
    }

    static function UncheckedDecodeUint32(src: seq<Byte>): (v: nat)
      requires |src| == 4
      ensures v == FromLittleEndian(src)
    {
      From4(src);
      src[0] + src[1] as int * 0x100 + src[2] as int * 0x1_0000 + src[3] as int * 0x100_0000
    }

    method ReadUint32() returns (result: nat)
      requires ReaderOK(View())
      modifies this
      ensures View() == ReadNum(old(View()), 4).r && result == ReadNum(old(View()), 4).v
    {
      result := 0;
      var ok := PrivateCanRead(4);
      if ok {
        result := UncheckedDecodeUint32(data[readPtr..readPtr + 4]);
        readPtr := readPtr + 4;
      }
    }

    method ReadUint64() returns (result: nat)
      requires ReaderOK(View())
      modifies this
      ensures View() == ReadNum(old(View()), 8).r && result == ReadNum(old(View()), 8).v
    {
      result := 0;
      var ok := PrivateCanRead(8);
      if ok {
        var src := data[readPtr..readPtr + 8];
        From8(src);
        result := src[0] + src[1] as int * 0x100 + src[2] as int * 0x1_0000 + src[3] as int * 0x100_0000
                  + src[4] as int * 0x1_0000_0000 + src[5] as int * 0x100_0000_0000
                  + src[6] as int * 0x1_0000_0000_0000 + src[7] as int * 0x100_0000_0000_0000;
        readPtr := readPtr + 8;
      }
    }

    /** ReadString and ReadByteVector, with their own error texts. */
    method ReadBytes(tooLong: string) returns (result: seq<Byte>)
      requires ReaderOK(View())
      modifies this
      ensures View() == ReadBlock(old(View()), tooLong).r && result == ReadBlock(old(View()), tooLong).s
    {
      result := [];
      var size := ReadUint64();
      if !hasError {
        if size > |data| - readPtr {
          SetError(tooLong);
        } else if size != 0 {
          result := data[readPtr..readPtr + size];
          readPtr := readPtr + size;
        }
      }
    }

    /** Reads one value the way its type asks for. */
    method Read(lib: Library, k: Kind) returns (i: Item)
      requires ReaderOK(View()) && (k.NumKind? ==> WidthOK(k.width)) && LibraryOK(lib)
      modifies this
      ensures View() == ReadItem(lib, k, old(View())).r && i == ReadItem(lib, k, old(View())).i
      decreases |data| - readPtr, 0, 1
    {
      match k
      case NumKind(w, signed) =>
        var u: nat;
        match w {
          case 1 => u := ReadUint8();
          case 2 => u := ReadUint16();
          case 4 => u := ReadUint32();
          case 8 => u := ReadUint64();
        }
        i := Num(w, signed, if signed then ToSigned(u, w) else u);
      case BoolKind =>
        var u := ReadUint8();
        i := Bool(u != 0);
      case StringKind =>
        var s := ReadBytes(STRING_TOO_LONG);
        i := Str(s);
      case BytesKind =>
        var s := ReadBytes(BYTES_TOO_LONG);
        i := Bytes(s);
      case MessageKind => i := ReadMsgAnyPtr(lib);
    }

    method ReadMsgAnyPtr(lib: Library) returns (i: Item)
      requires ReaderOK(View()) && LibraryOK(lib)
      modifies this
      ensures View() == ReadItem(lib, MessageKind, old(View())).r && i == ReadItem(lib, MessageKind, old(View())).i
      decreases |data| - readPtr, 0, 0
    {
      var name := ReadBytes(STRING_TOO_LONG);
      if |name| == 0 { return NullMessage; }
      if name !in lib {
        SetError(UNKNOWN_TYPE);
        return NullMessage;
      }
      var members := ReadMembers(lib, lib[name]);
      i := Message(name, members);
    }

    /** DecodeContents of a message. */
    method ReadMembers(lib: Library, ks: seq<Kind>) returns (xs: Items)
      requires ReaderOK(View()) && LibraryOK(lib) && forall k :: k in ks && k.NumKind? ==> WidthOK(k.width)
      modifies this
      ensures View() == ReadItems(lib, ks, old(View())).r && xs == ReadItems(lib, ks, old(View())).xs
      decreases |data| - readPtr, 1, |ks|
    {
      xs := Nil;
      if |ks| > 0 {
        assert ks[0] in ks;
        var head := Read(lib, ks[0]);
        var tail := ReadMembers(lib, ks[1..]);
        xs := Cons(head, tail);
      }
    }

    method EnsureAllRead()
      requires ReaderOK(View())
      modifies this`hasError, this`errorStr
      ensures View() == EnsureAllBytesRead(old(View()))
    {
      if !hasError && |data| - readPtr != 0 {
        SetError("Unexpected bytes remaining at end");
      }
    }
  }

  predicate LibraryOK(lib: Library) { forall n, k :: n in lib && k in lib[n] && k.NumKind? ==> WidthOK(k.width) }

  lemma From2(s: seq<Byte>)
    requires |s| == 2
    ensures FromLittleEndian(s) == s[0] + s[1] as int * 0x100
  {
    assert FromLittleEndian(s[1..]) == s[1] + 256 * FromLittleEndian(s[1..][1..]);
    assert s[1..][1..] == [];
  }

  lemma From4(s: seq<Byte>)
    requires |s| == 4
    ensures FromLittleEndian(s) == s[0] + s[1] as int * 0x100 + s[2] as int * 0x1_0000 + s[3] as int * 0x100_0000
  {
    From2(s[2..]);
    assert s[1..][1..] == s[2..];
    assert FromLittleEndian(s[1..]) == s[1] + 256 * FromLittleEndian(s[2..]);
  }

  lemma From8(s: seq<Byte>)
    requires |s| == 8
    ensures FromLittleEndian(s) == s[0] + s[1] as int * 0x100 + s[2] as int * 0x1_0000 + s[3] as int * 0x100_0000
      + s[4] as int * 0x1_0000_0000
      + s[5] as int * 0x100_0000_0000 + s[6] as int * 0x1_0000_0000_0000 + s[7] as int * 0x100_0000_0000_0000
  {
    From4(s[4..]);
    assert s[1..][1..] == s[2..] && s[2..][1..] == s[3..] && s[3..][1..] == s[4..];
    assert FromLittleEndian(s[1..]) == s[1] + 256 * FromLittleEndian(s[2..]);
    assert FromLittleEndian(s[2..]) == s[2] + 256 * FromLittleEndian(s[3..]);
    assert FromLittleEndian(s[3..]) == s[3] + 256 * FromLittleEndian(s[4..]);
  }
}
