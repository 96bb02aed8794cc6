/**
 bbox::enc::ToBinary: a buffer that grows by one doubling when a write does not fit.
 */
module ToBinaryModel {
  import opened BinaryCodec

  const SIZE_LIMIT: nat := 0x1_0000_0000_0000_0000

  const FIXED_FULL := "Exceeds provided buffer size"
  const TOO_MUCH := "Exceeds maximum size"

  /** Whether the buffer is the object's own, its length, what was written to it, and the first error. */
  datatype Writer = Writer(auto: bool, len: nat, data: seq<Byte>, error: Error)

  predicate WriterOK(w: Writer) { |w.data| <= w.len < SIZE_LIMIT }

  /** PrivateTestForWrite: the buffer after making room for `n` bytes, or with an error. */
  function Test(w: Writer, n: nat): Writer {
    if w.error != NoError || w.len - |w.data| >= n then w
    else if !w.auto then w.(error := Error(FIXED_FULL))
    else
      var len := 2 * w.len % SIZE_LIMIT;
      if len < w.len then w.(error := Error(TOO_MUCH)) else w.(len := len)
  }

  /** The buffer is long enough when PrivateTestForWrite says that it is. */
  predicate Fits(w: Writer, n: nat) { Test(w, n).error == NoError ==> Test(w, n).len - |w.data| >= n }

  /** One write. */
  function Put(w: Writer, c: seq<Byte>): Writer {
    var t := Test(w, |c|);
    if t.error != NoError then t else t.(data := t.data + c)
  }

  function PutAll(w: Writer, cs: seq<seq<Byte>>): Writer
    decreases |cs|
  {
    if cs == [] then w else PutAll(Put(w, cs[0]), cs[1..])
  }

  predicate FitsAll(w: Writer, cs: seq<seq<Byte>>)
    decreases |cs|
  {
    cs == [] || (Fits(w, |cs[0]|) && FitsAll(Put(w, cs[0]), cs[1..]))
  }

  // ---------- when a write fits ----------

  /** One doubling is enough exactly when the write ends within twice the length of the buffer. */
  lemma FitsExactly(w: Writer, n: nat)
    requires WriterOK(w)
    ensures Fits(w, n) <==> w.error != NoError || !w.auto || 2 * w.len >= SIZE_LIMIT || |w.data| + n <= 2 * w.len
                            || |w.data| + n <= w.len
  {
    if 2 * w.len < SIZE_LIMIT { assert 2 * w.len % SIZE_LIMIT == 2 * w.len; }
    else { assert 2 * w.len % SIZE_LIMIT == 2 * w.len - SIZE_LIMIT; }
  }

  /** A write that is no longer than the buffer always fits. */
  lemma FitsIfNoLonger(w: Writer, n: nat)
    requires WriterOK(w) && n <= w.len
    ensures Fits(w, n)
  {
    FitsExactly(w, n);
  }

  /** The first string in a new buffer fits exactly up to twice the length of the buffer, less the eight bytes
      of its length. */
  lemma FirstStringFits(len: nat, s: seq<Byte>)
    requires 8 <= len && 4 * len < SIZE_LIMIT && s != []
    ensures FitsAll(Writer(true, len, [], NoError), BlockChunks(s)) <==> 8 + |s| <= 2 * len
  {
    var w, cs := Writer(true, len, [], NoError), BlockChunks(s);
    var w1 := Put(w, cs[0]);
    assert w1.len == len && |w1.data| == 8;
    assert cs[1..] == [s];
    assert FitsAll(w1, [s]) <==> Fits(w1, |s|) && FitsAll(Put(w1, s), [s][1..]);
    FitsExactly(w, 8);
    FitsExactly(w1, |s|);
  }

  // ---------- what is in the buffer ----------

  lemma PutOK(w: Writer, c: seq<Byte>)
    requires WriterOK(w) && Fits(w, |c|)
    ensures WriterOK(Put(w, c)) && Put(w, c).len >= w.len
    ensures Put(w, c).error == NoError ==> Put(w, c).data == w.data + c
    ensures w.error != NoError ==> Put(w, c) == w
  {
    assert 2 * w.len % SIZE_LIMIT < SIZE_LIMIT;
  }

  /** Growth keeps what was written; without an error in the end everything was written, and with one the
      buffer holds what was written before it. */
  lemma {:induction false} PutAllKeeps(w: Writer, cs: seq<seq<Byte>>)
    requires WriterOK(w) && FitsAll(w, cs)
    ensures var p := PutAll(w, cs);
      && WriterOK(p) && w.data <= p.data <= w.data + Joined(cs) && p.auto == w.auto
      && (p.error == NoError ==> p.data == w.data + Joined(cs) && w.error == NoError)
      && (w.error != NoError ==> p == w)
    decreases |cs|
  {
    if cs != [] {
      PutOK(w, cs[0]);
      var w1 := Put(w, cs[0]);
      PutAllKeeps(w1, cs[1..]);
      hide Put, Fits;
      assert w.data + cs[0] + Joined(cs[1..]) == w.data + Joined(cs);
      if w1.error != NoError {
        assert PutAll(w, cs) == w1;
        assert w1.data <= w.data + Joined(cs) by { PutPrefix(w, cs[0]); }
      }
    }
  }

  lemma PutPrefix(w: Writer, c: seq<Byte>)
    requires Put(w, c).error != NoError
    ensures Put(w, c).data == w.data
  {}

  /** A buffer of its own takes any list of writes none of which is longer than the buffer. */
  lemma {:induction false} AutoTakesAll(w: Writer, cs: seq<seq<Byte>>)
    requires WriterOK(w) && w.auto && w.error == NoError && forall c :: c in cs ==> |c| <= w.len
    requires 2 * (|w.data| + |Joined(cs)|) <= SIZE_LIMIT
    ensures FitsAll(w, cs) && PutAll(w, cs).error == NoError
    decreases |cs|
  {
    if cs != [] {
      FitsIfNoLonger(w, |cs[0]|);
      PutOK(w, cs[0]);
      assert |Joined(cs)| == |cs[0]| + |Joined(cs[1..])|;
      if w.len - |w.data| < |cs[0]| { assert 2 * w.len % SIZE_LIMIT == 2 * w.len; }
      AutoTakesAll(Put(w, cs[0]), cs[1..]);
    }
  }

  /** A buffer that was provided takes a list of writes exactly when all of it is no longer than the room. */
  lemma {:induction false} FixedTakesExactly(w: Writer, cs: seq<seq<Byte>>)
    requires WriterOK(w) && !w.auto && w.error == NoError
    ensures FitsAll(w, cs)
    ensures PutAll(w, cs).error == NoError <==> |w.data| + |Joined(cs)| <= w.len
    decreases |cs|
  {
    if cs != [] {
      FitsExactly(w, |cs[0]|);
      PutOK(w, cs[0]);
      var w1 := Put(w, cs[0]);
      assert |Joined(cs)| == |cs[0]| + |Joined(cs[1..])|;
      if w1.error == NoError {
        FixedTakesExactly(w1, cs[1..]);
      } else {
        FailedFits(w1, cs[1..]);
        PutAllKeeps(w1, cs[1..]);
      }
    }
  }

  lemma {:induction false} FailedFits(w: Writer, cs: seq<seq<Byte>>)
    requires w.error != NoError
    ensures FitsAll(w, cs)
    decreases |cs|
  {
    if cs != [] {
      FailedFits(w, cs[1..]);
    }
  }

  function Extracted(w: Writer): seq<Byte> { if w.error == NoError then w.data else [] }

  /** The bytes are those of the items, and reading them gives the items back with nothing left. */
  ghost predicate ReadsBack(lib: Library, bytes: seq<Byte>, xs: Items) {
    var x := ReadItems(lib, KindsOf(xs), Reader(bytes, 0, NoError));
    bytes == Encoded(xs) && x.xs == xs && EnsureAllBytesRead(x.r).error == NoError
  }

  /** Writing a list of items into any buffer, growing or provided: if each write fits and none raises an
      error, reading the extracted bytes gives the items back. */
  lemma WriteThenRead(lib: Library, xs: Items, w: Writer)
    requires ItemsOK(lib, xs) && WriterOK(w) && w.data == [] && FitsAll(w, ChunksOf(xs))
    ensures var p := PutAll(w, ChunksOf(xs)); p.error == NoError ==> ReadsBack(lib, Extracted(p), xs)
  {
    PutAllKeeps(w, ChunksOf(xs));
    RoundTrip(lib, xs);
  }

  /** That is so for a growing buffer of any starting length that no single write exceeds. */
  lemma GrowingReadsBack(lib: Library, xs: Items, len: nat)
    requires ItemsOK(lib, xs) && len < SIZE_LIMIT && forall c :: c in ChunksOf(xs) ==> |c| <= len
    requires 2 * |Encoded(xs)| <= SIZE_LIMIT
    ensures var w := Writer(true, len, [], NoError);
      FitsAll(w, ChunksOf(xs)) && ReadsBack(lib, Extracted(PutAll(w, ChunksOf(xs))), xs)
  {
    var w := Writer(true, len, [], NoError);
    AutoTakesAll(w, ChunksOf(xs));
    WriteThenRead(lib, xs, w);
  }
}

/** The writer as its methods run it. */
module ToBinaryClass {
  import opened BinaryCodec
  import opened ToBinaryModel

  lemma TwoBytes(v: nat)
    ensures LittleEndian(v, 2) == [v % 0x100, v / 0x100 % 0x100]
  {
    assert LittleEndian(v / 0x100, 1) == [v / 0x100 % 0x100] + LittleEndian(v / 0x100 / 0x100, 0);
  }

  lemma FourBytes(v: nat)
    ensures LittleEndian(v, 4) == [v % 0x100, v / 0x100 % 0x100, v / 0x1_0000 % 0x100, v / 0x100_0000 % 0x100]
  {
    var h := v / 0x1_0000;
    TwoBytes(v);
    TwoBytes(h);
    assert v / 0x100 / 0x100 == h && h / 0x100 == v / 0x100_0000;
    assert LittleEndian(v, 4) == [v % 0x100] + ([v / 0x100 % 0x100] + LittleEndian(h, 2));
  }

  lemma EightBytes(v: nat)
    ensures LittleEndian(v, 8) == LittleEndian(v, 4) + LittleEndian(v / 0x1_0000_0000, 4)
  {
    var v4 := v / 0x1_0000_0000;
    assert v / 0x100 / 0x100 / 0x100 / 0x100 == v4;
    LowBytes(v, 8, 4);
    assert LittleEndian(v, 4) == LittleEndian(v, 8)[..4];
    TopBytes(v, 8);
    TopBytes(v / 0x100, 7);
    TopBytes(v / 0x100 / 0x100, 6);
    TopBytes(v / 0x100 / 0x100 / 0x100, 5);
    assert LittleEndian(v, 8)[4..] == LittleEndian(v4, 4);
  }

  lemma TopBytes(v: nat, w: nat)
    requires w > 0
    ensures LittleEndian(v, w)[1..] == LittleEndian(v / 0x100, w - 1)
  {}

  lemma {:induction false} LowBytes(v: nat, w: nat, n: nat)
    requires n <= w
    ensures LittleEndian(v, w)[..n] == LittleEndian(v, n)
  {
    if n > 0 {
      LowBytes(v / 0x100, w - 1, n - 1);
    }
  }

  class ToBinary {
    var buffer: array<Byte>
    var bufferLength: nat
    var writePtr: nat
    const autoAllocated: bool
    var hasError: bool
    var errorStr: string

    ghost predicate Valid()
      reads this
    {
      writePtr <= bufferLength == buffer.Length < SIZE_LIMIT
    }

    ghost function View(): Writer
      reads this, buffer
      requires Valid()
    {
      Writer(autoAllocated, bufferLength, buffer[..writePtr], if hasError then Error(errorStr) else NoError)
    }

    constructor (expected: nat)
      requires expected < SIZE_LIMIT
      ensures Valid() && fresh(buffer) && View() == Writer(true, expected, [], NoError)
    {
      buffer := new Byte[expected];
      bufferLength, writePtr, autoAllocated := expected, 0, true;
      hasError, errorStr := false, "";
    }

    constructor Provided(provided: array<Byte>)
      requires provided.Length < SIZE_LIMIT
      ensures Valid() && buffer == provided && View() == Writer(false, provided.Length, [], NoError)
    {
      buffer, bufferLength, writePtr, autoAllocated := provided, provided.Length, 0, false;
      hasError, errorStr := false, "";
    }

    method SetError(err: string)
      requires Valid()
      modifies this`hasError, this`errorStr
      ensures View() == if old(View()).error == NoError then old(View()).(error := Error(err)) else old(View())
    {
      if !hasError {
        hasError := true;
        errorStr := err;
      }
    }

    /** Growing allocates, copies what was written, and moves the write pointer. */
    method PrivateTestForWrite(size: nat) returns (ok: bool)
      requires Valid()
      modifies this
      ensures Valid() && View() == Test(old(View()), size) && ok == (View().error == NoError)
      ensures buffer == old(buffer) || fresh(buffer)
    {
      if hasError { return false; }
      var written := writePtr;
      var remaining := bufferLength - written;
      if remaining >= size { return true; }
      if !autoAllocated {
        SetError(FIXED_FULL);
        return false;
      }
      var newLength := 2 * bufferLength % SIZE_LIMIT;
      if newLength < bufferLength {
        SetError(TOO_MUCH);
        return false;
      }
      var newBuffer := new Byte[newLength];
      Copy(newBuffer, 0, buffer[..written]);
      buffer := newBuffer;
      bufferLength := newLength;
      return true;
    }

    /** memcpy. */
    static method Copy(dst: array<Byte>, at: nat, src: seq<Byte>)
      requires at + |src| <= dst.Length
      modifies dst
      ensures dst[..at] == old(dst[..at]) && dst[at..at + |src|] == src
      ensures dst[..at + |src|] == old(dst[..at]) + src
    {
      var i := 0;
      while i < |src|
        invariant 0 <= i <= |src|
        invariant forall k :: 0 <= k < at ==> dst[k] == old(dst[k])
        invariant forall k :: 0 <= k < i ==> dst[at + k] == src[k]
      {
        dst[at + i] := src[i];
        i := i + 1;
      }
    }

    /** WriteData; the other writes are this one for the bytes that they name. */
    method WriteData(bytes: seq<Byte>)
      requires Valid() && Fits(View(), |bytes|)
      modifies this, buffer
      ensures Valid() && View() == Put(old(View()), bytes)
      ensures buffer == old(buffer) || fresh(buffer)
    {
      var ok := PrivateTestForWrite(|bytes|);
      if ok {
        Copy(buffer, writePtr, bytes);
        writePtr := writePtr + |bytes|;
      }
    }

    method WriteUint8(val: nat)
      requires Valid() && Fits(View(), 1) && val < 0x100
      modifies this, buffer
      ensures Valid() && View() == Put(old(View()), LittleEndian(val, 1))
      ensures buffer == old(buffer) || fresh(buffer)
    {
      OneByte(val);
      WriteData([val]);
    }

    method WriteUint16(val: nat)
      requires Valid() && Fits(View(), 2)
      modifies this, buffer
      ensures Valid() && View() == Put(old(View()), LittleEndian(val, 2))
      ensures buffer == old(buffer) || fresh(buffer)
    {
      TwoBytes(val);
      WriteData([val % 0x100, val / 0x100 % 0x100]);
    }

    method WriteUint16BE(val: nat)
      requires Valid() && Fits(View(), 2)
      modifies this, buffer
      ensures Valid() && View() == Put(old(View()), [LittleEndian(val, 2)[1], LittleEndian(val, 2)[0]])
      ensures buffer == old(buffer) || fresh(buffer)
    {
      TwoBytes(val);
      WriteData([val / 0x100 % 0x100, val % 0x100]);
    }

    method WriteUint32(val: nat)
      requires Valid() && Fits(View(), 4)
      modifies this, buffer
      ensures Valid() && View() == Put(old(View()), LittleEndian(val, 4))
      ensures buffer == old(buffer) || fresh(buffer)
    {
      FourBytes(val);
      WriteData([val % 0x100, val / 0x100 % 0x100, val / 0x1_0000 % 0x100, val / 0x100_0000 % 0x100]);
    }

    method WriteUint64(val: nat)
      requires Valid() && Fits(View(), 8)
      modifies this, buffer
      ensures Valid() && View() == Put(old(View()), LittleEndian(val, 8))
      ensures buffer == old(buffer) || fresh(buffer)
    {
      EightBytes(val);
      FourBytes(val);
      var high := val / 0x1_0000_0000;
      FourBytes(high);
      WriteData([val % 0x100, val / 0x100 % 0x100, val / 0x1_0000 % 0x100, val / 0x100_0000 % 0x100]
                + [high % 0x100, high / 0x100 % 0x100, high / 0x1_0000 % 0x100, high / 0x100_0000 % 0x100]);
    }

    /** WriteString and WriteByteVector. */
    method WriteBlock(s: seq<Byte>)
      requires Valid() && FitsAll(View(), BlockChunks(s))
      modifies this, buffer
      ensures Valid() && View() == PutAll(old(View()), BlockChunks(s))
      ensures buffer == old(buffer) || fresh(buffer)
    {
      ghost var w := View();
      BlockSteps(w, s);
      WriteUint64(|s| % SIZE_LIMIT);
      if |s| != 0 {
        WriteData(s);
      }
    }

    /** Writes one value the way its type asks for. */
    method Write(i: Item)
      requires Valid() && FitsAll(View(), Chunks(i)) && (i.Num? ==> WidthOK(i.width))
      requires i.Message? ==> WidthsOK(i.members)
      modifies this, buffer
      ensures Valid() && View() == PutAll(old(View()), Chunks(i))
      ensures buffer == old(buffer) || fresh(buffer)
      decreases i, 0
    {
      ghost var w := View();
      match i {
        case Num(width, signed, v) =>
          OneStep(w, LittleEndian(ToUnsigned(v, width), width));
          var u := ToUnsigned(v, width);
          match width {
            case 1 =>
              assert Pow256(1) == 0x100;
              WriteUint8(u);
            case 2 => WriteUint16(u);
            case 4 => WriteUint32(u);
            case 8 => WriteUint64(u);
          }
        case Bool(b) =>
          OneStep(w, [if b then 1 else 0]);
          OneByte(if b then 1 else 0);
          WriteUint8(if b then 1 else 0);
        case Str(s) => WriteBlock(s);
        case Bytes(s) => WriteBlock(s);
        case NullMessage => WriteBlock([]);
        case Message(name, members) =>
          PutAllConcat(w, BlockChunks(name), ChunksOf(members));
          WriteBlock(name);
          WriteMembers(members);
      }
    }

    /** EncodeContents of a message. */
    method WriteMembers(xs: Items)
      requires Valid() && FitsAll(View(), ChunksOf(xs)) && WidthsOK(xs)
      modifies this, buffer
      ensures Valid() && View() == PutAll(old(View()), ChunksOf(xs))
      ensures buffer == old(buffer) || fresh(buffer)
      decreases xs, 1
    {
      if xs.Cons? {
        PutAllConcat(View(), Chunks(xs.head), ChunksOf(xs.tail));
        Write(xs.head);
        WriteMembers(xs.tail);
      }
    }

    method ExtractData() returns (result: seq<Byte>)
      requires Valid()
      ensures result == Extracted(View())
    {
      result := [];
      if !hasError { result := buffer[..writePtr]; }
    }
  }

  predicate WidthsOK(xs: Items) {
    xs.Cons? ==>
      && (xs.head.Num? ==> WidthOK(xs.head.width))
      && (xs.head.Message? ==> WidthsOK(xs.head.members))
      && WidthsOK(xs.tail)
  }

  lemma OneStep(w: Writer, c: seq<Byte>)
    ensures PutAll(w, [c]) == Put(w, c) && (FitsAll(w, [c]) <==> Fits(w, |c|))
  {
    var none: seq<seq<Byte>> := [];
    assert [c][1..] == none;
    assert PutAll(Put(w, c), none) == Put(w, c) && FitsAll(Put(w, c), none);
  }

  lemma BlockSteps(w: Writer, s: seq<Byte>)
    ensures var w1 := Put(w, LittleEndian(|s| % Pow256(8), 8));
      && PutAll(w, BlockChunks(s)) == (if s == [] then w1 else Put(w1, s))
      && (FitsAll(w, BlockChunks(s)) <==> Fits(w, 8) && (s == [] || Fits(w1, |s|)))
    ensures Pow256(8) == SIZE_LIMIT
  {
    var n := LittleEndian(|s| % Pow256(8), 8);
    if s == [] {
      OneStep(w, n);
    } else {
      assert BlockChunks(s)[1..] == [s];
      OneStep(Put(w, n), s);
    }
    assert Pow256(4) == 0x1_0000_0000;
  }

  lemma {:induction false} PutAllConcat(w: Writer, a: seq<seq<Byte>>, b: seq<seq<Byte>>)
    ensures PutAll(w, a + b) == PutAll(PutAll(w, a), b)
    ensures FitsAll(w, a + b) <==> FitsAll(w, a) && FitsAll(PutAll(w, a), b)
    decreases |a|
  {
    if a == [] {
      assert a + b == b;
    } else {
      assert (a + b)[1..] == a[1..] + b;
      PutAllConcat(Put(w, a[0]), a[1..], b);
    }
  }
}
