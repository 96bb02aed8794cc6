/**
 The binary encoding of bbox::enc: what the bytes are, and what reading them back gives.

 Strings are byte strings. A message is a registered type name and the members of that type, in order.
 */
module BinaryCodec {
  type Byte = x: int | 0 <= x < 256

  datatype Kind = NumKind(width: nat, signed: bool) | BoolKind | StringKind | BytesKind | MessageKind

  /** A value to write; the size type is an unsigned number of width 8. */
  datatype Item =
    | Num(width: nat, signed: bool, v: int) | Bool(b: bool) | Str(s: seq<Byte>) | Bytes(s: seq<Byte>)
    | NullMessage | Message(name: seq<Byte>, members: Items)

  datatype Items = Nil | Cons(head: Item, tail: Items)

  /** The registered message types: the kinds of their members. */
  type Library = map<seq<Byte>, seq<Kind>>

  // ---------- numbers ----------

  function Pow256(w: nat): (p: nat)
    ensures p > 0
  {
    if w == 0 then 1 else 256 * Pow256(w - 1)
  }

  /** The low `w` bytes, lowest first. */
  function LittleEndian(v: nat, w: nat): (s: seq<Byte>)
    ensures |s| == w
  {
    if w == 0 then [] else [v % 256] + LittleEndian(v / 256, w - 1)
  }

  function FromLittleEndian(s: seq<Byte>): (v: nat)
    ensures v < Pow256(|s|)
  {
    if s == [] then 0 else s[0] + 256 * FromLittleEndian(s[1..])
  }

  /** The cast of a signed value to the unsigned type of its width, and back. */
  function ToUnsigned(v: int, w: nat): nat { v % Pow256(w) }

  function ToSigned(u: nat, w: nat): int { if u >= Pow256(w) / 2 then u - Pow256(w) else u }

  predicate WidthOK(w: nat) { w == 1 || w == 2 || w == 4 || w == 8 }

  predicate InRange(v: int, w: nat, signed: bool) {
    if signed then -(Pow256(w) / 2) <= v < Pow256(w) / 2 else 0 <= v < Pow256(w)
  }

  // ---------- writing ----------

  /** The single writes that one item makes. */
  function Chunks(i: Item): seq<seq<Byte>> {
    match i
    case Num(w, _, v) => [LittleEndian(ToUnsigned(v, w), w)]
    case Bool(b) => [[if b then 1 else 0]]
    case Str(s) => BlockChunks(s)
    case Bytes(s) => BlockChunks(s)
    case NullMessage => BlockChunks([])
    case Message(name, members) => BlockChunks(name) + ChunksOf(members)
  }

  function ChunksOf(xs: Items): seq<seq<Byte>> {
    if xs.Nil? then [] else Chunks(xs.head) + ChunksOf(xs.tail)
  }

  /** A length, and the bytes if there are any. */
  function BlockChunks(s: seq<Byte>): seq<seq<Byte>> {
    [LittleEndian(|s| % Pow256(8), 8)] + if s == [] then [] else [s]
  }

  function Joined(cs: seq<seq<Byte>>): seq<Byte> {
    if cs == [] then [] else cs[0] + Joined(cs[1..])
  }

  /** The encoding of a list of items. */
  function Encoded(xs: Items): seq<Byte> { Joined(ChunksOf(xs)) }

  // ---------- reading ----------

  datatype Error = NoError | Error(text: string)

  datatype Reader = Reader(data: seq<Byte>, pos: nat, error: Error)

  predicate ReaderOK(r: Reader) { r.pos <= |r.data| }

  /** The first error stays. */
  function Fail(r: Reader, text: string): Reader { if r.error == NoError then r.(error := Error(text)) else r }

  datatype NumRead = NumRead(v: nat, r: Reader)

  function ReadNum(r: Reader, w: nat): (n: NumRead)
    requires ReaderOK(r)
    ensures ReaderOK(n.r) && n.r.data == r.data && n.r.pos >= r.pos
  {
    if |r.data| - r.pos >= w then NumRead(FromLittleEndian(r.data[r.pos..r.pos + w]), r.(pos := r.pos + w))
    else NumRead(0, Fail(r, "No more data remaining"))
  }

  datatype BlockRead = BlockRead(s: seq<Byte>, r: Reader)

  /** ReadString and ReadByteVector. */
  function ReadBlock(r: Reader, tooLong: string): (b: BlockRead)
    requires ReaderOK(r)
    ensures ReaderOK(b.r) && b.r.data == r.data && b.r.pos >= r.pos + |b.s|
  {
    var n := ReadNum(r, 8);
    if n.r.error != NoError then BlockRead([], n.r)
    else if n.v > |r.data| - n.r.pos then BlockRead([], Fail(n.r, tooLong))
    else BlockRead(r.data[n.r.pos..n.r.pos + n.v], n.r.(pos := n.r.pos + n.v))
  }

  const STRING_TOO_LONG := "String value too long"
  const BYTES_TOO_LONG := "Byte array value too long"
  const UNKNOWN_TYPE := "Unknown MsgType"

  datatype ItemRead = ItemRead(i: Item, r: Reader)

  datatype ItemsRead = ItemsRead(xs: Items, r: Reader)

  function ReadItem(lib: Library, k: Kind, r: Reader): (x: ItemRead)
    requires ReaderOK(r)
    ensures ReaderOK(x.r) && x.r.data == r.data && x.r.pos >= r.pos
    decreases |r.data| - r.pos, 0, 0
  {
    match k
    case NumKind(w, signed) =>
      var n := ReadNum(r, w);
      ItemRead(Num(w, signed, if signed then ToSigned(n.v, w) else n.v), n.r)
    case BoolKind => var n := ReadNum(r, 1); ItemRead(Bool(n.v != 0), n.r)
    case StringKind => var b := ReadBlock(r, STRING_TOO_LONG); ItemRead(Str(b.s), b.r)
    case BytesKind => var b := ReadBlock(r, BYTES_TOO_LONG); ItemRead(Bytes(b.s), b.r)
    case MessageKind =>
      var b := ReadBlock(r, STRING_TOO_LONG);
      if b.s == [] then ItemRead(NullMessage, b.r)
      else if b.s !in lib then ItemRead(NullMessage, Fail(b.r, UNKNOWN_TYPE))
      else
        var m := ReadItems(lib, lib[b.s], b.r);
        ItemRead(Message(b.s, m.xs), m.r)
  }

  function ReadItems(lib: Library, ks: seq<Kind>, r: Reader): (x: ItemsRead)
    requires ReaderOK(r)
    ensures ReaderOK(x.r) && x.r.data == r.data && x.r.pos >= r.pos
    decreases |r.data| - r.pos, 1, |ks|
  {
    if ks == [] then ItemsRead(Nil, r)
    else
      var h := ReadItem(lib, ks[0], r);
      var t := ReadItems(lib, ks[1..], h.r);
      ItemsRead(Cons(h.i, t.xs), t.r)
  }

  function EnsureAllBytesRead(r: Reader): Reader
    requires ReaderOK(r)
  {
    if |r.data| - r.pos != 0 then Fail(r, "Unexpected bytes remaining at end") else r
  }

  function KindOf(i: Item): Kind {
    match i
    case Num(w, s, _) => NumKind(w, s)
    case Bool(_) => BoolKind
    case Str(_) => StringKind
    case Bytes(_) => BytesKind
    case NullMessage => MessageKind
    case Message(_, _) => MessageKind
  }

  function KindsOf(xs: Items): seq<Kind> {
    if xs.Nil? then [] else [KindOf(xs.head)] + KindsOf(xs.tail)
  }

  /** Values in the range of their types, and messages of registered types with the members of those. */
  predicate ItemOK(lib: Library, i: Item) {
    match i
    case Num(w, s, v) => WidthOK(w) && InRange(v, w, s)
    case Bool(_) => true
    case Str(s) => |s| < Pow256(8)
    case Bytes(s) => |s| < Pow256(8)
    case NullMessage => true
    case Message(n, ms) => n != [] && |n| < Pow256(8) && n in lib && KindsOf(ms) == lib[n] && ItemsOK(lib, ms)
  }

  predicate ItemsOK(lib: Library, xs: Items) { xs.Cons? ==> ItemOK(lib, xs.head) && ItemsOK(lib, xs.tail) }

  // ---------- numbers come back ----------

  lemma {:induction false} NumberBack(v: nat, w: nat)
    requires v < Pow256(w)
    ensures FromLittleEndian(LittleEndian(v, w)) == v
  {
    if w > 0 {
      NumberBack(v / 256, w - 1);
      assert LittleEndian(v, w)[1..] == LittleEndian(v / 256, w - 1);
    }
  }

  lemma OneByte(v: Byte)
    ensures LittleEndian(v, 1) == [v] && Pow256(1) == 256
  {
    assert v / 256 == 0 && LittleEndian(0, 0) == [];
  }

  lemma SignedBack(v: int, w: nat)
    requires WidthOK(w) && InRange(v, w, true)
    ensures ToUnsigned(v, w) < Pow256(w) && ToSigned(ToUnsigned(v, w), w) == v
  {
    hide Pow256;
    HalfOf256(w);
    Wrapped(v, Pow256(w));
  }

  lemma HalfOf256(w: nat)
    requires w > 0
    ensures Pow256(w) / 2 == 128 * Pow256(w - 1) && Pow256(w) == 2 * (Pow256(w) / 2)
  {}

  lemma Wrapped(v: int, p: int)
    requires 0 < p && -p <= v < p
    ensures v % p == if v < 0 then v + p else v
  {}

  // ---------- the round trip ----------

  lemma {:induction false} JoinedConcat(a: seq<seq<Byte>>, b: seq<seq<Byte>>)
    ensures Joined(a + b) == Joined(a) + Joined(b)
  {
    if a == [] {
      assert a + b == b;
    } else {
      assert (a + b)[1..] == a[1..] + b;
      JoinedConcat(a[1..], b);
    }
  }

  /** At its position the reader's data continues with `s`. */
  predicate At(r: Reader, s: seq<Byte>) {
    r.pos + |s| <= |r.data| && r.data[r.pos..r.pos + |s|] == s
  }

  lemma AtSplit(r: Reader, a: seq<Byte>, b: seq<Byte>)
    requires At(r, a + b)
    ensures At(r, a) && At(r.(pos := r.pos + |a|), b)
  {
    var s := r.data[r.pos..r.pos + |a| + |b|];
    assert s == a + b;
    assert r.data[r.pos..r.pos + |a|] == s[..|a|] == a;
    assert r.data[r.pos + |a|..r.pos + |a| + |b|] == s[|a|..] == b;
  }

  lemma NumRound(r: Reader, v: nat, w: nat)
    requires ReaderOK(r) && v < Pow256(w) && At(r, LittleEndian(v, w))
    ensures ReadNum(r, w) == NumRead(v, r.(pos := r.pos + w))
  {
    NumberBack(v, w);
  }

  lemma BlockJoined(s: seq<Byte>)
    ensures Joined(BlockChunks(s)) == LittleEndian(|s| % Pow256(8), 8) + s
  {
    hide LittleEndian, Pow256;
    var first := LittleEndian(|s| % Pow256(8), 8);
    if s == [] {
      assert Joined([first]) == first + Joined([]);
    } else {
      assert BlockChunks(s)[1..] == [s] && Joined([s]) == s + Joined([]);
    }
  }

  lemma BlockRound(r: Reader, s: seq<Byte>, tooLong: string)
    requires ReaderOK(r) && r.error == NoError && |s| < Pow256(8) && At(r, Joined(BlockChunks(s)))
    ensures ReadBlock(r, tooLong) == BlockRead(s, r.(pos := r.pos + |Joined(BlockChunks(s))|))
  {
    hide Joined, BlockChunks, LittleEndian, FromLittleEndian, Pow256, At;
    BlockJoined(s);
    SmallMod(|s|, Pow256(8));
    AtSplit(r, LittleEndian(|s|, 8), s);
    NumRound(r, |s|, 8);
    hide ReadNum;
    AtMeans(r.(pos := r.pos + 8), s);
  }

  lemma AtMeans(r: Reader, s: seq<Byte>)
    requires At(r, s)
    ensures r.pos + |s| <= |r.data| && r.data[r.pos..r.pos + |s|] == s
  {}

  lemma SmallMod(n: nat, p: nat)
    requires n < p
    ensures n % p == n
  {}

  lemma NumberRound(lib: Library, w: nat, signed: bool, v: int, r: Reader)
    requires ReaderOK(r) && WidthOK(w) && InRange(v, w, signed) && At(r, Joined(Chunks(Num(w, signed, v))))
    ensures ReadItem(lib, NumKind(w, signed), r)
         == ItemRead(Num(w, signed, v), r.(pos := r.pos + |Joined(Chunks(Num(w, signed, v)))|))
  {
    hide ReadNum, LittleEndian, FromLittleEndian, Pow256, At;
    var u := ToUnsigned(v, w);
    assert Joined(Chunks(Num(w, signed, v))) == LittleEndian(u, w);
    if signed { SignedBack(v, w); } else { SmallMod(v, Pow256(w)); }
    NumRound(r, u, w);
  }

  /** Reading back one item gives the item, and stops where its encoding stops. */
  lemma {:induction false} ItemRound(lib: Library, i: Item, r: Reader)
    requires ReaderOK(r) && r.error == NoError && ItemOK(lib, i) && At(r, Joined(Chunks(i)))
    ensures ReadItem(lib, KindOf(i), r) == ItemRead(i, r.(pos := r.pos + |Joined(Chunks(i))|))
    decreases i, 0
  {
    hide ReadNum, ReadBlock, BlockChunks, LittleEndian, FromLittleEndian, Pow256, At;
    match i {
      case Num(w, s, v) => NumberRound(lib, w, s, v, r);
      case Bool(b) =>
        var u := if b then 1 else 0;
        OneByte(u);
        assert Joined(Chunks(i)) == [u];
        NumRound(r, u, 1);
      case Str(s) => BlockRound(r, s, STRING_TOO_LONG);
      case Bytes(s) => BlockRound(r, s, BYTES_TOO_LONG);
      case NullMessage => BlockRound(r, [], STRING_TOO_LONG);
      case Message(name, members) => MessageRound(lib, name, members, r);
    }
  }

  lemma {:induction false} MessageRound(lib: Library, name: seq<Byte>, members: Items, r: Reader)
    requires ReaderOK(r) && r.error == NoError && ItemOK(lib, Message(name, members))
    requires At(r, Joined(Chunks(Message(name, members))))
    ensures ReadItem(lib, MessageKind, r)
      == ItemRead(Message(name, members), r.(pos := r.pos + |Joined(Chunks(Message(name, members)))|))
    decreases members, 2
  {
    hide Joined, At, BlockChunks, ChunksOf, ReadBlock, ReadItems, Pow256;
    var head := Joined(BlockChunks(name));
    JoinedConcat(BlockChunks(name), ChunksOf(members));
    AtSplit(r, head, Encoded(members));
    BlockRound(r, name, STRING_TOO_LONG);
    ItemsRound(lib, members, r.(pos := r.pos + |head|));
  }

  lemma ItemsStep(lib: Library, xs: Items, r: Reader, r1: Reader, r2: Reader)
    requires xs.Cons? && ReaderOK(r) && ReaderOK(r1)
    requires ReadItem(lib, KindOf(xs.head), r) == ItemRead(xs.head, r1)
    requires ReadItems(lib, KindsOf(xs.tail), r1) == ItemsRead(xs.tail, r2)
    ensures ReadItems(lib, KindsOf(xs), r) == ItemsRead(xs, r2)
  {
    hide ReadItem, KindOf;
    assert KindsOf(xs)[1..] == KindsOf(xs.tail);
  }

  lemma EncodedSplit(xs: Items)
    requires xs.Cons?
    ensures Encoded(xs) == Joined(Chunks(xs.head)) + Encoded(xs.tail)
  {
    hide Joined, Chunks;
    JoinedConcat(Chunks(xs.head), ChunksOf(xs.tail));
  }

  /** Reading back a list of items gives the list, without an error, and stops where the encoding stops. */
  lemma {:induction false} ItemsRound(lib: Library, xs: Items, r: Reader)
    requires ReaderOK(r) && r.error == NoError && ItemsOK(lib, xs) && At(r, Encoded(xs))
    ensures ReadItems(lib, KindsOf(xs), r) == ItemsRead(xs, r.(pos := r.pos + |Encoded(xs)|))
    decreases xs, 1
  {
    if xs.Cons? {
      hide Joined, Chunks, Encoded, At, ReadItem, ReadItems, ItemOK, KindOf, KindsOf;
      var head, rest := Joined(Chunks(xs.head)), Encoded(xs.tail);
      EncodedSplit(xs);
      AtSplit(r, head, rest);
      AtInside(r, head);
      var r1 := r.(pos := r.pos + |head|);
      ItemRound(lib, xs.head, r);
      ItemsRound(lib, xs.tail, r1);
      ItemsStep(lib, xs, r, r1, r1.(pos := r1.pos + |rest|));
    }
  }

  lemma AtInside(r: Reader, s: seq<Byte>)
    requires At(r, s)
    ensures r.pos + |s| <= |r.data|
  {}

  /** For every list of items: reading what was written gives the items back, with no error and no bytes
      left over. */
  lemma RoundTrip(lib: Library, xs: Items)
    requires ItemsOK(lib, xs)
    ensures var x := ReadItems(lib, KindsOf(xs), Reader(Encoded(xs), 0, NoError));
      x.xs == xs && EnsureAllBytesRead(x.r).error == NoError
  {
    var r := Reader(Encoded(xs), 0, NoError);
    assert r.data[0..|Encoded(xs)|] == Encoded(xs);
    ItemsRound(lib, xs, r);
  }

  // ---------- data that is not an encoding ----------

  /** Data that goes on after the items is refused. */
  lemma ExtraIsRefused(lib: Library, xs: Items, extra: seq<Byte>)
    requires ItemsOK(lib, xs) && extra != []
    ensures EnsureAllBytesRead(ReadItems(lib, KindsOf(xs), Reader(Encoded(xs) + extra, 0, NoError)).r).error != NoError
  {
    hide Encoded, ReadItems, KindsOf, ItemsOK;
    var r := Reader(Encoded(xs) + extra, 0, NoError);
    assert r.data[0..|Encoded(xs)|] == Encoded(xs);
    ItemsRound(lib, xs, r);
  }

  /** An error, once set, is the one that is reported. */
  lemma {:induction false} ErrorStays(lib: Library, ks: seq<Kind>, r: Reader)
    requires ReaderOK(r) && r.error != NoError
    ensures ReadItems(lib, ks, r).r.error == r.error
    decreases |ks|
  {
    if ks != [] {
      var h := ReadItem(lib, ks[0], r);
      assert h.r.error == r.error;
      ErrorStays(lib, ks[1..], h.r);
    }
  }

  /** The reader's data ends inside `s`. */
  predicate Ends(r: Reader, s: seq<Byte>)
    requires ReaderOK(r)
  {
    |r.data| - r.pos < |s| && r.data[r.pos..] == s[..|r.data| - r.pos]
  }

  lemma EndsSplit(r: Reader, a: seq<Byte>, b: seq<Byte>)
    requires ReaderOK(r) && Ends(r, a + b)
    ensures Ends(r, a) || (At(r, a) && Ends(r.(pos := r.pos + |a|), b))
  {
    var n := |r.data| - r.pos;
    var s := r.data[r.pos..];
    if n >= |a| {
      assert r.data[r.pos..r.pos + |a|] == s[..|a|] == a;
      assert r.data[r.pos + |a|..] == s[|a|..] == b[..n - |a|];
    } else {
      assert (a + b)[..n] == a[..n];
    }
  }

  lemma BlockTruncated(r: Reader, s: seq<Byte>, tooLong: string)
    requires ReaderOK(r) && r.error == NoError && |s| < Pow256(8) && Ends(r, Joined(BlockChunks(s)))
    ensures ReadBlock(r, tooLong).s == [] && ReadBlock(r, tooLong).r.error != NoError
  {
    hide Joined, BlockChunks, LittleEndian, FromLittleEndian, Pow256, At;
    BlockJoined(s);
    SmallMod(|s|, Pow256(8));
    var n := LittleEndian(|s|, 8);
    EndsSplit(r, n, s);
    if At(r, n) { NumRound(r, |s|, 8); }
  }

  lemma JoinedOne(s: seq<Byte>)
    ensures Joined([s]) == s
  {
    assert Joined([s]) == s + Joined([]);
  }

  lemma {:induction false} ItemTruncated(lib: Library, i: Item, r: Reader)
    requires ReaderOK(r) && r.error == NoError && ItemOK(lib, i) && Ends(r, Joined(Chunks(i)))
    ensures ReadItem(lib, KindOf(i), r).r.error != NoError
    decreases i, 0
  {
    hide ReadBlock, BlockChunks, LittleEndian, Joined, Pow256, FromLittleEndian;
    match i {
      case Num(w, s, v) => JoinedOne(LittleEndian(ToUnsigned(v, w), w));
      case Bool(b) => JoinedOne([if b then 1 else 0]);
      case Str(s) => BlockTruncated(r, s, STRING_TOO_LONG);
      case Bytes(s) => BlockTruncated(r, s, BYTES_TOO_LONG);
      case NullMessage => BlockTruncated(r, [], STRING_TOO_LONG);
      case Message(name, members) => MessageTruncated(lib, name, members, r);
    }
  }

  lemma {:induction false} MessageTruncated(lib: Library, name: seq<Byte>, members: Items, r: Reader)
    requires ReaderOK(r) && r.error == NoError && ItemOK(lib, Message(name, members))
    requires Ends(r, Joined(Chunks(Message(name, members))))
    ensures ReadItem(lib, MessageKind, r).r.error != NoError
    decreases members, 2
  {
    hide Joined, At, Ends, BlockChunks, ChunksOf, ReadBlock, ReadItems, Pow256;
    var head := Joined(BlockChunks(name));
    JoinedConcat(BlockChunks(name), ChunksOf(members));
    EndsSplit(r, head, Encoded(members));
    if Ends(r, head) {
      BlockTruncated(r, name, STRING_TOO_LONG);
    } else {
      BlockRound(r, name, STRING_TOO_LONG);
      ItemsTruncated(lib, members, r.(pos := r.pos + |head|));
    }
  }

  /** Data that ends anywhere before the encoding does gives an error, so a cut is always noticed. */
  lemma {:induction false} ItemsTruncated(lib: Library, xs: Items, r: Reader)
    requires ReaderOK(r) && r.error == NoError && ItemsOK(lib, xs) && Ends(r, Encoded(xs))
    ensures ReadItems(lib, KindsOf(xs), r).r.error != NoError
    decreases xs, 1
  {
    hide At, Ends, Encoded, Chunks, Joined, ReadItem, ReadItems, KindsOf;
    if xs.Nil? {
      EmptyEnds(r);
    } else {
      var head := Joined(Chunks(xs.head));
      EncodedSplit(xs);
      EndsSplit(r, head, Encoded(xs.tail));
      ReadsInOrder(lib, xs, r);
      if Ends(r, head) {
        ItemTruncated(lib, xs.head, r);
        ErrorStays(lib, KindsOf(xs.tail), ReadItem(lib, KindOf(xs.head), r).r);
      } else {
        ItemRound(lib, xs.head, r);
        AtMeans(r, head);
        ItemsTruncated(lib, xs.tail, r.(pos := r.pos + |head|));
      }
    }
  }

  lemma EmptyEnds(r: Reader)
    requires ReaderOK(r)
    ensures !Ends(r, Encoded(Nil))
  {}

  lemma ReadsInOrder(lib: Library, xs: Items, r: Reader)
    requires xs.Cons? && ReaderOK(r)
    ensures ReadItems(lib, KindsOf(xs), r).r == ReadItems(lib, KindsOf(xs.tail), ReadItem(lib, KindOf(xs.head), r).r).r
  {
    hide ReadItem, KindOf;
    assert KindsOf(xs)[1..] == KindsOf(xs.tail);
  }

  lemma CutIsRefused(lib: Library, xs: Items, n: nat)
    requires ItemsOK(lib, xs) && n < |Encoded(xs)|
    ensures ReadItems(lib, KindsOf(xs), Reader(Encoded(xs)[..n], 0, NoError)).r.error != NoError
  {
    var r := Reader(Encoded(xs)[..n], 0, NoError);
    assert r.data[0..] == r.data;
    ItemsTruncated(lib, xs, r);
  }
}
