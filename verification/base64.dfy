/**
 bbox::Base64 against section 4 of RFC 4648.

 The encoder and the decoder work with masks and shifts on bytes; the standard speaks of 24-bit groups.
 */
module Base64 {
  type Byte = bv8

  /** The string base64_chars: A to Z, a to z, 0 to 9, plus, slash. */
  function Letter(i: nat): char
    requires i < 64
  {
    if i < 26 then 'A' + i as char
    else if i < 52 then 'a' + (i - 26) as char
    else if i < 62 then '0' + (i - 52) as char
    else if i == 62 then '+' else '/'
  }

  datatype Decoded = Decoded(ok: bool, data: seq<Byte>)

  // ---------- the alphabet ----------

  predicate IsBase64(c: char) { 'A' <= c <= 'Z' || 'a' <= c <= 'z' || '0' <= c <= '9' || c == '+' || c == '/' }

  /** std::string::find of one character, cast to a byte: 255 when it is not there. */
  function Find(c: char, from: nat): Byte
    requires from <= 64
    decreases 64 - from
  {
    if from == 64 then 255 else if Letter(from) == c then from as bv8 else Find(c, from + 1)
  }

  function Sextet(c: char): Byte { Find(c, 0) }

  // ---------- the standard ----------

  /** Three bytes as one 24-bit group, most significant first. */
  function Group(a: Byte, b: Byte, c: Byte): bv24 { (a as bv24 << 16) | (b as bv24 << 8) | c as bv24 }

  /** Six bits of the group, `shift` bits from its end. */
  function Cut(g: bv24, shift: nat): (v: Byte)
    requires shift <= 18
    ensures v < 64
  {
    ((g >> shift) & 0x3f) as bv8
  }

  /** The group as four 6-bit values, each looked up in the alphabet. */
  function Text(g: bv24): (t: string)
    ensures |t| == 4
  {
    [Letter(Cut(g, 18) as int), Letter(Cut(g, 12) as int), Letter(Cut(g, 6) as int), Letter(Cut(g, 0) as int)]
  }

  /** Section 4: whole groups, then a last group of one or two bytes, filled with zero bits and padded. */
  function Rfc4648(data: seq<Byte>): string {
    if |data| == 0 then ""
    else if |data| == 1 then Text(Group(data[0], 0, 0))[..2] + "=="
    else if |data| == 2 then Text(Group(data[0], data[1], 0))[..3] + "="
    else Text(Group(data[0], data[1], data[2])) + Rfc4648(data[3..])
  }

  // ---------- what the implementation computes for one group ----------

  datatype Four = Four(p: Byte, q: Byte, r: Byte, s: Byte)

  datatype Three = Three(a: Byte, b: Byte, c: Byte)

  function Split(a: Byte, b: Byte, c: Byte): Four {
    Four((a & 0xfc) >> 2, ((a & 0x03) << 4) + ((b & 0xf0) >> 4), ((b & 0x0f) << 2) + ((c & 0xc0) >> 6), c & 0x3f)
  }

  function Join(p: Byte, q: Byte, r: Byte, s: Byte): Three {
    Three((p << 2) + ((q & 0x30) >> 4), ((q & 0xf) << 4) + ((r & 0x3c) >> 2), ((r & 0x3) << 6) + s)
  }

  /** Four characters give three bytes. */
  function Bytes(t: string): (r: seq<Byte>)
    requires |t| == 4
    ensures |r| == 3
  {
    var g := Join(Sextet(t[0]), Sextet(t[1]), Sextet(t[2]), Sextet(t[3]));
    [g.a, g.b, g.c]
  }

  // ---------- decoding ----------

  /** The number of characters of `s` before the first that is not in the alphabet. */
  function Run(s: string): (n: nat)
    ensures n <= |s|
    ensures forall i :: 0 <= i < n ==> IsBase64(s[i])
    ensures n < |s| ==> !IsBase64(s[n])
  {
    if s == "" || !IsBase64(s[0]) then 0 else 1 + Run(s[1..])
  }

  function Equals(s: string): (n: nat)
    ensures n <= |s|
    ensures forall i :: 0 <= i < n ==> s[i] == '='
    ensures n < |s| ==> s[n] != '='
  {
    if s == "" || s[0] != '=' then 0 else 1 + Equals(s[1..])
  }

  /** The bytes of whole groups of four characters. */
  function Whole(s: string): seq<Byte> {
    if |s| < 4 then [] else Bytes(s[..4]) + Whole(s[4..])
  }

  /** One byte less than the characters left over; the characters missing from the group are NUL. */
  function Tail(s: string): seq<Byte> { if |s| < 4 then TailOf(s) else Tail(s[4..]) }

  function TailOf(left: string): seq<Byte>
    requires |left| < 4
  {
    if left == "" then [] else Bytes(Filled(left))[..|left| - 1]
  }

  function Filled(left: string): (t: string)
    requires 0 < |left| < 4
    ensures |t| == 4
  {
    if |left| == 1 then left + ['\0', '\0', '\0'] else if |left| == 2 then left + ['\0', '\0'] else left + ['\0']
  }

  /** Base64::Decode: the leading alphabet characters are decoded; then come equals signs, and the text must
      end or go on with a character of the alphabet, which is not looked at any more. */
  function DecodeText(s: string): Decoded {
    var n := Run(s);
    var k := n + Equals(s[n..]);
    if k < |s| && !IsBase64(s[k]) then Decoded(false, Whole(s[..n])) else Decoded(true, Whole(s[..n]) + Tail(s[..n]))
  }

  // ---------- properties ----------

  lemma {:induction false} FindFrom(i: nat, from: nat)
    requires from <= i < 64
    ensures Find(Letter(i), from) == i as bv8
    decreases i - from
  {
    if from < i {
      FindFrom(i, from + 1);
    }
  }

  /** Looking a letter of the alphabet up gives its place back, and it is a letter that decoding accepts. */
  lemma LetterBack(v: Byte)
    requires v < 64
    ensures Sextet(Letter(v as int)) == v && IsBase64(Letter(v as int))
  {
    FindFrom(v as int, 0);
  }

  /** The 6-bit values that the masks and shifts cut out are the ones of the standard. */
  lemma SplitIsGroup(a: Byte, b: Byte, c: Byte)
    ensures Split(a, b, c)
      == Four(Cut(Group(a, b, c), 18), Cut(Group(a, b, c), 12), Cut(Group(a, b, c), 6), Cut(Group(a, b, c), 0))
  {}

  lemma SplitJoin(a: Byte, b: Byte, c: Byte)
    ensures var g := Split(a, b, c); Join(g.p, g.q, g.r, g.s) == Three(a, b, c)
  {}

  /** In the last group the missing characters are looked up as NUL, which gives 255. The bytes that are
      kept do not depend on it. */
  lemma SplitJoinTail(a: Byte, b: Byte, r: Byte, s: Byte)
    ensures var g := Split(a, 0, 0); Join(g.p, g.q, r, s).a == a
    ensures var g := Split(a, b, 0); Join(g.p, g.q, g.r, s).a == a && Join(g.p, g.q, g.r, s).b == b
  {}

  lemma GroupBack(a: Byte, b: Byte, c: Byte)
    ensures Bytes(Text(Group(a, b, c))) == [a, b, c]
    ensures forall i :: 0 <= i < 4 ==> IsBase64(Text(Group(a, b, c))[i])
  {
    var g := Group(a, b, c);
    SplitIsGroup(a, b, c);
    SplitJoin(a, b, c);
    LetterBack(Cut(g, 18));
    LetterBack(Cut(g, 12));
    LetterBack(Cut(g, 6));
    LetterBack(Cut(g, 0));
  }

  // ---------- whole texts ----------

  predicate Letters(s: string) { forall i :: 0 <= i < |s| ==> IsBase64(s[i]) }

  predicate AllEquals(s: string) { forall i :: 0 <= i < |s| ==> s[i] == '=' }

  lemma {:induction false} RunIs(a: string, b: string)
    requires Letters(a) && (b == "" || !IsBase64(b[0]))
    ensures Run(a + b) == |a|
  {
    if a != "" {
      assert (a + b)[1..] == a[1..] + b;
      RunIs(a[1..], b);
    } else {
      assert a + b == b;
    }
  }

  lemma {:induction false} EqualsIs(b: string, c: string)
    requires AllEquals(b) && (c == "" || c[0] != '=')
    ensures Equals(b + c) == |b|
  {
    if b != "" {
      assert (b + c)[1..] == b[1..] + c;
      EqualsIs(b[1..], c);
    } else {
      assert b + c == c;
    }
  }

  /** What decoding makes of any text: `a` letters, then `b` equals signs, then `c`. The text is refused
      exactly when `c` starts with a character outside the alphabet. Otherwise the data is that of `a`, so
      whatever letters follow the padding are dropped without an error. */
  lemma DecodeOf(a: string, b: string, c: string)
    requires Letters(a) && AllEquals(b) && (c == "" || c[0] != '=')
    requires b == "" ==> c == "" || !IsBase64(c[0])
    ensures DecodeText(a + b + c).ok <==> c == "" || IsBase64(c[0])
    ensures DecodeText(a + b + c).data == Whole(a) + if DecodeText(a + b + c).ok then Tail(a) else []
  {
    hide Run, Equals, Whole, Tail;
    var s := a + b + c;
    assert s == a + (b + c);
    if b != "" { assert (b + c)[0] == b[0] == '='; } else { assert b + c == c; }
    RunIs(a, b + c);
    assert s[..|a|] == a && s[|a|..] == b + c;
    EqualsIs(b, c);
    assert |a| + |b| < |s| ==> s[|a| + |b|] == c[0];
  }

  /** The letters of the encoding, without the padding. */
  ghost function Body(data: seq<Byte>): string {
    if |data| == 0 then ""
    else if |data| == 1 then Text(Group(data[0], 0, 0))[..2]
    else if |data| == 2 then Text(Group(data[0], data[1], 0))[..3]
    else Text(Group(data[0], data[1], data[2])) + Body(data[3..])
  }

  ghost function Padding(data: seq<Byte>): string {
    if |data| % 3 == 0 then "" else if |data| % 3 == 1 then "==" else "="
  }

  lemma {:induction false} BodyPadding(data: seq<Byte>)
    ensures Rfc4648(data) == Body(data) + Padding(data) && Letters(Body(data))
  {
    hide Group, Text, Bytes, IsBase64;
    if |data| == 1 {
      GroupBack(data[0], 0, 0);
    } else if |data| == 2 {
      GroupBack(data[0], data[1], 0);
    } else if |data| > 2 {
      GroupBack(data[0], data[1], data[2]);
      BodyPadding(data[3..]);
      assert |data[3..]| % 3 == |data| % 3;
      PaddedRest(data);
    }
  }

  lemma PaddedRest(data: seq<Byte>)
    requires |data| > 2
    ensures Padding(data[3..]) == Padding(data)
  {}

  /** Four characters for every three bytes or part of three. */
  lemma {:induction false} EncodedLength(data: seq<Byte>)
    ensures |Rfc4648(data)| == 4 * ((|data| + 2) / 3)
  {
    if |data| > 2 {
      EncodedLength(data[3..]);
    }
  }

  lemma TailBytes(a: Byte, b: Byte)
    ensures Bytes(Text(Group(a, 0, 0))[..2] + ['\0', '\0'])[..1] == [a]
    ensures Bytes(Text(Group(a, b, 0))[..3] + ['\0'])[..2] == [a, b]
  {
    NotThere('\0', 0);
    SplitIsGroup(a, 0, 0);
    SplitIsGroup(a, b, 0);
    SplitJoinTail(a, b, 255, 255);
    LetterBack(Cut(Group(a, 0, 0), 18));
    LetterBack(Cut(Group(a, 0, 0), 12));
    LetterBack(Cut(Group(a, b, 0), 18));
    LetterBack(Cut(Group(a, b, 0), 12));
    LetterBack(Cut(Group(a, b, 0), 6));
  }

  lemma TailBack(data: seq<Byte>)
    requires |data| < 3
    ensures Whole(Body(data)) == [] && Tail(Body(data)) == data
  {
    hide Group, Text, Bytes;
    if |data| == 1 {
      TailBytes(data[0], 0);
      assert data == [data[0]];
    } else if |data| == 2 {
      TailBytes(data[0], data[1]);
      assert data == [data[0], data[1]];
    }
  }

  lemma {:induction false} NotThere(c: char, from: nat)
    requires from <= 64 && !IsBase64(c)
    ensures Find(c, from) == 255
    decreases 64 - from
  {
    if from < 64 {
      NotThere(c, from + 1);
    }
  }

  lemma {:induction false} BodyBack(data: seq<Byte>)
    ensures Whole(Body(data)) + Tail(Body(data)) == data
  {
    hide Group, Text, Bytes, TailOf;
    if |data| < 3 {
      TailBack(data);
    } else {
      var t, rest := Text(Group(data[0], data[1], data[2])), Body(data[3..]);
      GroupBack(data[0], data[1], data[2]);
      BodyBack(data[3..]);
      var s := Body(data);
      assert s == t + rest && s[..4] == t && s[4..] == rest;
      assert data == [data[0], data[1], data[2]] + data[3..];
    }
  }

  /** Decoding undoes encoding, for every byte string. */
  lemma RoundTrip(data: seq<Byte>)
    ensures DecodeText(Rfc4648(data)) == Decoded(true, data)
  {
    hide Rfc4648, Body, Whole, Tail, DecodeText;
    BodyPadding(data);
    BodyBack(data);
    assert Rfc4648(data) == Body(data) + Padding(data) + "";
    DecodeOf(Body(data), Padding(data), "");
  }

  // ---------- the two functions as they run ----------

  /** `ret` is the encoding of what precedes the `i` bytes before `k`; the first two of those are `a` and `b`. */
  ghost predicate Pending(data: seq<Byte>, k: nat, i: nat, a: Byte, b: Byte, ret: string) {
    && i < 3 && i <= k <= |data| && ret + Rfc4648(data[k - i..]) == Rfc4648(data)
    && (i > 0 ==> a == data[k - i]) && (i > 1 ==> b == data[k - i + 1])
  }

  lemma PendingStart(data: seq<Byte>, a: Byte, b: Byte)
    ensures Pending(data, 0, 0, a, b, "")
  {
    hide Rfc4648;
    assert data[0..] == data;
  }

  lemma PendingMore(data: seq<Byte>, k: nat, i: nat, a: Byte, b: Byte, ret: string)
    requires Pending(data, k, i, a, b, ret) && i < 2 && k < |data|
    ensures Pending(data, k + 1, i + 1, if i == 0 then data[k] else a, if i == 1 then data[k] else b, ret)
  {
    hide Rfc4648;
  }

  lemma PendingFull(data: seq<Byte>, k: nat, a: Byte, b: Byte, x: Byte, y: Byte, ret: string)
    requires Pending(data, k, 2, a, b, ret) && k < |data|
    ensures Pending(data, k + 1, 0, x, y, ret + Text(Group(a, b, data[k])))
  {
    hide Group, Text;
    var text := Text(Group(a, b, data[k]));
    assert data[k - 2..][3..] == data[k + 1..];
    assert ret + text + Rfc4648(data[k + 1..]) == ret + (text + Rfc4648(data[k + 1..]));
  }

  lemma PendingLast(data: seq<Byte>, i: nat, a: Byte, b: Byte, ret: string)
    requires Pending(data, |data|, i, a, b, ret)
    ensures i <= |data| && ret + Rfc4648(data[|data| - i..]) == Rfc4648(data) && (i == 0 ==> ret == Rfc4648(data))
    ensures (i > 0 ==> a == data[|data| - i..][0]) && (i > 1 ==> b == data[|data| - i..][1])
  {
    assert data[|data|..] == [] && Rfc4648([]) == "";
  }

  method Encode(data: seq<Byte>) returns (ret: string)
    ensures ret == Rfc4648(data)
  {
    hide Group, Text, Cut, Split, Rfc4648, Pending;
    ret := "";
    var i, k := 0, 0;
    var three: array<Byte> := new Byte[3];
    var length := |data|;
    PendingStart(data, three[0], three[1]);
    while length > 0
      invariant 0 <= i < 3 && length >= 0 && 0 <= k == |data| - length
      invariant Pending(data, k, i, three[0], three[1], ret)
      decreases length
    {
      ghost var a, b := three[0], three[1];
      if i < 2 { PendingMore(data, k, i, a, b, ret); } else { PendingFull(data, k, a, b, a, b, ret); }
      length := length - 1;
      three[i] := data[k];
      k := k + 1;
      i := i + 1;
      if i == 3 {
        var text := EncodeGroup(three[0], three[1], three[2]);
        ret := ret + text;
        i := 0;
      }
    }
    PendingLast(data, i, three[0], three[1], ret);
    if i > 0 {
      var last := EncodeLast(three, i, data[|data| - i..]);
      ret := ret + last;
    }
  }

  /** The last group: `i` bytes, filled with zero and padded. */
  method EncodeLast(three: array<Byte>, i: nat, ghost rest: seq<Byte>) returns (ret: string)
    requires three.Length == 3 && 0 < i < 3 && |rest| == i && three[0] == rest[0] && (i == 2 ==> three[1] == rest[1])
    modifies three
    ensures ret == Rfc4648(rest)
  {
    hide Group, Cut, Split;
    var j := i;
    while j < 3
      invariant i <= j <= 3
      invariant three[0] == rest[0] && (i == 2 ==> three[1] == rest[1])
      invariant forall m :: i <= m < j ==> three[m] == 0
    {
      three[j] := 0;
      j := j + 1;
    }
    var text := EncodeGroup(three[0], three[1], three[2]);
    ret := "";
    j := 0;
    while j < i + 1
      invariant 0 <= j <= i + 1 && ret == text[..j]
    {
      ret := ret + [text[j]];
      j := j + 1;
    }
    var n := i;
    while n < 3
      invariant i <= n <= 3 && ret == text[..i + 1] + if n == i then "" else if n == i + 1 then "=" else "=="
    {
      ret := ret + "=";
      n := n + 1;
    }
  }

  /** The four characters of char_array_3. */
  method EncodeGroup(a: Byte, b: Byte, c: Byte) returns (text: string)
    ensures text == Text(Group(a, b, c))
  {
    SplitIsGroup(a, b, c);
    var four := Split(a, b, c);
    text := [Letter(four.p as int), Letter(four.q as int), Letter(four.r as int), Letter(four.s as int)];
  }

  method Decode(encoded: string) returns (r: Decoded)
    ensures r == DecodeText(encoded)
  {
    hide Bytes, Filled, Run, Equals, Whole, Tail;
    var four: array<char> := new char[4];
    var decoded, i, in_ := DecodeLetters(encoded, four);
    ghost var left := encoded[in_ - i..in_];
    in_ := SkipEquals(encoded, in_);
    if in_ < |encoded| && !IsBase64(encoded[in_]) {
      return Decoded(false, decoded);
    }
    if i > 0 {
      FillGroup(four, i, left);
      decoded := decoded + Bytes(four[..])[..i - 1];
    }
    return Decoded(true, decoded);
  }

  /** `decoded` is the data of the leading letters before the `i` characters that precede `at` and are kept. */
  ghost predicate Collected(encoded: string, at: nat, i: nat, kept: string, decoded: seq<Byte>) {
    var letters := encoded[..Run(encoded)];
    && i < 4 && i <= at <= |letters| && |kept| == 4 && kept[..i] == letters[at - i..at]
    && decoded + Whole(letters[at - i..]) == Whole(letters) && Tail(letters[at - i..]) == Tail(letters)
  }

  lemma CollectedStart(encoded: string, kept: string)
    requires |kept| == 4
    ensures Collected(encoded, 0, 0, kept, [])
  {
    hide Run, Whole, Tail;
    var letters := encoded[..Run(encoded)];
    assert letters[0..] == letters && [] + Whole(letters) == Whole(letters);
  }

  lemma CollectedMore(encoded: string, at: nat, i: nat, kept: string, decoded: seq<Byte>)
    requires Collected(encoded, at, i, kept, decoded) && at < Run(encoded) && i < 3
    ensures Collected(encoded, at + 1, i + 1, kept[i := encoded[at]], decoded)
  {
    hide Run, Whole, Tail;
    var letters := encoded[..Run(encoded)];
    assert letters[at - i..at + 1] == letters[at - i..at] + [encoded[at]];
    assert kept[i := encoded[at]][..i + 1] == kept[..i] + [encoded[at]];
  }

  lemma CollectedFull(encoded: string, at: nat, kept: string, decoded: seq<Byte>)
    requires Collected(encoded, at, 3, kept, decoded) && at < Run(encoded)
    ensures Collected(encoded, at + 1, 0, kept[3 := encoded[at]], decoded + Bytes(kept[3 := encoded[at]]))
  {
    hide Run, Bytes, TailOf;
    var letters := encoded[..Run(encoded)];
    var group, rest := kept[3 := encoded[at]], letters[at - 3..];
    assert group == kept[..3] + [encoded[at]];
    assert rest[..4] == letters[at - 3..at] + [encoded[at]] == group;
    assert rest[4..] == letters[at + 1..];
    hide Whole, Tail;
    assert decoded + (Bytes(group) + Whole(letters[at + 1..])) == decoded + Bytes(group) + Whole(letters[at + 1..]);
  }

  lemma CollectedAll(encoded: string, i: nat, kept: string, decoded: seq<Byte>)
    requires Collected(encoded, Run(encoded), i, kept, decoded)
    ensures var n := Run(encoded);
      && i <= n && decoded == Whole(encoded[..n]) && Tail(encoded[..n]) == TailOf(encoded[n - i..n])
      && kept[..i] == encoded[n - i..n]
  {
    hide Run, Bytes, TailOf;
    var n := Run(encoded);
    assert encoded[..n][n - i..] == encoded[n - i..n] == encoded[..n][n - i..n];
    assert decoded + [] == decoded;
  }

  /** The loop over the leading letters: whole groups are decoded, `i` characters are left in `four`. */
  method DecodeLetters(encoded: string, four: array<char>) returns (decoded: seq<Byte>, i: nat, in_: nat)
    requires four.Length == 4
    modifies four
    ensures in_ == Run(encoded) && i < 4 && i <= in_
    ensures decoded == Whole(encoded[..in_]) && Tail(encoded[..in_]) == TailOf(encoded[in_ - i..in_])
    ensures forall m :: 0 <= m < i ==> four[m] == encoded[in_ - i..in_][m]
  {
    hide Bytes, TailOf, Run, Whole, Tail, Collected;
    decoded := [];
    i, in_ := 0, 0;
    var inLen := |encoded|;
    CollectedStart(encoded, four[..]);
    while inLen > 0 && encoded[in_] != '=' && IsBase64(encoded[in_])
      invariant 0 <= i < 4 && inLen >= 0 && in_ == |encoded| - inLen && in_ <= Run(encoded)
      invariant Collected(encoded, in_, i, four[..], decoded)
      decreases inLen
    {
      ghost var kept := four[..];
      if i < 3 {
        CollectedMore(encoded, in_, i, kept, decoded);
      } else {
        CollectedFull(encoded, in_, kept, decoded);
      }
      inLen := inLen - 1;
      four[i] := encoded[in_];
      assert four[..] == kept[i := encoded[in_]];
      i := i + 1;
      in_ := in_ + 1;
      if i == 4 {
        decoded := decoded + Bytes(four[..]);
        i := 0;
      }
    }
    CollectedAll(encoded, i, four[..], decoded);
    assert forall m :: 0 <= m < i ==> four[m] == four[..][..i][m];
  }

  method FillGroup(four: array<char>, i: nat, ghost left: string)
    requires four.Length == 4 && 0 < i < 4 && |left| == i && forall m :: 0 <= m < i ==> four[m] == left[m]
    modifies four
    ensures four[..] == Filled(left)
  {
    var j := i;
    while j < 4
      invariant i <= j <= 4
      invariant forall m :: 0 <= m < i ==> four[m] == left[m]
      invariant forall m :: i <= m < j ==> four[m] == '\0'
    {
      four[j] := '\0';
      j := j + 1;
    }
  }

  method SkipEquals(encoded: string, from: nat) returns (in_: nat)
    requires from <= |encoded|
    ensures in_ == from + Equals(encoded[from..])
  {
    in_ := from;
    while in_ < |encoded| && encoded[in_] == '='
      invariant from <= in_ <= |encoded|
      invariant Equals(encoded[from..]) == in_ - from + Equals(encoded[in_..])
    {
      assert encoded[in_..][1..] == encoded[in_ + 1..];
      in_ := in_ + 1;
    }
  }
}
