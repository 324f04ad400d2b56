/** Call ids: common/runtime.go, MapBytesToTopicTitle. The encoder is the one of
    section 4 of RFC 4648 with its padding trimmed and '+' and '/' replaced. */
module CallIds {
  import opened Text

  type Byte = b: int | 0 <= b < 256
  type Sextet = v: int | 0 <= v < 64

  /** The base 64 alphabet of section 4 of RFC 4648 */
  function StdChar(v: Sextet): char {
    if v < 26 then ('A' as int + v) as char
    else if v < 52 then ('a' as int + (v - 26)) as char
    else if v < 62 then ('0' as int + (v - 52)) as char
    else if v == 62 then '+' else '/'
  }

  /** Three bytes as four 6-bit groups; one or two bytes left at the end make two
      or three, filled up with zero bits */
  function Sextets(data: seq<Byte>): seq<Sextet> {
    if |data| == 0 then []
    else if |data| == 1 then [data[0] / 4, data[0] % 4 * 16]
    else if |data| == 2 then [data[0] / 4, data[0] % 4 * 16 + data[1] / 16, data[1] % 16 * 4]
    else Quad(data[0], data[1], data[2]) + Sextets(data[3..])
  }

  function Quad(x: Byte, y: Byte, z: Byte): seq<Sextet> {
    [x / 4, x % 4 * 16 + y / 16, y % 16 * 4 + z / 64, z % 64]
  }

  function StdChars(vs: seq<Sextet>): string {
    seq(|vs|, i requires 0 <= i < |vs| => StdChar(vs[i]))
  }

  function Padding(n: nat): string {
    if n % 3 == 0 then "" else if n % 3 == 1 then "==" else "="
  }

  /** base64.StdEncoding.EncodeToString */
  function StdEncode(data: seq<Byte>): string {
    StdChars(Sextets(data)) + Padding(|data|)
  }

  function TrimRightEq(s: string): string {
    if s != "" && s[|s| - 1] == '=' then TrimRightEq(s[..|s| - 1]) else s
  }

  function TrimLeftEq(s: string): string {
    if s != "" && s[0] == '=' then TrimLeftEq(s[1..]) else s
  }

  /** strings.Trim(s, "=") works from both ends */
  function TrimEq(s: string): string {
    TrimRightEq(TrimLeftEq(s))
  }

  function TopicChar(c: char): char {
    if c == '+' then '_' else if c == '/' then '-' else c
  }

  /** base64Replacer */
  function Replace(s: string): (r: string)
    ensures |r| == |s| && forall i :: 0 <= i < |s| ==> r[i] == TopicChar(s[i])
  {
    seq(|s|, i requires 0 <= i < |s| => TopicChar(s[i]))
  }

  function MapBytesToTopicTitle(data: seq<Byte>): string {
    Replace(TrimEq(StdEncode(data)))
  }

  // ------------------------------------------------------------- the inverse

  function Value(c: char): Option<Sextet> {
    if 'A' <= c <= 'Z' then Some(c as int - 'A' as int)
    else if 'a' <= c <= 'z' then Some(c as int - 'a' as int + 26)
    else if '0' <= c <= '9' then Some(c as int - '0' as int + 52)
    else if c == '_' then Some(62)
    else if c == '-' then Some(63)
    else None
  }

  predicate InAlphabet(s: string) {
    forall i :: 0 <= i < |s| ==> Value(s[i]).Some?
  }

  function Values(s: string): seq<Sextet>
    requires InAlphabet(s)
  {
    seq(|s|, i requires 0 <= i < |s| => Value(s[i]).value)
  }

  function FirstByte(p: Sextet, q: Sextet): Byte { p as int * 4 + q as int / 16 }

  function SecondByte(q: Sextet, r: Sextet): Byte { q as int % 16 * 16 + r as int / 4 }

  function ThirdByte(r: Sextet, t: Sextet): Byte { r as int % 4 * 64 + t as int }

  function Bytes(vs: seq<Sextet>): seq<Byte> {
    if |vs| < 2 then []
    else if |vs| == 2 then [FirstByte(vs[0], vs[1])]
    else if |vs| == 3 then [FirstByte(vs[0], vs[1]), SecondByte(vs[1], vs[2])]
    else [FirstByte(vs[0], vs[1]), SecondByte(vs[1], vs[2]), ThirdByte(vs[2], vs[3])] + Bytes(vs[4..])
  }

  /** Reads the bytes back out of a topic title */
  function TitleToBytes(s: string): Option<seq<Byte>> {
    if InAlphabet(s) then Some(Bytes(Values(s))) else None
  }

  // ------------------------------------------------------------- proofs

  lemma {:induction false} TrimRightCut(s: string, pad: string)
    requires '=' !in s && forall i :: 0 <= i < |pad| ==> pad[i] == '='
    ensures TrimRightEq(s + pad) == s
  {
    if pad == "" {
      assert s + pad == s;
    } else {
      TrimRightCut(s, pad[1..]);
      assert (s + pad)[..|s + pad| - 1] == s + pad[1..];
    }
  }

  lemma SextetsGrow(data: seq<Byte>)
    ensures |data| > 0 ==> |Sextets(data)| > 0
  {
  }

  /** Trimming takes the padding and nothing else. */
  lemma TitleIsSextets(data: seq<Byte>)
    ensures MapBytesToTopicTitle(data) == Replace(StdChars(Sextets(data)))
  {
    var core := StdChars(Sextets(data));
    SextetsGrow(data);
    assert '=' !in core;
    assert TrimLeftEq(StdEncode(data)) == StdEncode(data);
    TrimRightCut(core, Padding(|data|));
  }

  lemma ValueInverts(v: Sextet)
    ensures Value(TopicChar(StdChar(v))) == Some(v)
  {
  }

  lemma CharsInvert(vs: seq<Sextet>)
    ensures var s := Replace(StdChars(vs)); InAlphabet(s) && Values(s) == vs
  {
    var s := Replace(StdChars(vs));
    forall i | 0 <= i < |s| ensures Value(s[i]) == Some(vs[i]) { ValueInverts(vs[i]); }
  }

  /** Four sextets make three bytes again. */
  lemma Regroup(x: Byte, y: Byte, z: Byte)
    ensures var q := Quad(x, y, z);
            FirstByte(q[0], q[1]) == x && SecondByte(q[1], q[2]) == y && ThirdByte(q[2], q[3]) == z
  {
  }

  lemma BytesOfGroup(x: Byte, y: Byte, z: Byte, vs: seq<Sextet>)
    ensures Bytes(Quad(x, y, z) + vs) == [x, y, z] + Bytes(vs)
  {
    Regroup(x, y, z);
    assert (Quad(x, y, z) + vs)[4..] == vs;
  }

  lemma {:induction false} SextetsRoundTrip(data: seq<Byte>)
    ensures Bytes(Sextets(data)) == data
  {
    if |data| >= 3 {
      SextetsRoundTrip(data[3..]);
      BytesOfGroup(data[0], data[1], data[2], Sextets(data[3..]));
      assert data == [data[0], data[1], data[2]] + data[3..];
    }
  }

  /** No information is lost, although the padding is. */
  lemma TitleRoundTrip(data: seq<Byte>)
    ensures TitleToBytes(MapBytesToTopicTitle(data)) == Some(data)
  {
    TitleIsSextets(data);
    CharsInvert(Sextets(data));
    SextetsRoundTrip(data);
  }

  /** Different byte strings, of whatever lengths, get different titles. */
  lemma TitleInjective(a: seq<Byte>, b: seq<Byte>)
    ensures MapBytesToTopicTitle(a) == MapBytesToTopicTitle(b) <==> a == b
  {
    TitleRoundTrip(a);
    TitleRoundTrip(b);
  }

  /** A title is one topic level: no separator, no wildcard, no padding; and it
      is empty only for no bytes at all. */
  lemma TitleIsTopicFriendly(data: seq<Byte>)
    ensures forall c :: c in MapBytesToTopicTitle(data) ==> c != '/' && c != '+' && c != '#' && c != '='
    ensures MapBytesToTopicTitle(data) == "" <==> data == []
  {
    TitleIsSextets(data);
    CharsInvert(Sextets(data));
    SextetsGrow(data);
  }

  // ------------------------------------------------------------- known titles

  lemma TitleOfThree(x: Byte, y: Byte, z: Byte)
    ensures MapBytesToTopicTitle([x, y, z]) == Replace(StdChars(Quad(x, y, z)))
  {
    TitleIsSextets([x, y, z]);
    assert [x, y, z][3..] == [];
    assert Sextets([x, y, z]) == Quad(x, y, z);
  }

  /** The title of three bytes, character by character */
  lemma KnownTitle(x: Byte, y: Byte, z: Byte, title: string)
    requires |title| == 4
    requires title[0] == TopicChar(StdChar(x / 4)) && title[1] == TopicChar(StdChar(x % 4 * 16 + y / 16))
    requires title[2] == TopicChar(StdChar(y % 16 * 4 + z / 64)) && title[3] == TopicChar(StdChar(z % 64))
    ensures MapBytesToTopicTitle([x, y, z]) == title
  {
    TitleOfThree(x, y, z);
  }

  /** The alphabet in order, three bytes at a time, with the last two characters
      those a topic can take. */
  lemma UpperTitles()
    ensures MapBytesToTopicTitle([0x00, 0x10, 0x83]) == "ABCD"
    ensures MapBytesToTopicTitle([0x10, 0x51, 0x87]) == "EFGH"
    ensures MapBytesToTopicTitle([0x20, 0x92, 0x8b]) == "IJKL"
    ensures MapBytesToTopicTitle([0x30, 0xd3, 0x8f]) == "MNOP"
  {
    KnownTitle(0x00, 0x10, 0x83, "ABCD");
    KnownTitle(0x10, 0x51, 0x87, "EFGH");
    KnownTitle(0x20, 0x92, 0x8b, "IJKL");
    KnownTitle(0x30, 0xd3, 0x8f, "MNOP");
  }

  lemma MixedTitles()
    ensures MapBytesToTopicTitle([0x41, 0x14, 0x93]) == "QRST"
    ensures MapBytesToTopicTitle([0x51, 0x55, 0x97]) == "UVWX"
    ensures MapBytesToTopicTitle([0x61, 0x96, 0x9b]) == "YZab"
    ensures MapBytesToTopicTitle([0x71, 0xd7, 0x9f]) == "cdef"
  {
    KnownTitle(0x41, 0x14, 0x93, "QRST");
    KnownTitle(0x51, 0x55, 0x97, "UVWX");
    KnownTitle(0x61, 0x96, 0x9b, "YZab");
    KnownTitle(0x71, 0xd7, 0x9f, "cdef");
  }

  lemma LowerTitles()
    ensures MapBytesToTopicTitle([0x82, 0x18, 0xa3]) == "ghij"
    ensures MapBytesToTopicTitle([0x92, 0x59, 0xa7]) == "klmn"
    ensures MapBytesToTopicTitle([0xa2, 0x9a, 0xab]) == "opqr"
    ensures MapBytesToTopicTitle([0xb2, 0xdb, 0xaf]) == "stuv"
  {
    KnownTitle(0x82, 0x18, 0xa3, "ghij");
    KnownTitle(0x92, 0x59, 0xa7, "klmn");
    KnownTitle(0xa2, 0x9a, 0xab, "opqr");
    KnownTitle(0xb2, 0xdb, 0xaf, "stuv");
  }

  lemma DigitTitles()
    ensures MapBytesToTopicTitle([0xc3, 0x1c, 0xb3]) == "wxyz"
    ensures MapBytesToTopicTitle([0xd3, 0x5d, 0xb7]) == "0123"
    ensures MapBytesToTopicTitle([0xe3, 0x9e, 0xbb]) == "4567"
    ensures MapBytesToTopicTitle([0xf3, 0xdf, 0xbf]) == "89_-"
  {
    KnownTitle(0xc3, 0x1c, 0xb3, "wxyz");
    KnownTitle(0xd3, 0x5d, 0xb7, "0123");
    KnownTitle(0xe3, 0x9e, 0xbb, "4567");
    KnownTitle(0xf3, 0xdf, 0xbf, "89_-");
  }

  /** Bytes left over at the end are filled up with zero bits, and no padding
      stays. */
  lemma KnownTails()
    ensures MapBytesToTopicTitle([0x66]) == "Zg" && MapBytesToTopicTitle([0x66, 0x6f]) == "Zm8"
  {
    TitleIsSextets([0x66]);
    TitleIsSextets([0x66, 0x6f]);
    assert Sextets([0x66]) == [25, 32] && Sextets([0x66, 0x6f]) == [25, 38, 60];
  }
}
