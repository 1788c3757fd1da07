/**
 * The paste blob bit by bit: which characters the encoding of any bytes has, which bytes any text decodes to
 * in either client, and what pasting any text gives.
 */
module PasteBits {
  import opened Protocol
  import opened Frames
  import opened Paste

  const UPPER := "ABCDEFGHIJKLMNOPQRSTUVWXYZ"
  const LOWER := "abcdefghijklmnopqrstuvwxyz"
  const URL_ALPHABET := UPPER + LOWER + "0123456789-_"
  const STANDARD_ALPHABET := UPPER + LOWER + "0123456789+/"

  // ----- Alphabets --------------------------------------------------------------------------------

  lemma CharsAre(v: Sextet)
    ensures |URL_ALPHABET| == |STANDARD_ALPHABET| == 64
    ensures CharOf(v, true) == URL_ALPHABET[v]
    ensures CharOf(v, false) == STANDARD_ALPHABET[v]
  {
  }

  lemma ValueIsChar(c: char, v: Sextet, url: bool)
    ensures ValueOf(c, url) == Some(v) <==> c == CharOf(v, url)
  {
  }

  // ----- Bits ---------------------------------------------------------------------------------------

  /** The k-th bit of a byte, the highest first. */
  function BitAt(b: nat, k: nat): int
    requires k < 8
  {
    match k
    case 0 => b / 128 % 2
    case 1 => b / 64 % 2
    case 2 => b / 32 % 2
    case 3 => b / 16 % 2
    case 4 => b / 8 % 2
    case 5 => b / 4 % 2
    case 6 => b / 2 % 2
    case 7 => b % 2
  }

  /** The p-th bit of the bytes; zero past the end. */
  function Bit(data: Bytes, p: nat): int {
    if p < 8 * |data| then BitAt(data[p / 8], p % 8) else 0
  }

  /** The p-th bit of six-bit groups. */
  function GroupBit(v: seq<Sextet>, p: nat): int {
    if p < 6 * |v| then BitAt(v[p / 6], p % 6 + 2) else 0
  }

  function SixBits(data: Bytes, p: nat): int {
    32 * Bit(data, p) + 16 * Bit(data, p + 1) + 8 * Bit(data, p + 2) + 4 * Bit(data, p + 3) + 2 * Bit(data, p + 4)
    + Bit(data, p + 5)
  }

  function EightBits(v: seq<Sextet>, p: nat): int {
    128 * GroupBit(v, p) + 64 * GroupBit(v, p + 1) + 32 * GroupBit(v, p + 2) + 16 * GroupBit(v, p + 3)
    + 8 * GroupBit(v, p + 4) + 4 * GroupBit(v, p + 5) + 2 * GroupBit(v, p + 6) + GroupBit(v, p + 7)
  }

  lemma HighHalves(b: nat)
    ensures b / 64 == 2 * (b / 128) + BitAt(b, 1)
  {
  }

  lemma NextHalves(b: nat)
    ensures b / 32 == 2 * (b / 64) + BitAt(b, 2)
  {
  }

  lemma MiddleHalves(b: nat)
    ensures b / 16 == 2 * (b / 32) + BitAt(b, 3)
    ensures b / 8 == 2 * (b / 16) + BitAt(b, 4)
  {
  }

  lemma LowHalves(b: nat)
    ensures b / 4 == 2 * (b / 8) + BitAt(b, 5)
    ensures b / 2 == 2 * (b / 4) + BitAt(b, 6)
    ensures b == 2 * (b / 2) + BitAt(b, 7)
  {
  }

  lemma TopBit(b: Byte)
    ensures b / 128 == BitAt(b, 0)
  {
  }

  /** Quotients and remainders of a byte, in bits. */
  lemma ByteBits(b: Byte)
    ensures b / 64 == 2 * BitAt(b, 0) + BitAt(b, 1)
    ensures b / 16 == 8 * BitAt(b, 0) + 4 * BitAt(b, 1) + 2 * BitAt(b, 2) + BitAt(b, 3)
    ensures b / 4 == 4 * (b / 16) + 2 * BitAt(b, 4) + BitAt(b, 5)
    ensures b % 4 == 2 * BitAt(b, 6) + BitAt(b, 7)
    ensures b % 16 == 8 * BitAt(b, 4) + 4 * BitAt(b, 5) + b % 4
    ensures b % 64 == 32 * BitAt(b, 2) + 16 * BitAt(b, 3) + b % 16
  {
    hide BitAt;
    TopBit(b);
    HighHalves(b);
    NextHalves(b);
    MiddleHalves(b);
    LowHalves(b);
  }

  lemma BitShift(data: Bytes, p: nat)
    requires |data| >= 3 && p >= 24
    ensures Bit(data, p) == Bit(data[3..], p - 24)
  {
    assert p / 8 == (p - 24) / 8 + 3 && p % 8 == (p - 24) % 8;
  }

  lemma GroupBitShift(v: seq<Sextet>, p: nat)
    requires |v| >= 4 && p >= 24
    ensures GroupBit(v, p) == GroupBit(v[4..], p - 24)
  {
    assert p / 6 == (p - 24) / 6 + 4 && p % 6 == (p - 24) % 6;
  }

  lemma SixShift(data: Bytes, p: nat)
    requires |data| >= 3 && p >= 24
    ensures SixBits(data, p) == SixBits(data[3..], p - 24)
  {
    hide Bit;
    BitShift(data, p);
    BitShift(data, p + 1);
    BitShift(data, p + 2);
    BitShift(data, p + 3);
    BitShift(data, p + 4);
    BitShift(data, p + 5);
  }

  lemma EightShift(v: seq<Sextet>, p: nat)
    requires |v| >= 4 && p >= 24
    ensures EightBits(v, p) == EightBits(v[4..], p - 24)
  {
    hide GroupBit;
    GroupBitShift(v, p);
    GroupBitShift(v, p + 1);
    GroupBitShift(v, p + 2);
    GroupBitShift(v, p + 3);
    GroupBitShift(v, p + 4);
    GroupBitShift(v, p + 5);
    GroupBitShift(v, p + 6);
    GroupBitShift(v, p + 7);
  }

  lemma FirstGroups(data: Bytes)
    requires data != []
    ensures SixBits(data, 0) == data[0] / 4
    ensures SixBits(data, 6) == data[0] % 4 * 16 + (if |data| > 1 then data[1] / 16 else 0)
  {
    hide BitAt;
    ByteBits(data[0]);
    if |data| > 1 {
      ByteBits(data[1]);
    }
  }

  lemma NextGroups(data: Bytes)
    requires |data| > 1
    ensures SixBits(data, 12) == data[1] % 16 * 4 + (if |data| > 2 then data[2] / 64 else 0)
    ensures |data| > 2 ==> SixBits(data, 18) == data[2] % 64
  {
    hide BitAt;
    ByteBits(data[1]);
    if |data| > 2 {
      ByteBits(data[2]);
    }
  }

  /** The i-th group is the i-th six bits of the bytes. */
  lemma {:induction false} SextetsAreBits(data: Bytes, i: nat)
    requires i < |Sextets(data)|
    ensures Sextets(data)[i] == SixBits(data, 6 * i)
  {
    hide SixBits;
    FirstGroups(data);
    if |data| > 1 {
      NextGroups(data);
    }
    if i >= 4 {
      SextetsAreBits(data[3..], i - 4);
      SixShift(data, 6 * i);
    }
  }

  lemma FirstOctet(v: seq<Sextet>)
    requires |v| >= 2
    ensures EightBits(v, 0) == (v[0] as int) * 4 + v[1] / 16
  {
    hide BitAt;
    ByteBits(v[0]);
    ByteBits(v[1]);
    SextetTop(v[0]);
    SextetTop(v[1]);
  }

  lemma SecondOctet(v: seq<Sextet>)
    requires |v| >= 3
    ensures EightBits(v, 8) == (v[1] as int) % 16 * 16 + v[2] / 4
  {
    hide BitAt;
    ByteBits(v[1]);
    ByteBits(v[2]);
    SextetTop(v[2]);
  }

  lemma ThirdOctet(v: seq<Sextet>)
    requires |v| >= 4
    ensures EightBits(v, 16) == (v[2] as int) % 4 * 64 + v[3]
  {
    hide BitAt;
    ByteBits(v[2]);
    ByteBits(v[3]);
    SextetTop(v[3]);
  }

  lemma SextetTop(v: Sextet)
    ensures BitAt(v, 0) == BitAt(v, 1) == 0
  {
  }

  /** These bytes are the bits of the groups, eight by eight, with an incomplete byte at the end left off. */
  ghost predicate AreBits(v: seq<Sextet>, data: Bytes) {
    && |data| == 6 * |v| / 8
    && forall j | 0 <= j < |data| :: data[j] == EightBits(v, 8 * j)
  }

  lemma {:induction false} OctetsAreBits(v: seq<Sextet>)
    requires Octets(v).Some?
    ensures AreBits(v, Octets(v).value)
  {
    hide EightBits;
    if |v| >= 2 {
      FirstOctet(v);
    }
    if |v| >= 3 {
      SecondOctet(v);
    }
    if |v| >= 4 {
      ThirdOctet(v);
      var data, rest := Octets(v).value, Octets(v[4..]).value;
      OctetsAreBits(v[4..]);
      assert data[3..] == rest;
      forall j | 3 <= j < |data|
        ensures data[j] == EightBits(v, 8 * j)
      {
        assert data[j] == rest[j - 3];
        EightShift(v, 8 * j);
      }
    }
  }

  lemma OctetsExactly(v: seq<Sextet>, data: Bytes)
    ensures Octets(v) == Some(data) <==> |v| % 4 != 1 && AreBits(v, data)
  {
    hide Octets, EightBits;
    LoneGroup(v);
    if Octets(v).Some? {
      OctetsAreBits(v);
      if AreBits(v, data) {
        assert data == Octets(v).value;
      }
    }
  }

  // ----- The encoding of any bytes --------------------------------------------------------------------

  /** One character for every six bits, by the base64url table; zero bits fill up the last group. */
  lemma RawUrlExactly(data: Bytes, s: string)
    ensures s == RawUrl(data) <==>
              (&& |s| == (8 * |data| + 5) / 6
               && forall i: nat | i < |s| :: 0 <= SixBits(data, 6 * i) < 64 && s[i] == URL_ALPHABET[SixBits(data, 6 * i)])
  {
    hide Sextets, SixBits, CharOf;
    var v := Sextets(data);
    forall i: nat | i < |v|
      ensures 0 <= SixBits(data, 6 * i) < 64 && RawUrl(data)[i] == URL_ALPHABET[SixBits(data, 6 * i)]
    {
      SextetsAreBits(data, i);
      CharsAre(v[i]);
    }
    assert (4 * |data| + 2) / 3 == (8 * |data| + 5) / 6;
  }

  // ----- What any text decodes to -----------------------------------------------------------------------

  /** The groups of a text, by the base64url table and, for the browser, also by the base64 table. */
  ghost predicate AreGroups(t: string, lax: bool, v: seq<Sextet>) {
    && |v| == |t|
    && forall i | 0 <= i < |t| ::
         t[i] == URL_ALPHABET[v[i]] || (lax && t[i] == STANDARD_ALPHABET[v[i]])
  }

  lemma GoGroups(t: string, v: seq<Sextet>)
    ensures Values(t, true) == Some(v) <==> AreGroups(t, false, v)
  {
    hide Values, ValueOf, CharOf;
    ValuesAre(t, true);
    forall i | 0 <= i < |t| && i < |v|
      ensures ValueOf(t[i], true) == Some(v[i]) <==> t[i] == URL_ALPHABET[v[i]]
    {
      CharsAre(v[i]);
      ValueIsChar(t[i], v[i], true);
    }
    if AreGroups(t, false, v) {
      assert forall i | 0 <= i < |t| :: ValueOf(t[i], true) == Some(v[i]);
      assert Values(t, true).value == v;
    }
  }

  lemma StandardGroup(c: char, v: Sextet)
    ensures ValueOf(StandardChar(c), false) == Some(v) <==> c == CharOf(v, true) || c == CharOf(v, false)
  {
  }

  lemma BrowserGroups(t: string, v: seq<Sextet>)
    ensures Values(Standard(t), false) == Some(v) <==> AreGroups(t, true, v)
  {
    hide Values, ValueOf, CharOf, Standard, StandardChar;
    ValuesAre(Standard(t), false);
    forall i | 0 <= i < |t| && i < |v|
      ensures ValueOf(Standard(t)[i], false) == Some(v[i]) <==> t[i] == URL_ALPHABET[v[i]] || t[i] == STANDARD_ALPHABET[v[i]]
    {
      StandardAt(t, i);
      CharsAre(v[i]);
      StandardGroup(t[i], v[i]);
    }
    if AreGroups(t, true, v) {
      assert forall i | 0 <= i < |t| :: ValueOf(Standard(t)[i], false) == Some(v[i]);
      assert Values(Standard(t), false).value == v;
    }
  }

  /** What is left of a text for decoding. */
  function Left(client: Client, s: string): string {
    if client.GoClient? then Without(s, Newline) else Remains(s)
  }

  function DecodeText(client: Client, s: string): Option<Bytes> {
    if client.GoClient? then RawUrlDecode(s) else UrlDecode(s)
  }

  /** A text decodes to these bytes exactly when every character left is in the table and the bits are theirs. */
  lemma DecodesExactly(client: Client, s: string, data: Bytes)
    ensures DecodeText(client, s) == Some(data) <==>
              exists v :: AreGroups(Left(client, s), client.BrowserClient?, v) && |v| % 4 != 1 && AreBits(v, data)
  {
    hide Values, Octets, Without, Remains, Standard, AreBits, AreGroups, UrlDecode;
    var t := Left(client, s);
    if client.BrowserClient? {
      UrlDecodeIs(s);
    }
    var values := if client.GoClient? then Values(t, true) else Values(Standard(t), false);
    forall v
      ensures values == Some(v) <==> AreGroups(t, client.BrowserClient?, v)
    {
      GoGroups(t, v);
      BrowserGroups(t, v);
    }
    if values.Some? {
      assert AreGroups(t, client.BrowserClient?, values.value);
      OctetsExactly(values.value, data);
    }
  }

  /** Dropping goes character by character. */
  lemma WithoutOne(c: char, drop: char -> bool)
    ensures Without([c], drop) == if drop(c) then [] else [c]
  {
  }

  // ----- What pasting any text gives --------------------------------------------------------------------

  /** White space outside s[i..j], and none at its two ends. */
  ghost predicate Bounds(s: string, space: char -> bool, i: nat, j: nat) {
    && i <= j <= |s|
    && (forall k | 0 <= k < i :: space(s[k])) && (forall k | j <= k < |s| :: space(s[k]))
    && (i < j ==> !space(s[i]) && !space(s[j - 1]))
  }

  /** The text without the white space around it. */
  ghost predicate IsTrimmed(s: string, space: char -> bool, t: string) {
    exists i: nat, j: nat :: Bounds(s, space, i, j) && t == s[i..j]
  }

  lemma {:induction false} TrimLeftIs(s: string, space: char -> bool) returns (i: nat)
    ensures i <= |s| && TrimLeft(s, space) == s[i..] && forall k | 0 <= k < i :: space(s[k])
    ensures i < |s| ==> !space(s[i])
  {
    if s != [] && space(s[0]) {
      i := TrimLeftIs(s[1..], space);
      i := i + 1;
      assert forall k | 1 <= k < i :: s[k] == s[1..][k - 1];
    } else {
      i := 0;
    }
  }

  lemma {:induction false} TrimRightIs(s: string, space: char -> bool) returns (j: nat)
    ensures j <= |s| && TrimRight(s, space) == s[..j] && forall k | j <= k < |s| :: space(s[k])
    ensures j > 0 ==> !space(s[j - 1])
  {
    if s != [] && space(s[|s| - 1]) {
      j := TrimRightIs(s[..|s| - 1], space);
    } else {
      j := |s|;
    }
  }

  lemma TrimsTo(s: string, space: char -> bool)
    ensures IsTrimmed(s, space, TrimRight(TrimLeft(s, space), space))
  {
    var i := TrimLeftIs(s, space);
    var rest := s[i..];
    var n := TrimRightIs(rest, space);
    var j := i + n;
    var t := s[i..j];
    assert t == rest[..n];
    forall k | j <= k < |s|
      ensures space(s[k])
    {
      assert s[k] == rest[k - i];
    }
    assert i < j ==> s[j - 1] == rest[n - 1];
    assert Bounds(s, space, i, j);
  }

  lemma OneBounds(s: string, space: char -> bool, i: nat, j: nat, m: nat, n: nat)
    requires Bounds(s, space, i, j) && Bounds(s, space, m, n)
    ensures (i == m && j == n) || (i == j && m == n)
  {
  }

  lemma OneTrimmed(s: string, space: char -> bool, a: string, b: string)
    requires IsTrimmed(s, space, a) && IsTrimmed(s, space, b)
    ensures a == b
  {
    var i, j := TrimmedBounds(s, space, a);
    var m, n := TrimmedBounds(s, space, b);
    OneBounds(s, space, i, j, m, n);
  }

  lemma TrimmedBounds(s: string, space: char -> bool, t: string) returns (i: nat, j: nat)
    requires IsTrimmed(s, space, t)
    ensures Bounds(s, space, i, j) && t == s[i..j]
  {
    i, j :| Bounds(s, space, i, j) && t == s[i..j];
  }

  /** Pasting this text into this client gives this result. */
  ghost predicate PastesTo<D>(client: Client, codec: Codec<D>, space: char -> bool, s: string, r: Decoded<D>) {
    exists t :: IsTrimmed(s, space, t) &&
      if !("jsi1:" <= t) then r == Refused(NoPrefix)
      else
        match DecodeText(client, t[5..])
        case None => r == Refused(NotBase64)
        case Some(data) =>
          match codec.inflate(data) { case None => r == Refused(BadPayload) case Some(desc) => r == Decoded(desc) }
  }

  lemma PasteExactly<D>(client: Client, codec: Codec<D>, space: char -> bool, s: string, r: Decoded<D>)
    ensures DecodePayload(client, codec, space, s) == r <==> PastesTo(client, codec, space, s, r)
  {
    hide IsTrimmed, RawUrlDecode, UrlDecode, TrimLeft, TrimRight;
    TrimsTo(s, space);
    forall a, b | IsTrimmed(s, space, a) && IsTrimmed(s, space, b)
      ensures a == b
    {
      OneTrimmed(s, space, a, b);
    }
  }
}
