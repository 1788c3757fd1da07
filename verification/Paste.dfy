/**
 * The QP/1 paste blob: "jsi1:" and unpadded base64url (section 5 of RFC 4648), as the Go client's library
 * encoding and as the browser client's detour over padded base64 (paste.go, paste.ts).
 */
module Paste {
  import opened Protocol
  import opened Frames

  type Sextet = v: int | 0 <= v < 64

  const PREFIX := "jsi1:"

  // ----- Bytes and six-bit groups -----------------------------------------------------------------

  function Sextets(data: Bytes): (v: seq<Sextet>)
    ensures |v| == (4 * |data| + 2) / 3
  {
    if |data| == 0 then []
    else if |data| == 1 then [data[0] / 4, data[0] % 4 * 16]
    else if |data| == 2 then [data[0] / 4, data[0] % 4 * 16 + data[1] / 16, data[1] % 16 * 4]
    else
      [data[0] / 4, data[0] % 4 * 16 + data[1] / 16, data[1] % 16 * 4 + data[2] / 64, data[2] % 64]
      + Sextets(data[3..])
  }

  /** The bits of an incomplete byte at the end are dropped; a single left-over group is an error. */
  function Octets(v: seq<Sextet>): Option<Bytes> {
    if |v| == 0 then Some([])
    else if |v| == 1 then None
    else
      var first := (v[0] as int) * 4 + v[1] / 16;
      if |v| == 2 then Some([first])
      else
        var second := (v[1] as int) % 16 * 16 + v[2] / 4;
        if |v| == 3 then Some([first, second])
        else
          var rest := Octets(v[4..]);
          if rest.None? then None else Some([first, second, (v[2] as int) % 4 * 64 + v[3]] + rest.value)
  }

  lemma {:induction false} OctetsOfSextets(data: Bytes)
    ensures Octets(Sextets(data)) == Some(data)
  {
    var v := Sextets(data);
    if |data| >= 3 {
      OctetsOfSextets(data[3..]);
      assert v[4..] == Sextets(data[3..]);
      GroupReadsBack(data[0], data[1], data[2]);
      assert Octets(v) == Some([data[0], data[1], data[2]] + data[3..]);
      assert data == [data[0], data[1], data[2]] + data[3..];
    } else if |data| == 2 {
      GroupReadsBack(data[0], data[1], 0);
      assert data == [data[0], data[1]];
    } else if |data| == 1 {
      GroupReadsBack(data[0], 0, 0);
      assert data == [data[0]];
    }
  }

  lemma GroupReadsBack(a: Byte, b: Byte, c: Byte)
    ensures a / 4 * 4 + (a % 4 * 16 + b / 16) / 16 == a
    ensures (a % 4 * 16 + b / 16) % 16 * 16 + (b % 16 * 4 + c / 64) / 4 == b
    ensures (b % 16 * 4 + c / 64) % 4 * 64 + c % 64 == c
    ensures a % 4 * 16 / 16 == a % 4 && b % 16 * 4 / 4 == b % 16
  {
  }

  // ----- Alphabets --------------------------------------------------------------------------------

  function CharOf(v: Sextet, url: bool): char {
    if v < 26 then (('A' as int) + v) as char
    else if v < 52 then (('a' as int) + v - 26) as char
    else if v < 62 then (('0' as int) + v - 52) as char
    else if v == 62 then (if url then '-' else '+')
    else (if url then '_' else '/')
  }

  function ValueOf(c: char, url: bool): Option<Sextet> {
    if 'A' <= c <= 'Z' then Some(c as int - 'A' as int)
    else if 'a' <= c <= 'z' then Some(c as int - 'a' as int + 26)
    else if '0' <= c <= '9' then Some(c as int - '0' as int + 52)
    else if c == (if url then '-' else '+') then Some(62)
    else if c == (if url then '_' else '/') then Some(63)
    else None
  }

  lemma CharsReadBack(v: Sextet, url: bool)
    ensures ValueOf(CharOf(v, url), url) == Some(v)
    ensures CharOf(v, url) != '=' && CharOf(v, url) > ' '
  {
  }

  function Chars(v: seq<Sextet>, url: bool): (s: string)
    ensures |s| == |v|
  {
    seq(|v|, i requires 0 <= i < |v| => CharOf(v[i], url))
  }

  function Values(s: string, url: bool): (r: Option<seq<Sextet>>)
    ensures r.Some? ==> |r.value| == |s|
  {
    if s == [] then Some([])
    else
      var v, rest := ValueOf(s[0], url), Values(s[1..], url);
      if v.None? || rest.None? then None else Some([v.value] + rest.value)
  }

  lemma {:induction false} ValuesOfChars(v: seq<Sextet>, url: bool)
    ensures Values(Chars(v, url), url) == Some(v)
  {
    if v != [] {
      CharsReadBack(v[0], url);
      assert Chars(v, url)[1..] == Chars(v[1..], url);
      ValuesOfChars(v[1..], url);
      assert [v[0]] + v[1..] == v;
    } else {
      assert Chars(v, url) == [];
    }
  }

  /** Text reads as groups exactly when every character does, each on its own. */
  lemma {:induction false} ValuesAre(s: string, url: bool)
    ensures Values(s, url).Some? <==> forall i | 0 <= i < |s| :: ValueOf(s[i], url).Some?
    ensures Values(s, url).Some? ==> forall i | 0 <= i < |s| :: ValueOf(s[i], url) == Some(Values(s, url).value[i])
  {
    hide ValueOf;
    if s != [] {
      ValuesAre(s[1..], url);
      assert forall i | 0 < i < |s| :: s[i] == s[1..][i - 1];
      if Values(s[1..], url).Some? && ValueOf(s[0], url).Some? {
        assert Values(s, url).value == [ValueOf(s[0], url).value] + Values(s[1..], url).value;
      } else if ValueOf(s[0], url).Some? {
        var k :| 0 <= k < |s[1..]| && ValueOf(s[1..][k], url).None?;
        assert s[k + 1] == s[1..][k];
      }
    }
  }

  // ----- Dropping characters ----------------------------------------------------------------------

  predicate Newline(c: char) {
    c == '\r' || c == '\n'
  }

  /** What atob skips. */
  predicate AsciiSpace(c: char) {
    c == ' ' || c == '\t' || c == '\n' || c == '\r' || c == '\U{000C}'
  }

  function Without(s: string, drop: char -> bool): (r: string)
    ensures |r| <= |s|
    ensures forall i | 0 <= i < |r| :: !drop(r[i])
  {
    if s == [] then []
    else (if drop(s[0]) then [] else [s[0]]) + Without(s[1..], drop)
  }

  lemma {:induction false} WithoutNone(s: string, drop: char -> bool)
    requires forall i | 0 <= i < |s| :: !drop(s[i])
    ensures Without(s, drop) == s
  {
    if s != [] {
      WithoutNone(s[1..], drop);
    }
  }

  lemma {:induction false} WithoutConcat(a: string, b: string, drop: char -> bool)
    ensures Without(a + b, drop) == Without(a, drop) + Without(b, drop)
  {
    if a == [] {
      assert a + b == b;
    } else {
      assert (a + b)[1..] == a[1..] + b;
      WithoutConcat(a[1..], b, drop);
    }
  }

  /** Dropping more, where there is no more to drop, is dropping the same. */
  lemma {:induction false} WithoutSame(s: string, a: char -> bool, b: char -> bool)
    requires forall i | 0 <= i < |s| :: a(s[i]) <==> b(s[i])
    ensures Without(s, a) == Without(s, b)
  {
    if s != [] {
      WithoutSame(s[1..], a, b);
    }
  }

  /** A character that stays is there to be found. */
  lemma {:induction false} WithoutKeeps(s: string, drop: char -> bool, i: nat)
    requires i < |s| && !drop(s[i])
    ensures s[i] in Without(s, drop)
  {
    if i > 0 {
      WithoutKeeps(s[1..], drop, i - 1);
    }
  }

  // ----- The Go client: base64.RawURLEncoding -----------------------------------------------------

  function RawUrl(data: Bytes): string {
    Chars(Sextets(data), true)
  }

  /** DecodeString skips line ends and nothing else. */
  function RawUrlDecode(s: string): Option<Bytes> {
    var v := Values(Without(s, Newline), true);
    if v.None? then None else Octets(v.value)
  }

  lemma {:induction false} LoneGroup(v: seq<Sextet>)
    ensures Octets(v).Some? <==> |v| % 4 != 1
  {
    if |v| >= 4 {
      LoneGroup(v[4..]);
    }
  }

  lemma BlobIsDense(v: seq<Sextet>)
    ensures Without(Chars(v, true), Newline) == Chars(v, true)
    ensures Without(Chars(v, true), AsciiSpace) == Chars(v, true)
  {
    forall i | 0 <= i < |v|
      ensures !AsciiSpace(Chars(v, true)[i])
    {
      CharsReadBack(v[i], true);
    }
    hide CharOf;
    WithoutNone(Chars(v, true), Newline);
    WithoutNone(Chars(v, true), AsciiSpace);
  }

  lemma RawUrlDecodes(v: seq<Sextet>)
    ensures RawUrlDecode(Chars(v, true)) == Octets(v)
  {
    hide CharOf, ValueOf, Octets;
    BlobIsDense(v);
    ValuesOfChars(v, true);
  }

  lemma RawUrlRoundTrip(data: Bytes)
    ensures RawUrlDecode(RawUrl(data)) == Some(data)
  {
    hide RawUrlDecode, Octets;
    RawUrlDecodes(Sextets(data));
    OctetsOfSextets(data);
  }

  // ----- The browser client: btoa and atob ----------------------------------------------------------

  function Repeat(c: char, n: nat): (s: string)
    ensures |s| == n && forall i | 0 <= i < n :: s[i] == c
  {
    seq(n, i => c)
  }

  /** btoa: the standard alphabet, padded to a multiple of four. */
  function Btoa(data: Bytes): (s: string)
    ensures |s| % 4 == 0
  {
    var chars := Chars(Sextets(data), false);
    chars + Repeat('=', (4 - |chars| % 4) % 4)
  }

  /** atob: white space is skipped, and at most two '=' may complete the last group of four. */
  function Atob(s: string): Option<Bytes> {
    DecodeStandard(Unpad(Without(s, AsciiSpace)))
  }

  function Unpad(s: string): string {
    if |s| > 0 && |s| % 4 == 0 && s[|s| - 1] == '=' then
      var once := s[..|s| - 1];
      if once[|once| - 1] == '=' then once[..|once| - 1] else once
    else s
  }

  function Replace(s: string, from: char, to: char): (r: string)
    ensures |r| == |s|
  {
    seq(|s|, i requires 0 <= i < |s| => if s[i] == from then to else s[i])
  }

  function StripTrailing(s: string, c: char): string {
    if s != [] && s[|s| - 1] == c then StripTrailing(s[..|s| - 1], c) else s
  }

  /** base64url: btoa, the two replacements, then the padding off. */
  method Base64Url(data: Bytes) returns (s: string)
    ensures s == RawUrl(data)
  {
    var binary: Bytes := [];
    for i := 0 to |data|
      invariant binary == data[..i]
    {
      binary := binary + [data[i]];
    }
    assert data[..|data|] == data;
    var url := Replace(Replace(Btoa(binary), '+', '-'), '/', '_');
    UrlCharsOfBtoa(data);
    s := StripTrailing(url, '=');
    NoPadding(Sextets(data));
    StripsPadding(RawUrl(data), (4 - |Sextets(data)| % 4) % 4);
  }

  lemma NoPadding(v: seq<Sextet>)
    ensures forall i | 0 <= i < |v| :: Chars(v, true)[i] != '='
  {
    forall i | 0 <= i < |v|
      ensures Chars(v, true)[i] != '='
    {
      CharsReadBack(v[i], true);
    }
  }

  lemma UrlChar(v: Sextet)
    ensures CharOf(v, true)
         == (var c := if CharOf(v, false) == '+' then '-' else CharOf(v, false); if c == '/' then '_' else c)
  {
  }

  lemma UrlCharsOfBtoa(data: Bytes)
    ensures Replace(Replace(Btoa(data), '+', '-'), '/', '_')
         == RawUrl(data) + Repeat('=', (4 - |Sextets(data)| % 4) % 4)
  {
    hide CharOf, Sextets;
    var v := Sextets(data);
    forall i | 0 <= i < |v|
      ensures Replace(Replace(Btoa(data), '+', '-'), '/', '_')[i] == CharOf(v[i], true)
    {
      UrlChar(v[i]);
    }
  }

  lemma {:induction false} StripsPadding(chars: string, n: nat)
    requires forall i | 0 <= i < |chars| :: chars[i] != '='
    ensures StripTrailing(chars + Repeat('=', n), '=') == chars
  {
    if n == 0 {
      assert chars + Repeat('=', 0) == chars;
    } else {
      assert (chars + Repeat('=', n))[..|chars| + n - 1] == chars + Repeat('=', n - 1);
      StripsPadding(chars, n - 1);
    }
  }

  function PadCount(n: nat): nat {
    (4 - n % 4) % 4
  }

  function Padded(s: string): string {
    s + Repeat('=', PadCount(|s|))
  }

  /** The two replacements on the way back. */
  function Standard(s: string): (r: string)
    ensures |r| == |s|
  {
    Replace(Replace(s, '-', '+'), '_', '/')
  }

  /** What base64urlDecode computes. */
  function UrlDecode(s: string): Option<Bytes> {
    Atob(Standard(Padded(s)))
  }

  /** base64urlDecode: padding on, the replacements back, atob, and a byte array filled in a loop. */
  method Base64UrlDecode(s: string) returns (r: Option<Bytes>)
    ensures r == UrlDecode(s)
  {
    var padded := s + Repeat('=', (4 - |s| % 4) % 4);
    var binary := Atob(Replace(Replace(padded, '-', '+'), '_', '/'));
    if binary.None? {
      return None;
    }
    var bytes := new Byte[|binary.value|](i => 0);
    for i := 0 to |binary.value|
      invariant bytes[..i] == binary.value[..i]
    {
      bytes[i] := binary.value[i];
    }
    assert bytes[..] == bytes[..|binary.value|] == binary.value;
    return Some(bytes[..]);
  }

  // ----- When the two decoders agree ------------------------------------------------------------------

  function StandardChar(c: char): char {
    if c == '-' then '+' else if c == '_' then '/' else c
  }

  lemma StandardAt(s: string, i: nat)
    requires i < |s|
    ensures Standard(s)[i] == StandardChar(s[i])
  {
  }

  /** A character that the browser can read, after the replacements. */
  predicate Readable(c: char) {
    ValueOf(c, true).Some? || c == '+' || c == '/'
  }

  lemma ReadsStandard(c: char)
    ensures ValueOf(StandardChar(c), false).Some? <==> Readable(c)
    ensures ValueOf(c, true).Some? ==> ValueOf(StandardChar(c), false) == ValueOf(c, true)
    ensures AsciiSpace(StandardChar(c)) <==> AsciiSpace(c)
    ensures StandardChar(c) == '=' <==> c == '='
    ensures AsciiSpace(c) || c == '=' ==> !Readable(c)
  {
  }

  /** What atob is left with of a text: white space dropped, padding added by the full length and taken off again. */
  function Remains(s: string): string {
    Unpad(Without(s, AsciiSpace) + Repeat('=', PadCount(|s|)))
  }

  lemma {:induction false} WithoutStandard(s: string)
    ensures Without(Standard(s), AsciiSpace) == Standard(Without(s, AsciiSpace))
  {
    hide AsciiSpace, StandardChar, ValueOf, Readable;
    if s != [] {
      WithoutStandard(s[1..]);
      ReadsStandard(s[0]);
      StandardAt(s, 0);
      StandardTail(s);
      StandardConcat([s[0]], Without(s[1..], AsciiSpace));
    }
  }

  lemma StandardTail(s: string)
    requires s != []
    ensures Standard(s)[1..] == Standard(s[1..]) && Standard([s[0]]) == [Standard(s)[0]]
  {
  }

  lemma StandardConcat(a: string, b: string)
    ensures Standard(a + b) == Standard(a) + Standard(b)
  {
  }

  lemma UnpadStandard(s: string)
    ensures Unpad(Standard(s)) == Standard(Unpad(s))
  {
    hide StandardChar, ValueOf, Readable, AsciiSpace;
    if |s| > 0 {
      StandardAt(s, |s| - 1);
      ReadsStandard(s[|s| - 1]);
      StandardFront(s);
    }
    if |s| > 1 {
      StandardAt(s, |s| - 2);
      ReadsStandard(s[|s| - 2]);
      StandardFront(s[..|s| - 1]);
    }
    hide Standard;
  }

  lemma StandardFront(s: string)
    requires s != []
    ensures Standard(s)[..|s| - 1] == Standard(s[..|s| - 1])
  {
  }

  function DecodeStandard(s: string): Option<Bytes> {
    var v := Values(s, false);
    if v.None? then None else Octets(v.value)
  }

  /** The browser decodes what remains. */
  lemma UrlDecodeIs(s: string)
    ensures UrlDecode(s) == DecodeStandard(Standard(Remains(s)))
  {
    var pads := Repeat('=', PadCount(|s|));
    WithoutStandard(Padded(s));
    WithoutConcat(s, pads, AsciiSpace);
    WithoutNone(pads, AsciiSpace);
    UnpadStandard(Without(s, AsciiSpace) + pads);
    hide Standard, Unpad, Without;
  }

  /** The browser reads a text exactly when it can read all that remains, and no group is left alone. */
  predicate BrowserReads(s: string) {
    && (forall i | 0 <= i < |Remains(s)| :: Readable(Remains(s)[i]))
    && |Remains(s)| % 4 != 1
  }

  lemma BrowserReadsExactly(s: string)
    ensures UrlDecode(s).Some? <==> BrowserReads(s)
  {
    UrlDecodeIs(s);
    var rest := Remains(s);
    ValuesAre(Standard(rest), false);
    hide Remains, UrlDecode, Standard, Values, Octets, Readable, ValueOf, StandardChar;
    forall i | 0 <= i < |rest|
      ensures ValueOf(Standard(rest)[i], false).Some? <==> Readable(rest[i])
    {
      StandardAt(rest, i);
      ReadsStandard(rest[i]);
    }
    var v := Values(Standard(rest), false);
    if v.Some? {
      LoneGroup(v.value);
    }
  }

  /** The Go client reads a text exactly when it is in its alphabet, line ends aside, with no group left alone. */
  predicate GoReads(s: string) {
    && (forall i | 0 <= i < |s| :: Newline(s[i]) || ValueOf(s[i], true).Some?)
    && |Without(s, Newline)| % 4 != 1
  }

  lemma GoReadsExactly(s: string)
    ensures RawUrlDecode(s).Some? <==> GoReads(s)
  {
    hide Octets, Values, ValueOf;
    var t := Without(s, Newline);
    ValuesAre(t, true);
    if Values(t, true).Some? {
      LoneGroup(Values(t, true).value);
      forall i | 0 <= i < |s| && !Newline(s[i])
        ensures ValueOf(s[i], true).Some?
      {
        WithoutKeeps(s, Newline, i);
      }
    } else if forall i | 0 <= i < |s| :: Newline(s[i]) || ValueOf(s[i], true).Some? {
      WithoutAll(s);
    }
  }

  lemma {:induction false} WithoutAll(s: string)
    requires forall i | 0 <= i < |s| :: Newline(s[i]) || ValueOf(s[i], true).Some?
    ensures forall i | 0 <= i < |Without(s, Newline)| :: ValueOf(Without(s, Newline)[i], true).Some?
  {
    hide ValueOf;
    if s != [] {
      WithoutAll(s[1..]);
    }
  }

  predicate HasPad(s: string) {
    exists i :: 0 <= i < |s| && s[i] == '='
  }

  /** Adding padding by the right length takes it off again; by any other, it stays in the way. */
  lemma UnpadBack(t: string, n: nat)
    requires |t| % 4 != 1 && |t| <= n && forall i | 0 <= i < |t| :: t[i] != '='
    ensures (n - |t|) % 4 == 0 || n % 4 == 0 ==> Unpad(t + Repeat('=', PadCount(n))) == t
    ensures (n - |t|) % 4 != 0 && n % 4 != 0 ==> HasPad(Unpad(t + Repeat('=', PadCount(n))))
  {
    hide Unpad, HasPad;
    if n % 4 == 0 {
      assert t + Repeat('=', PadCount(n)) == t;
      NoneToUnpad(t);
    } else if (n - |t|) % 4 == 0 {
      assert 1 <= PadCount(n) <= 2 && (|t| + PadCount(n)) % 4 == 0;
      hide PadCount;
      OneOrTwoPads(t, PadCount(n));
    } else {
      assert PadCount(n) > 0 && (|t| + PadCount(n)) % 4 != 0;
      hide PadCount;
      PadsStay(t, PadCount(n));
    }
  }

  lemma NoneToUnpad(t: string)
    requires forall i | 0 <= i < |t| :: t[i] != '='
    ensures Unpad(t) == t
  {
  }

  lemma OneOrTwoPads(t: string, p: nat)
    requires 1 <= p <= 2 && (|t| + p) % 4 == 0 && forall i | 0 <= i < |t| :: t[i] != '='
    ensures Unpad(t + Repeat('=', p)) == t
  {
    var u := t + Repeat('=', p);
    assert u[..|u| - 1] == t + Repeat('=', p - 1);
    assert u[..|t|] == t;
  }

  lemma PadsStay(t: string, p: nat)
    requires p > 0 && (|t| + p) % 4 != 0
    ensures HasPad(Unpad(t + Repeat('=', p)))
  {
    assert (t + Repeat('=', p))[|t|] == '=';
  }

  lemma NeverReadable(s: string)
    requires HasPad(Remains(s))
    ensures !BrowserReads(s)
  {
    hide Remains;
    var i :| 0 <= i < |Remains(s)| && Remains(s)[i] == '=';
    ReadsStandard('=');
  }

  /** On text that Go reads, the browser reads the same or, for a wrong count of line ends, nothing. */
  lemma BrowserAfterGo(s: string)
    requires GoReads(s)
    ensures var n := |Without(s, Newline)|;
      if (|s| - n) % 4 == 0 || |s| % 4 == 0 then UrlDecode(s) == RawUrlDecode(s) else UrlDecode(s) == None
  {
    hide ValueOf, Readable, AsciiSpace, Newline, Unpad, PadCount, Without, UrlDecode, Values, Octets, Repeat, HasPad, Standard;
    var t := Without(s, Newline);
    GoText(s);
    assert |t| % 4 != 1;
    UnpadBack(t, |s|);
    if (|s| - |t|) % 4 == 0 || |s| % 4 == 0 {
      assert Remains(s) == t;
      UrlDecodeIs(s);
      SameValues(t);
    } else {
      hide GoReads;
      NeverReadable(s);
      BrowserReadsExactly(s);
    }
  }

  /** A text that Go reads has no other white space than line ends, and no padding. */
  lemma GoText(s: string)
    requires GoReads(s)
    ensures Without(s, AsciiSpace) == Without(s, Newline)
    ensures var t := Without(s, Newline); forall i | 0 <= i < |t| :: t[i] != '=' && ValueOf(t[i], true).Some?
  {
    forall i | 0 <= i < |s|
      ensures AsciiSpace(s[i]) <==> Newline(s[i])
    {
      ReadsStandard(s[i]);
    }
    WithoutSame(s, AsciiSpace, Newline);
    WithoutAll(s);
    hide Without, AsciiSpace, Newline, Readable;
    var t := Without(s, Newline);
    forall i | 0 <= i < |t|
      ensures t[i] != '='
    {
      ReadsStandard(t[i]);
    }
  }

  lemma SameValues(t: string)
    requires forall i | 0 <= i < |t| :: ValueOf(t[i], true).Some?
    ensures Values(Standard(t), false) == Values(t, true)
  {
    ValuesAre(t, true);
    ValuesAre(Standard(t), false);
    hide Values, ValueOf, Standard, StandardChar;
    forall i | 0 <= i < |t|
      ensures ValueOf(Standard(t)[i], false) == ValueOf(t[i], true)
    {
      StandardAt(t, i);
      ReadsStandard(t[i]);
    }
    assert Values(Standard(t), false).value == Values(t, true).value;
  }

  predicate AgreesOn(s: string) {
    if GoReads(s) then (|s| - |Without(s, Newline)|) % 4 == 0 || |s| % 4 == 0 else !BrowserReads(s)
  }

  /**
   * On any text at all: where the Go client reads, the browser agrees exactly when the line ends come in
   * fours or the text needs no padding; where it does not, exactly when the browser cannot read it either.
   */
  lemma DecodersAgree(s: string)
    ensures UrlDecode(s) == RawUrlDecode(s) <==> AgreesOn(s)
  {
    hide UrlDecode, RawUrlDecode, BrowserReads, GoReads, Without;
    GoReadsExactly(s);
    BrowserReadsExactly(s);
    if GoReads(s) {
      BrowserAfterGo(s);
    }
  }

  /** On every sequence of six-bit groups in the common alphabet the two decoders agree. */
  lemma BrowserDecodes(v: seq<Sextet>)
    ensures UrlDecode(Chars(v, true)) == RawUrlDecode(Chars(v, true)) == Octets(v)
  {
    var s := Chars(v, true);
    RawUrlDecodes(v);
    BlobIsDense(v);
    hide RawUrlDecode, UrlDecode, CharOf, Octets;
    if |v| % 4 != 1 {
      AlphabetRead(v);
      BrowserAfterGo(s);
    } else {
      LoneGroup(v);
      OnePadStays(v);
      NeverReadable(s);
      BrowserReadsExactly(s);
    }
  }

  lemma AlphabetRead(v: seq<Sextet>)
    requires |v| % 4 != 1
    ensures GoReads(Chars(v, true))
  {
    BlobIsDense(v);
    forall i | 0 <= i < |v|
      ensures ValueOf(Chars(v, true)[i], true).Some?
    {
      CharsReadBack(v[i], true);
    }
  }

  lemma OnePadStays(v: seq<Sextet>)
    requires |v| % 4 == 1
    ensures HasPad(Remains(Chars(v, true)))
  {
    var s := Chars(v, true);
    BlobIsDense(v);
    hide CharOf, Without;
    var u := s + Repeat('=', PadCount(|s|));
    assert Unpad(u)[|s|] == '=';
  }

  /** The browser's decoder undoes the common encoding. */
  lemma UrlRoundTrip(data: Bytes)
    ensures UrlDecode(RawUrl(data)) == Some(data)
  {
    hide UrlDecode, Octets;
    BrowserDecodes(Sextets(data));
    OctetsOfSextets(data);
  }

  // ----- The blob ---------------------------------------------------------------------------------

  datatype PasteError = EncodeFailed | NoPrefix | NotBase64 | BadPayload

  datatype Decoded<+T> = Decoded(value: T) | Refused(error: PasteError)

  datatype Client = GoClient | BrowserClient

  function EncodePayload<D>(codec: Codec<D>, desc: D): Option<string> {
    var deflated := codec.deflate(desc);
    if deflated.None? then None else Some(PREFIX + RawUrl(deflated.value))
  }

  function TrimLeft(s: string, space: char -> bool): string {
    if s != [] && space(s[0]) then TrimLeft(s[1..], space) else s
  }

  function TrimRight(s: string, space: char -> bool): string {
    if s != [] && space(s[|s| - 1]) then TrimRight(s[..|s| - 1], space) else s
  }

  function DecodePayload<D>(client: Client, codec: Codec<D>, space: char -> bool, s: string): Decoded<D> {
    var trimmed := TrimRight(TrimLeft(s, space), space);
    if !(PREFIX <= trimmed) then Refused(NoPrefix)
    else
      var body := trimmed[|PREFIX|..];
      var deflated := if client.GoClient? then RawUrlDecode(body) else UrlDecode(body);
      if deflated.None? then Refused(NotBase64)
      else
        var desc := codec.inflate(deflated.value);
        if desc.None? then Refused(BadPayload) else Decoded(desc.value)
  }

  /** No letter, digit, dash, underscore or colon counts as white space. */
  ghost predicate Usable(space: char -> bool) {
    && (forall v: Sextet :: !space(CharOf(v, true)))
    && !space('j') && !space(':')
  }

  lemma {:induction false} TrimsLeft(space: char -> bool, before: string, s: string)
    requires forall i | 0 <= i < |before| :: space(before[i])
    requires s != [] && !space(s[0])
    ensures TrimLeft(before + s, space) == s
  {
    if before == [] {
      assert before + s == s;
    } else {
      assert (before + s)[1..] == before[1..] + s;
      TrimsLeft(space, before[1..], s);
    }
  }

  lemma {:induction false} TrimsRight(space: char -> bool, s: string, after: string)
    requires forall i | 0 <= i < |after| :: space(after[i])
    requires s != [] && !space(s[|s| - 1])
    ensures TrimRight(s + after, space) == s
  {
    if after == [] {
      assert s + after == s;
    } else {
      assert (s + after)[..|s + after| - 1] == s + after[..|after| - 1];
      TrimsRight(space, s, after[..|after| - 1]);
    }
  }

  /**
   * A pasted blob, with any white space around it, decodes to the description it was made from, whichever
   * of the two clients decodes it.
   */
  lemma PasteRoundTrip<D>(
    client: Client, codec: Codec<D>, space: char -> bool, desc: D, before: string, after: string)
    requires Restores(codec, desc) && Usable(space)
    requires (forall i | 0 <= i < |before| :: space(before[i])) && forall i | 0 <= i < |after| :: space(after[i])
    ensures DecodePayload(client, codec, space, before + EncodePayload(codec, desc).value + after) == Decoded(desc)
  {
    var payload := codec.deflate(desc).value;
    var blob := PREFIX + RawUrl(payload);
    LastCharNotSpace(space, payload, blob);
    hide CharOf, Sextets, RawUrlDecode, UrlDecode;
    assert before + blob + after == before + (blob + after);
    TrimsLeft(space, before, blob + after);
    TrimsRight(space, blob, after);
    assert blob[|PREFIX|..] == RawUrl(payload);
    RawUrlRoundTrip(payload);
    UrlRoundTrip(payload);
  }

  lemma LastCharNotSpace(space: char -> bool, payload: Bytes, blob: string)
    requires Usable(space) && blob == PREFIX + RawUrl(payload)
    ensures !space(blob[|blob| - 1])
  {
    hide CharOf;
    var v := Sextets(payload);
    if v != [] {
      assert blob[|blob| - 1] == CharOf(v[|v| - 1], true);
    }
  }
}
