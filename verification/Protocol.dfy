/** TP/1 messages, limits and file names (internal/protocol). */
module Protocol {

  const VERSION := 1
  const CHUNK_SIZE := 16384
  const MAX_FILES := 1024
  const MAX_NAME_BYTES := 255
  const MAX_FILE_SIZE := 0x1F_FFFF_FFFF_FFFF // 2^53 - 1

  type Byte = b: int | 0 <= b < 256
  type Bytes = seq<Byte>

  datatype Option<+T> = None | Some(value: T)

  datatype FileMeta = FileMeta(id: int, name: string, size: int)

  datatype AckStatus = StatusOk | StatusHashMismatch | StatusOther(text: string)

  datatype ErrorCode = CodeProtocol | CodeVersion

  /** One decoded control message. Reasons, error texts and the app string are not kept. */
  datatype Control =
    | Hello(v: int)
    | Manifest(files: seq<FileMeta>)
    | Accept(ids: seq<int>)
    | Reject
    | FileStart(id: int)
    | FileEnd(id: int, sha256: string)
    | FileAck(id: int, status: AckStatus, bytes: int)
    | Done
    | Cancel
    | Error(code: ErrorCode)
    | Unknown(kind: string)

  /** One data-channel message: a binary chunk, a control message, or text that does not decode. */
  datatype Msg = Binary(data: Bytes) | Text(control: Control) | Malformed

  predicate IsUnknown(m: Msg) {
    m.Text? && m.control.Unknown?
  }

  /** The messages that end the peer's session from any wait loop. */
  predicate IsTerminal(m: Msg) {
    m.Text? && (m.control.Cancel? || m.control.Error?)
  }

  /** The messages that announce that the side sending them is giving up. */
  predicate IsFinal(m: Msg) {
    IsTerminal(m) || m == Text(Reject)
  }

  predicate ValidSize(size: int) {
    0 <= size <= MAX_FILE_SIZE
  }

  /** Hex digits compare without case; no other rune folds onto one of [0-9a-f]. */
  function Fold(c: char): char {
    if 'A' <= c <= 'Z' then ((c as int) + 32) as char else c
  }

  predicate EqualFold(a: string, b: string) {
    |a| == |b| && forall i | 0 <= i < |a| :: Fold(a[i]) == Fold(b[i])
  }

  predicate LowerHex(c: char) {
    '0' <= c <= '9' || 'a' <= c <= 'f'
  }

  predicate UpperOf(d: char, c: char) {
    'a' <= d <= 'f' && 'A' <= c <= 'F' && d as int - 'a' as int == c as int - 'A' as int
  }

  /** A printed digest matches the texts that differ from it in the case of its letters, and no others. */
  lemma EqualFoldExactly(digest: string, text: string)
    requires forall i | 0 <= i < |digest| :: LowerHex(digest[i])
    ensures EqualFold(digest, text) <==>
              (&& |text| == |digest|
               && forall i | 0 <= i < |digest| :: text[i] == digest[i] || UpperOf(digest[i], text[i]))
  {
    if |text| == |digest| {
      forall i | 0 <= i < |digest|
        ensures Fold(digest[i]) == Fold(text[i]) <==> text[i] == digest[i] || UpperOf(digest[i], text[i])
      {
        FoldExactly(digest[i], text[i]);
      }
    }
  }

  lemma FoldExactly(d: char, c: char)
    requires LowerHex(d)
    ensures Fold(d) == Fold(c) <==> c == d || UpperOf(d, c)
  {
  }

  function Concat(chunks: seq<Bytes>): Bytes {
    if chunks == [] then [] else chunks[0] + Concat(chunks[1..])
  }

  lemma EmptyOrInhabited<T>(s: seq<T>)
    ensures s == [] || exists x :: x in s
  {
    if s != [] {
      var x := s[0];
      assert x in s;
    }
  }

  lemma NoElements<T>(s: seq<T>)
    requires forall x :: x !in s
    ensures s == []
  {
    EmptyOrInhabited(s);
  }

  // ----- File names ---------------------------------------------------------------------------

  datatype NameResult = NameOk(name: string) | NameNul | NameInvalid | NameTooLong

  predicate IsSeparator(c: char) {
    c == '/' || c == '\\'
  }

  /** What follows the last separator. */
  function BaseName(name: string): (base: string)
    ensures |base| <= |name| && base == name[|name| - |base|..]
    ensures forall c | c in base :: !IsSeparator(c)
    ensures |base| < |name| ==> IsSeparator(name[|name| - |base| - 1])
  {
    if name == [] then []
    else if IsSeparator(name[|name| - 1]) then []
    else
      var front := name[..|name| - 1];
      var base := BaseName(front);
      base + [name[|name| - 1]]
  }

  predicate StartsWithTwoDots(s: string) {
    |s| >= 2 && s[0] == '.' && s[1] == '.'
  }

  function LeadingDots(s: string): (n: nat)
    ensures n <= |s|
    ensures forall i | 0 <= i < n :: s[i] == '.'
    ensures n < |s| ==> s[n] != '.'
  {
    if s == [] || s[0] != '.' then 0 else 1 + LeadingDots(s[1..])
  }

  function Collapse(base: string): string {
    var dots := LeadingDots(base);
    if dots > 1 then "." + base[dots..] else base
  }

  function CheckBase(base: string): NameResult {
    if base == "" || base == "." || base == ".." then NameInvalid
    else if |base| > MAX_NAME_BYTES then NameTooLong
    else NameOk(base)
  }

  function Sanitize(name: string): NameResult {
    if '\0' in name then NameNul else CheckBase(Collapse(BaseName(name)))
  }

  /** The browser's version does not collapse leading dots. */
  function BrowserSanitize(name: string): NameResult {
    if '\0' in name then NameNul else CheckBase(BaseName(name))
  }

  /** A name that can only denote an entry of the directory it is joined to. */
  predicate SafeName(s: string) {
    && s != "" && s != "."
    && !StartsWithTwoDots(s)
    && |s| <= MAX_NAME_BYTES
    && forall c | c in s :: !IsSeparator(c) && c != '\0'
  }

  lemma BaseNameOfPlain(s: string)
    requires forall c | c in s :: !IsSeparator(c)
    ensures BaseName(s) == s
  {
    assert |BaseName(s)| == |s|;
  }

  lemma CollapseKeeps(base: string)
    ensures forall c | c in Collapse(base) :: c in base
    ensures !StartsWithTwoDots(Collapse(base))
    ensures LeadingDots(Collapse(base)) <= 1
    ensures Collapse(base) == base <==> !StartsWithTwoDots(base)
  {
    var dots := LeadingDots(base);
    if dots > 1 {
      assert base[0] == '.' && base[1] == '.';
      var c := Collapse(base);
      assert c[1..] == base[dots..];
      assert |c| < |base|;
    }
    var c := Collapse(base);
    if StartsWithTwoDots(base) {
      assert LeadingDots(base) != 0;
      assert LeadingDots(base) != 1;
    }
  }

  lemma CheckBaseSafe(base: string)
    requires !StartsWithTwoDots(base)
    requires forall c | c in base :: !IsSeparator(c) && c != '\0'
    ensures CheckBase(base).NameOk? <==> SafeName(base)
    ensures SafeName(base) ==> CheckBase(base) == NameOk(base)
  {
  }

  lemma BaseNameIsSuffix(name: string)
    ensures forall c | c in BaseName(name) :: c in name
  {
  }

  /** A name is either refused or turned into a safe one. */
  lemma SanitizeSafe(name: string)
    requires Sanitize(name).NameOk?
    ensures SafeName(Sanitize(name).name)
  {
    CollapseKeeps(BaseName(name));
    BaseNameIsSuffix(name);
    CheckBaseSafe(Collapse(BaseName(name)));
  }

  /** The safe names are exactly the ones left as they are. */
  lemma SanitizeFixes(name: string)
    ensures Sanitize(name) == NameOk(name) <==> SafeName(name)
  {
    if SafeName(name) {
      BaseNameOfPlain(name);
      CollapseKeeps(name);
      CheckBaseSafe(name);
    } else if Sanitize(name).NameOk? {
      SanitizeSafe(name);
    }
  }

  /** The receiver, sanitizing again, gets the very name the sender put on the wire. */
  lemma SanitizeIdempotent(name: string)
    requires Sanitize(name).NameOk?
    ensures Sanitize(Sanitize(name).name) == Sanitize(name)
  {
    SanitizeSafe(name);
    SanitizeFixes(Sanitize(name).name);
  }

  /** Nothing, or a path that ends in a separator. */
  predicate Directories(prefix: string) {
    prefix == "" || IsSeparator(prefix[|prefix| - 1])
  }

  predicate PlainPart(s: string) {
    forall c | c in s :: !IsSeparator(c)
  }

  function Dots(k: nat): (s: string)
    ensures |s| == k && forall i | 0 <= i < k :: s[i] == '.'
  {
    seq(k, i => '.')
  }

  lemma NulIsRefused(name: string)
    ensures Sanitize(name) == NameNul <==> '\0' in name
  {
  }

  lemma BaseAfter(prefix: string, base: string)
    requires Directories(prefix) && PlainPart(base)
    ensures BaseName(prefix + base) == base
  {
    var name := prefix + base;
    forall i | |prefix| <= i < |name|
      ensures !IsSeparator(name[i])
    {
      assert name[i] == base[i - |prefix|] && base[i - |prefix|] in base;
    }
    BaseNameUnique(name, |prefix|);
    assert name[|prefix|..] == base;
  }

  /** Directories are dropped; what is left is kept as it is, or refused as no name or as too long. */
  lemma SanitizeKeepsBase(prefix: string, base: string)
    requires Directories(prefix) && PlainPart(base) && '\0' !in prefix + base && !StartsWithTwoDots(base)
    ensures Sanitize(prefix + base)
         == if base == "" || base == "." then NameInvalid else if |base| > 255 then NameTooLong else NameOk(base)
  {
    BaseAfter(prefix, base);
    CollapseKeeps(base);
    hide BaseName, Collapse;
  }

  lemma LeadingDotsOf(k: nat, rest: string)
    requires rest == "" || rest[0] != '.'
    ensures LeadingDots(Dots(k) + rest) == k
  {
    var s := Dots(k) + rest;
    var n := LeadingDots(s);
    assert forall i | 0 <= i < k :: s[i] == '.';
    assert rest != "" ==> s[k] == rest[0];
    hide LeadingDots;
  }

  /** Several leading dots become one; with nothing behind them there is no name. */
  lemma SanitizeCollapses(prefix: string, k: nat, rest: string)
    requires Directories(prefix) && k >= 2 && PlainPart(rest) && '\0' !in prefix + (Dots(k) + rest)
    requires rest == "" || rest[0] != '.'
    ensures Sanitize(prefix + (Dots(k) + rest))
         == if rest == "" then NameInvalid else if |rest| + 1 > 255 then NameTooLong else NameOk("." + rest)
  {
    hide BaseName, LeadingDots, Collapse, Dots, CheckBase, PlainPart;
    DotsPlain(k, rest);
    BaseAfter(prefix, Dots(k) + rest);
    DotsCollapse(k, rest);
    CheckDotted(rest);
  }

  lemma DotsPlain(k: nat, rest: string)
    requires PlainPart(rest)
    ensures PlainPart(Dots(k) + rest)
  {
    var s := Dots(k) + rest;
    forall c | c in s
      ensures !IsSeparator(c)
    {
      var i :| 0 <= i < |s| && s[i] == c;
      assert i >= k ==> rest[i - k] == c;
    }
  }

  lemma DotsCollapse(k: nat, rest: string)
    requires k >= 2 && (rest == "" || rest[0] != '.')
    ensures Collapse(Dots(k) + rest) == "." + rest
  {
    LeadingDotsOf(k, rest);
    hide LeadingDots;
    assert (Dots(k) + rest)[k..] == rest;
  }

  lemma CheckDotted(rest: string)
    requires rest == "" || rest[0] != '.'
    ensures CheckBase("." + rest)
         == if rest == "" then NameInvalid else if |rest| + 1 > 255 then NameTooLong else NameOk("." + rest)
  {
    if rest != "" {
      assert ("." + rest)[1] == rest[0];
    }
  }

  /** The browser drops directories and keeps what is left, leading dots included, or refuses it. */
  lemma BrowserKeepsBase(prefix: string, base: string)
    requires Directories(prefix) && PlainPart(base)
    ensures BrowserSanitize(prefix + base)
         == if '\0' in prefix + base then NameNul
            else if base == "" || base == "." || base == ".." then NameInvalid
            else if |base| > 255 then NameTooLong
            else NameOk(base)
  {
    BaseAfter(prefix, base);
    hide BaseName;
  }

  lemma CollapseTwoDots(base: string)
    requires StartsWithTwoDots(base)
    ensures LeadingDots(base) >= 2
    ensures |Collapse(base)| == |base| - LeadingDots(base) + 1
    ensures |base| == 2 ==> Collapse(base) == "."
  {
    assert LeadingDots(base) != 0 && LeadingDots(base) != 1;
  }

  lemma CheckAfterCollapse(base: string, shorter: string)
    requires StartsWithTwoDots(base) && |shorter| < |base| && |shorter| > 0
    requires |base| == 2 ==> shorter == "."
    ensures CheckBase(base) == CheckBase(shorter) <==> base == ".." || |shorter| > MAX_NAME_BYTES
  {
    assert base != "" && base != ".";
    assert |base| == 2 ==> base == "..";
    assert shorter != base;
  }

  /**
   * The two clients agree on a name exactly when no collapsing is at stake, or both refuse it:
   * for the bare ".." and for a name that stays too long after collapsing.
   */
  lemma ClientsAgreeOnName(name: string)
    ensures BrowserSanitize(name) == Sanitize(name)
       <==> || '\0' in name
            || BaseName(name) == ".."
            || !StartsWithTwoDots(BaseName(name))
            || |BaseName(name)| - LeadingDots(BaseName(name)) + 1 > MAX_NAME_BYTES
  {
    hide LeadingDots, CheckBase, Collapse;
    if StartsWithTwoDots(BaseName(name)) {
      CollapseTwoDots(BaseName(name));
      CheckAfterCollapse(BaseName(name), Collapse(BaseName(name)));
    } else {
      CollapseKeeps(BaseName(name));
    }
  }

  /** A name on which they differ: the browser keeps "..a", the Go client stores ".a". */
  lemma ClientsDisagree()
    ensures BrowserSanitize("..a") == NameOk("..a") && Sanitize("..a") == NameOk(".a")
  {
    hide BaseName, LeadingDots, CheckBase;
    PlainBase("..a");
    DropsOneDot("..a", ".a");
    PlainName("..a");
    PlainName(".a");
  }

  lemma PlainBase(s: string)
    requires forall i | 0 <= i < |s| :: !IsSeparator(s[i]) && s[i] != '\0'
    ensures BaseName(s) == s && '\0' !in s
  {
    BaseNameOfPlain(s);
  }

  lemma PlainName(s: string)
    requires 1 < |s| <= 3 && s[|s| - 1] != '.'
    ensures CheckBase(s) == NameOk(s)
  {
  }

  lemma DropsOneDot(s: string, shorter: string)
    requires |s| == 3 && s[0] == s[1] == '.' != s[2] && shorter == s[1..]
    ensures Collapse(s) == shorter
  {
    TwoLeadingDots(s);
  }

  lemma TwoLeadingDots(s: string)
    requires |s| == 3 && s[0] == s[1] == '.' != s[2]
    ensures LeadingDots(s) == 2
  {
    var n := LeadingDots(s);
    hide LeadingDots;
    assert n != 0 && n != 1;
    assert n != 3;
  }

  /** SanitizeName as written: find the base, count dots, rebind the base. */
  method SanitizeName(name: string) returns (r: NameResult)
    ensures r == Sanitize(name)
  {
    if '\0' in name {
      return NameNul;
    }
    hide BaseName, LeadingDots;
    var base := FindBase(name);
    var dots := CountDots(base);
    if dots > 1 {
      base := "." + base[dots..];
    }
    if base == "" || base == "." || base == ".." {
      return NameInvalid;
    }
    if |base| > MAX_NAME_BYTES {
      return NameTooLong;
    }
    return NameOk(base);
  }

  /** LastIndexAny of the separators, and what follows. */
  method FindBase(name: string) returns (base: string)
    ensures base == BaseName(name)
  {
    hide BaseName;
    var cut := |name|;
    while cut > 0 && !IsSeparator(name[cut - 1])
      invariant 0 <= cut <= |name|
      invariant forall i | cut <= i < |name| :: !IsSeparator(name[i])
    {
      cut := cut - 1;
    }
    BaseNameUnique(name, cut);
    return name[cut..];
  }

  method CountDots(base: string) returns (dots: nat)
    ensures dots == LeadingDots(base)
  {
    dots := 0;
    while dots < |base| && base[dots] == '.'
      invariant 0 <= dots <= |base|
      invariant LeadingDots(base) == dots + LeadingDots(base[dots..])
    {
      assert base[dots..][1..] == base[dots + 1..];
      dots := dots + 1;
    }
  }

  lemma BaseNameUnique(name: string, cut: nat)
    requires cut <= |name|
    requires forall i | cut <= i < |name| :: !IsSeparator(name[i])
    requires cut > 0 ==> IsSeparator(name[cut - 1])
    ensures BaseName(name) == name[cut..]
  {
    var base := BaseName(name);
    var at := |name| - |base|;
    assert at == cut;
  }
}
