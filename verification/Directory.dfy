/** The destination directory and the choice of a free name in it (createDest). */
module Directory {
  import opened Protocol

  /** The regular entries of one directory: name to contents. */
  type Dir = map<string, Bytes>

  const MAX_COLLISION_ATTEMPTS := 1000

  lemma Overwritten(dir: Dir, path: string, a: Bytes, b: Bytes)
    ensures dir[path := a][path := b] == dir[path := b]
  {
  }

  function Decimal(n: nat): (s: string)
    ensures |s| > 0
    ensures forall c | c in s :: '0' <= c <= '9'
  {
    var digit := [(('0' as int) + n % 10) as char];
    if n < 10 then digit else Decimal(n / 10) + digit
  }

  function Value(s: string): int {
    if s == [] then 0 else 10 * Value(s[..|s| - 1]) + (s[|s| - 1] as int - '0' as int)
  }

  /** The printed suffix can be read back, so distinct numbers print differently. */
  lemma {:induction false} DecimalReadsBack(n: nat)
    ensures Value(Decimal(n)) == n
  {
    var s := Decimal(n);
    if n >= 10 {
      DecimalReadsBack(n / 10);
      assert s[..|s| - 1] == Decimal(n / 10);
    } else {
      assert s[..|s| - 1] == [];
    }
  }

  function Candidate(name: string, i: nat): string {
    if i == 0 then name else name + "-" + Decimal(i)
  }

  lemma CandidatesDiffer(name: string, i: nat, j: nat)
    requires Candidate(name, i) == Candidate(name, j)
    ensures i == j
  {
    if i > 0 && j > 0 {
      assert Decimal(i) == Candidate(name, i)[|name| + 1..];
      assert Decimal(j) == Candidate(name, j)[|name| + 1..];
      DecimalReadsBack(i);
      DecimalReadsBack(j);
    }
  }

  predicate Free(dir: Dir, name: string, i: nat) {
    Candidate(name, i) !in dir
  }

  /** The least free suffix, if one of the allowed attempts is free. */
  ghost predicate IsDest(dir: Dir, name: string, r: Option<string>) {
    match r
    case None => forall j: nat | j < MAX_COLLISION_ATTEMPTS :: !Free(dir, name, j)
    case Some(path) =>
      exists i: nat :: i < MAX_COLLISION_ATTEMPTS && path == Candidate(name, i) && Free(dir, name, i)
        && forall j: nat | j < i :: !Free(dir, name, j)
  }

  function Search(dir: Dir, name: string, i: nat): (r: Option<string>)
    requires i <= MAX_COLLISION_ATTEMPTS
    requires forall j: nat | j < i :: !Free(dir, name, j)
    ensures IsDest(dir, name, r)
    decreases MAX_COLLISION_ATTEMPTS - i
  {
    if i == MAX_COLLISION_ATTEMPTS then None
    else if Free(dir, name, i) then Some(Candidate(name, i))
    else Search(dir, name, i + 1)
  }

  function Dest(dir: Dir, name: string): (r: Option<string>)
    ensures r.Some? ==> r.value !in dir
  {
    Search(dir, name, 0)
  }

  lemma DestIsLeast(dir: Dir, name: string)
    ensures IsDest(dir, name, Dest(dir, name))
  {
  }

  lemma DestUnique(dir: Dir, name: string, a: Option<string>, b: Option<string>)
    requires IsDest(dir, name, a) && IsDest(dir, name, b)
    ensures a == b
  {
    if a.Some? && b.Some? {
      var i: nat :| i < MAX_COLLISION_ATTEMPTS && a.value == Candidate(name, i) && Free(dir, name, i)
        && forall j: nat | j < i :: !Free(dir, name, j);
      var k: nat :| k < MAX_COLLISION_ATTEMPTS && b.value == Candidate(name, k) && Free(dir, name, k)
        && forall j: nat | j < k :: !Free(dir, name, j);
      assert i <= k && k <= i;
    }
  }

  // ----- The same on strings alone ------------------------------------------------------------------

  /** A number printed without leading zeros. */
  predicate Canonical(s: string) {
    s != [] && s[0] != '0' && forall i | 0 <= i < |s| :: '0' <= s[i] <= '9'
  }

  /** The suffixes that may be tried: "-1" to "-999". */
  predicate Suffix(s: string) {
    Canonical(s) && 1 <= Value(s) < 1000
  }

  /** The name itself if it is free, otherwise the free one of name-1 to name-999 with the least number. */
  ghost predicate LeastFree(dir: Dir, name: string, path: string) {
    && path !in dir
    && (name !in dir ==> path == name)
    && (name in dir ==> exists s :: Suffix(s) && path == name + "-" + s && TakenBelow(dir, name, Value(s)))
  }

  ghost predicate TakenBelow(dir: Dir, name: string, n: int) {
    forall t | Suffix(t) && Value(t) < n :: name + "-" + t in dir
  }

  ghost predicate AllTaken(dir: Dir, name: string) {
    name in dir && forall s | Suffix(s) :: name + "-" + s in dir
  }

  lemma {:induction false} DecimalCanonical(n: nat)
    requires n >= 1
    ensures Canonical(Decimal(n))
  {
    if n >= 10 {
      DecimalCanonical(n / 10);
    }
  }

  lemma {:induction false} ValueNonnegative(s: string)
    requires forall i | 0 <= i < |s| :: '0' <= s[i] <= '9'
    ensures Value(s) >= 0 && (s != [] && s[0] != '0' ==> Value(s) >= 1)
  {
    if s != [] {
      ValueNonnegative(s[..|s| - 1]);
    }
  }

  /** A number has one canonical form. */
  lemma {:induction false} CanonicalIsDecimal(s: string)
    requires Canonical(s)
    ensures Value(s) >= 1 && s == Decimal(Value(s))
    decreases |s|
  {
    ValueNonnegative(s);
    var front, last := s[..|s| - 1], s[|s| - 1];
    var digit := last as int - '0' as int;
    if front == [] {
      assert s == [last];
    } else {
      assert front[0] == s[0];
      CanonicalIsDecimal(front);
      assert Value(s) / 10 == Value(front) && Value(s) % 10 == digit;
      assert s == front + [last];
    }
  }

  /** The numbered candidates after the first are the name with each suffix. */
  lemma CandidateOfSuffix(name: string, s: string)
    requires Canonical(s)
    ensures Value(s) >= 1 && Candidate(name, Value(s)) == name + "-" + s
  {
    CanonicalIsDecimal(s);
  }

  lemma SuffixOfCandidate(name: string, i: nat)
    requires 1 <= i < MAX_COLLISION_ATTEMPTS
    ensures Suffix(Decimal(i)) && Value(Decimal(i)) == i && Candidate(name, i) == name + "-" + Decimal(i)
  {
    DecimalReadsBack(i);
    DecimalCanonical(i);
  }

  /** What the search finds, in terms of names. */
  lemma DestOnStrings(dir: Dir, name: string, r: Option<string>)
    requires IsDest(dir, name, r)
    ensures match r case None => AllTaken(dir, name) case Some(path) => LeastFree(dir, name, path)
  {
    hide Decimal, Value, Canonical;
    match r
    case None =>
      assert !Free(dir, name, 0);
      forall s | Suffix(s)
        ensures name + "-" + s in dir
      {
        CandidateOfSuffix(name, s);
        assert !Free(dir, name, Value(s));
      }
    case Some(path) =>
      var i: nat :| i < MAX_COLLISION_ATTEMPTS && path == Candidate(name, i) && Free(dir, name, i)
        && forall j: nat | j < i :: !Free(dir, name, j);
      if i > 0 {
        assert !Free(dir, name, 0);
        SuffixOfCandidate(name, i);
        var s := Decimal(i);
        forall t | Suffix(t) && Value(t) < i
          ensures name + "-" + t in dir
        {
          CandidateOfSuffix(name, t);
          assert !Free(dir, name, Value(t));
        }
        assert TakenBelow(dir, name, Value(s));
      }
  }

  /** The search loop of createDest. */
  method CreateDest(dir: Dir, name: string) returns (r: Option<string>)
    ensures match r case None => AllTaken(dir, name) case Some(path) => LeastFree(dir, name, path)
    ensures IsDest(dir, name, r)
    ensures r == Dest(dir, name)
  {
    for i := 0 to MAX_COLLISION_ATTEMPTS
      invariant forall j: nat | j < i :: !Free(dir, name, j)
    {
      var candidate := name;
      if i > 0 {
        candidate := name + "-" + Decimal(i);
      }
      if candidate in dir {
        continue;
      }
      assert Free(dir, name, i);
      DestIsLeast(dir, name);
      DestUnique(dir, name, Some(candidate), Dest(dir, name));
      DestOnStrings(dir, name, Some(candidate));
      return Some(candidate);
    }
    DestIsLeast(dir, name);
    DestUnique(dir, name, None, Dest(dir, name));
    DestOnStrings(dir, name, None);
    return None;
  }

  /** Which name a file gets, and when it gets none: exactly the least free one, exactly when all are taken. */
  lemma DestExactly(dir: Dir, name: string)
    ensures Dest(dir, name) == None <==> AllTaken(dir, name)
    ensures forall path :: Dest(dir, name) == Some(path) <==> LeastFree(dir, name, path)
  {
    var r := Dest(dir, name);
    DestIsLeast(dir, name);
    DestOnStrings(dir, name, r);
    hide Dest, IsDest, Canonical, Value;
    forall path | LeastFree(dir, name, path)
      ensures r == Some(path)
    {
      NotAllTaken(dir, name, path);
      LeastFreeUnique(dir, name, path, r.value);
    }
  }

  lemma NotAllTaken(dir: Dir, name: string, path: string)
    requires LeastFree(dir, name, path)
    ensures !AllTaken(dir, name)
  {
    hide Canonical, Value;
  }

  lemma LeastFreeUnique(dir: Dir, name: string, a: string, b: string)
    requires LeastFree(dir, name, a) && LeastFree(dir, name, b)
    ensures a == b
  {
    hide Value;
    if name in dir {
      var s :| Suffix(s) && a == name + "-" + s && TakenBelow(dir, name, Value(s));
      var u :| Suffix(u) && b == name + "-" + u && TakenBelow(dir, name, Value(u));
      assert Value(s) == Value(u);
      CanonicalIsDecimal(s);
      CanonicalIsDecimal(u);
    }
  }

  /** The first collision is stored under "-1". */
  lemma FirstCollision(dir: Dir, name: string)
    requires name in dir && name + "-1" !in dir
    ensures Dest(dir, name) == Some(name + "-1")
  {
    DestExactly(dir, name);
    hide Dest;
    assert "1"[..0] == [];
    assert Suffix("1");
    assert LeastFree(dir, name, name + "-1") by {
      assert name + "-" + "1" == name + "-1" && Value("1") == 1;
      assert TakenBelow(dir, name, 1);
    }
  }

  /** Distinct candidates that are all taken are that many directory entries. */
  lemma {:induction false} TakenCandidates(entries: set<string>, name: string, n: nat)
    requires forall j: nat | j < n :: Candidate(name, j) in entries
    ensures |entries| >= n
  {
    if n > 0 {
      var last := Candidate(name, n - 1);
      forall j: nat | j < n - 1
        ensures Candidate(name, j) in entries - {last}
      {
        if Candidate(name, j) == last {
          CandidatesDiffer(name, j, n - 1);
        }
      }
      TakenCandidates(entries - {last}, name, n - 1);
    }
  }

  /** With fewer than 1000 entries there is always a free name. */
  lemma SmallDirectoryHasDest(dir: Dir, name: string)
    requires |dir| < MAX_COLLISION_ATTEMPTS
    ensures Dest(dir, name).Some?
  {
    DestIsLeast(dir, name);
    if Dest(dir, name) == None {
      forall j: nat | j < MAX_COLLISION_ATTEMPTS
        ensures Candidate(name, j) in dir.Keys
      {
        assert !Free(dir, name, j);
      }
      TakenCandidates(dir.Keys, name, MAX_COLLISION_ATTEMPTS);
    }
  }
}
