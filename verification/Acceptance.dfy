/** How the two sides agree on the accepted ids: the receiver's choice, its wire form, and resolveAccept. */
module Acceptance {
  import opened Protocol

  /** What the Decide function returned. */
  datatype Decision = Refused | Chosen(ids: seq<int>)

  ghost predicate Ascending(s: seq<int>) {
    forall i, j | 0 <= i < j < |s| :: s[i] < s[j]
  }

  ghost predicate Sorted(s: seq<int>) {
    forall i, j | 0 <= i < j < |s| :: s[i] <= s[j]
  }

  predicate Distinct(s: seq<int>) {
    forall i, j | 0 <= i < j < |s| :: s[i] != s[j]
  }

  predicate InRange(s: seq<int>, n: nat) {
    forall i | 0 <= i < |s| :: 0 <= s[i] < n
  }

  // ----- Sorting (slices.Sort) ----------------------------------------------------------------

  function Insert(x: int, s: seq<int>): (r: seq<int>) {
    if s == [] then [x]
    else if x <= s[0] then [x] + s
    else [s[0]] + Insert(x, s[1..])
  }

  lemma {:induction false} InsertElements(x: int, s: seq<int>)
    ensures multiset(Insert(x, s)) == multiset{x} + multiset(s)
  {
    if s != [] && x > s[0] {
      InsertElements(x, s[1..]);
      assert s == [s[0]] + s[1..];
    }
  }

  lemma {:induction false} InsertSorted(x: int, s: seq<int>)
    requires Sorted(s)
    ensures Sorted(Insert(x, s))
  {
    if s != [] && x > s[0] {
      var tail := Insert(x, s[1..]);
      InsertSorted(x, s[1..]);
      InsertElements(x, s[1..]);
      forall i | 0 <= i < |tail|
        ensures s[0] <= tail[i]
      {
        assert tail[i] in multiset(tail);
        assert tail[i] == x || tail[i] in s[1..];
      }
    }
  }

  function Sort(s: seq<int>): (r: seq<int>)
    ensures Sorted(r)
    ensures multiset(r) == multiset(s)
  {
    if s == [] then []
    else
      assert s == [s[0]] + s[1..];
      InsertSorted(s[0], Sort(s[1..]));
      InsertElements(s[0], Sort(s[1..]));
      Insert(s[0], Sort(s[1..]))
  }

  lemma MultisetOfDistinct(s: seq<int>)
    ensures Distinct(s) <==> forall x :: multiset(s)[x] <= 1
  {
    if s != [] {
      var last := |s| - 1;
      assert s == s[..last] + [s[last]];
      MultisetOfDistinct(s[..last]);
      var x := s[last];
      assert multiset(s)[x] == multiset(s[..last])[x] + 1;
      assert x in s[..last] <==> x in multiset(s[..last]);
      if x in s[..last] {
        assert multiset(s)[x] > 1;
        var i :| 0 <= i < last && s[..last][i] == x;
        assert s[i] == s[last];
      } else if Distinct(s[..last]) {
        forall i, j | 0 <= i < j < |s|
          ensures s[i] != s[j]
        {
          if j == last {
            assert s[..last][i] == s[i];
          } else {
            assert s[..last][i] != s[..last][j];
          }
        }
        assert forall y :: multiset(s)[y] <= 1 by {
          assert forall y | y != x :: multiset(s)[y] == multiset(s[..last])[y];
        }
      } else {
        var i, j :| 0 <= i < j < last && s[..last][i] == s[..last][j];
        assert s[i] == s[j];
        var y :| multiset(s[..last])[y] > 1;
        assert multiset(s)[y] > 1;
      }
    }
  }

  lemma SortDistinct(s: seq<int>)
    ensures Distinct(s) ==> Ascending(Sort(s))
    ensures forall x :: x in s <==> x in Sort(s)
    ensures |Sort(s)| == |s|
  {
    MultisetOfDistinct(s);
    MultisetOfDistinct(Sort(s));
    assert forall x :: x in s <==> x in multiset(s);
    assert |multiset(s)| == |s| && |multiset(Sort(s))| == |Sort(s)|;
  }

  /** Ascending lists of the same elements are the same list. */
  lemma {:induction false} AscendingUnique(a: seq<int>, b: seq<int>)
    requires Ascending(a) && Ascending(b)
    requires forall x :: x in a <==> x in b
    ensures a == b
  {
    if a == [] {
      EmptyOrInhabited(b);
    } else {
      assert a[0] in b && b[0] in a;
      assert b != [] && a[0] == b[0];
      forall x
        ensures x in a[1..] <==> x in b[1..]
      {
        assert x in a <==> x == a[0] || x in a[1..];
        assert x in b <==> x == b[0] || x in b[1..];
        assert a[0] !in a[1..] && b[0] !in b[1..];
      }
      AscendingUnique(a[1..], b[1..]);
      assert a == [a[0]] + a[1..] && b == [b[0]] + b[1..];
    }
  }

  // ----- Receiver: checking and encoding the choice -----------------------------------------------

  predicate ValidChoice(ids: seq<int>, known: set<int>) {
    Distinct(ids) && forall i | 0 <= i < |ids| :: ids[i] in known
  }

  /** The loop over the returned ids with its `seen` map. */
  method CheckChoice(ids: seq<int>, known: set<int>) returns (ok: bool)
    ensures ok <==> ValidChoice(ids, known)
  {
    var seen: set<int> := {};
    for i := 0 to |ids|
      invariant forall x :: x in seen <==> x in ids[..i]
      invariant ValidChoice(ids[..i], known)
    {
      if ids[i] !in known || ids[i] in seen {
        if ids[i] in seen {
          var j :| 0 <= j < i && ids[..i][j] == ids[i];
          assert ids[j] == ids[i];
        }
        return false;
      }
      seen := seen + {ids[i]};
    }
    assert ids[..|ids|] == ids;
    return true;
  }

  /** Empty stands for the whole manifest. */
  function WireForm(ids: seq<int>, n: nat): seq<int> {
    if |ids| != n then ids else []
  }

  // ----- Sender: resolveAccept -------------------------------------------------------------------

  function UpTo(n: nat): (s: seq<int>)
    ensures |s| == n && forall i | 0 <= i < n :: s[i] == i
  {
    seq(n, i => i)
  }

  /** What an accept message asks for, out of a manifest of n files. */
  ghost predicate Resolves(wire: seq<int>, n: nat, r: Option<seq<int>>) {
    if wire == [] then r == Some(UpTo(n))
    else if !InRange(wire, n) then r == None
    else r.Some? && Ascending(r.value) && forall x :: x in r.value <==> x in wire
  }

  lemma ResolvesUnique(wire: seq<int>, n: nat, a: Option<seq<int>>, b: Option<seq<int>>)
    requires Resolves(wire, n, a) && Resolves(wire, n, b)
    ensures a == b
  {
    if wire != [] && InRange(wire, n) {
      AscendingUnique(a.value, b.value);
    }
  }

  function Dedup(s: seq<int>): (r: seq<int>)
    ensures Distinct(r)
    ensures forall x :: x in r <==> x in s
  {
    if s == [] then []
    else
      var last := s[|s| - 1];
      var front := Dedup(s[..|s| - 1]);
      assert s == s[..|s| - 1] + [last];
      if last in front then front else front + [last]
  }

  function Resolve(wire: seq<int>, n: nat): (r: Option<seq<int>>)
    ensures Resolves(wire, n, r)
  {
    if wire == [] then Some(UpTo(n))
    else if !InRange(wire, n) then None
    else
      SortDistinct(Dedup(wire));
      Some(Sort(Dedup(wire)))
  }

  /** resolveAccept as written: a `seen` map and a growing list, sorted at the end. */
  method ResolveAccept(wire: seq<int>, n: nat) returns (r: Option<seq<int>>)
    ensures Resolves(wire, n, r)
    ensures r == Resolve(wire, n)
  {
    if |wire| == 0 {
      return Some(UpTo(n));
    }
    var seen: set<int> := {};
    var ids: seq<int> := [];
    for i := 0 to |wire|
      invariant InRange(wire[..i], n)
      invariant forall x :: x in seen <==> x in ids
      invariant forall x :: x in ids <==> x in wire[..i]
      invariant Distinct(ids)
    {
      if wire[i] < 0 || wire[i] >= n {
        return None;
      }
      if wire[i] !in seen {
        seen := seen + {wire[i]};
        ids := ids + [wire[i]];
      }
      assert wire[..i + 1] == wire[..i] + [wire[i]];
    }
    assert wire[..|wire|] == wire;
    SortDistinct(ids);
    ResolvesUnique(wire, n, Some(Sort(ids)), Resolve(wire, n));
    return Some(Sort(ids));
  }

  // ----- Agreement ------------------------------------------------------------------------------

  /** Ascending ids below n leave room: the i-th is at least i and at most n - |ids| + i. */
  lemma {:induction false} AscendingBounds(ids: seq<int>, n: nat, i: nat)
    requires Ascending(ids) && InRange(ids, n) && i < |ids|
    ensures i <= ids[i] <= n - |ids| + i
  {
    AscendingLower(ids, n, i);
    AscendingUpper(ids, n, i);
  }

  lemma {:induction false} AscendingLower(ids: seq<int>, n: nat, i: nat)
    requires Ascending(ids) && InRange(ids, n) && i < |ids|
    ensures i <= ids[i]
  {
    if i > 0 {
      AscendingLower(ids, n, i - 1);
    }
  }

  lemma {:induction false} AscendingUpper(ids: seq<int>, n: nat, i: nat)
    requires Ascending(ids) && InRange(ids, n) && i < |ids|
    ensures ids[i] <= n - |ids| + i
    decreases |ids| - i
  {
    if i + 1 < |ids| {
      AscendingUpper(ids, n, i + 1);
    }
  }

  /** As many valid ids as there are files are all the files (the pigeonhole behind "empty means all"). */
  lemma FullChoiceIsAll(ids: seq<int>, n: nat)
    requires Ascending(ids) && InRange(ids, n)
    ensures |ids| <= n
    ensures |ids| == n <==> ids == UpTo(n)
  {
    if |ids| > 0 {
      AscendingBounds(ids, n, 0);
    }
    if |ids| == n {
      forall i: nat | i < n
        ensures ids[i] == i
      {
        AscendingBounds(ids, n, i);
      }
    }
  }

  /**
   * The sender resolves the receiver's wire form to the receiver's own list, and the short form for
   * "everything" is used exactly for everything.
   */
  lemma AcceptanceAgreement(chosen: seq<int>, n: nat)
    requires chosen != [] && ValidChoice(chosen, set i | i in UpTo(n))
    ensures Resolve(WireForm(Sort(chosen), n), n) == Some(Sort(chosen))
    ensures WireForm(Sort(chosen), n) == [] <==> forall i | 0 <= i < n :: i in chosen
  {
    var ids := Sort(chosen);
    SortDistinct(chosen);
    forall i | 0 <= i < |ids|
      ensures 0 <= ids[i] < n
    {
      assert ids[i] in chosen;
    }
    FullChoiceIsAll(ids, n);
    if forall i | 0 <= i < n :: i in chosen {
      forall x
        ensures x in ids <==> x in UpTo(n)
      {
        if 0 <= x < n {
          assert UpTo(n)[x] == x;
          assert x in chosen;
        } else {
          assert x in ids ==> false;
        }
      }
      AscendingUnique(ids, UpTo(n));
    } else {
      var i :| 0 <= i < n && i !in chosen;
      assert UpTo(n)[i] in UpTo(n);
      assert ids != UpTo(n);
    }
    ResolvesUnique(WireForm(ids, n), n, Some(ids), Resolve(WireForm(ids, n), n));
  }
}
