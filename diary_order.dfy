/**
 * Newest-first ordering of diary entries: the comparator passed to
 * `sorted(by:)` and a concrete sort built on it.
 */
module DiaryOrder {
  import opened DiaryData

  /** The closure `{ $0.date.compare($1.date) == .orderedDescending }`: `a` strictly later than `b`. */
  predicate OrderedBefore(a: Diary, b: Diary)
  {
    a.date > b.date
  }

  /** Newest first: no entry is followed by a later one. */
  predicate SortedNewestFirst(s: seq<Diary>)
  {
    forall i, j :: 0 <= i < j < |s| ==> s[i].date >= s[j].date
  }

  /** The same condition stated on neighbours only. */
  predicate AdjacentNewestFirst(s: seq<Diary>)
  {
    forall i :: 0 <= i < |s| - 1 ==> !OrderedBefore(s[i + 1], s[i])
  }

  /** Places `d` into a newest-first list, behind every entry strictly later than it. */
  function Insert(d: Diary, s: seq<Diary>): (r: seq<Diary>)
    requires SortedNewestFirst(s)
    ensures SortedNewestFirst(r)
    ensures multiset(r) == multiset(s) + multiset{d}
  {
    if s == [] || !OrderedBefore(s[0], d) then
      [d] + s
    else
      assert SortedNewestFirst(s[1..]);
      var rest := Insert(d, s[1..]);
      assert s == [s[0]] + s[1..];
      forall x | x in rest ensures s[0].date >= x.date {
        assert x in multiset(rest);
        if x != d {
          assert x in multiset(s[1..]);
          var j :| 0 <= j < |s[1..]| && s[1..][j] == x;
          assert s[j + 1] == x;
        }
      }
      var r := [s[0]] + rest;
      assert forall j :: 0 < j < |r| ==> r[j] == rest[j - 1];
      r
  }

  /**
   * `sorted(by:)` with the newest-first comparator. Swift does not promise
   * which of two entries with the same date comes first; callers rely only
   * on the ensures clauses, which leave that open.
   */
  function SortNewestFirst(s: seq<Diary>): (r: seq<Diary>)
    ensures SortedNewestFirst(r)
    ensures multiset(r) == multiset(s)
  {
    if s == [] then []
    else
      assert s == [s[0]] + s[1..];
      Insert(s[0], SortNewestFirst(s[1..]))
  }

  // ---------------------------------------------------------------------------
  // Properties

  /** Checking neighbours is enough: the comparator is a total preorder on dates. */
  lemma {:induction false} SortedIffAdjacent(s: seq<Diary>)
    ensures SortedNewestFirst(s) <==> AdjacentNewestFirst(s)
  {
    if AdjacentNewestFirst(s) && |s| > 1 {
      var t := s[1..];
      assert AdjacentNewestFirst(t) by {
        forall i | 0 <= i < |t| - 1 ensures !OrderedBefore(t[i + 1], t[i]) {
          assert t[i] == s[i + 1] && t[i + 1] == s[i + 2];
        }
      }
      SortedIffAdjacent(t);
      forall i, j | 0 <= i < j < |s| ensures s[i].date >= s[j].date {
        if i == 0 {
          assert s[0].date >= s[1].date;
          if j > 1 { assert s[1] == t[0] && s[j] == t[j - 1]; }
        } else {
          assert s[i] == t[i - 1] && s[j] == t[j - 1];
        }
      }
    }
  }

  /** Removing one entry keeps a list newest first. */
  lemma SortedRemove(s: seq<Diary>, k: nat)
    requires SortedNewestFirst(s) && k < |s|
    ensures SortedNewestFirst(s[..k] + s[k + 1..])
  {
  }

  /** Helper: the dates line up again once the removed entry is put back at the front. */
  lemma DatesAfterReinsert(a: seq<Diary>, b: seq<Diary>, k: nat)
    requires SortedNewestFirst(b) && |a| == |b| && k < |b|
    requires a != [] && a[0].date == b[0].date && b[k] == a[0]
    requires forall i :: 0 <= i < |a| - 1 ==> a[1..][i].date == (b[..k] + b[k + 1..])[i].date
    ensures forall i :: 0 <= i < |a| ==> a[i].date == b[i].date
  {
    var b' := b[..k] + b[k + 1..];
    forall i | 0 <= i < |a| ensures a[i].date == b[i].date {
      if 0 < i <= k {
        assert a[i] == a[1..][i - 1];
        assert b'[i - 1] == b[i - 1];
        assert b[0].date >= b[i - 1].date >= b[i].date >= b[k].date;
      } else if k < i {
        assert a[i] == a[1..][i - 1];
        assert b'[i - 1] == b[i];
      }
    }
  }

  /** Helper: taking the same entry out of two arrangements of the same entries. */
  lemma RemoveFromBoth(a: seq<Diary>, b: seq<Diary>, k: nat)
    requires multiset(a) == multiset(b) && a != [] && k < |b| && b[k] == a[0]
    ensures multiset(a[1..]) == multiset(b[..k] + b[k + 1..])
  {
    var x := a[0];
    var rest := multiset(b[..k] + b[k + 1..]);
    assert b == b[..k] + [x] + b[k + 1..];
    assert multiset(b) == rest + multiset{x};
    assert a == [x] + a[1..];
    assert multiset(a) == multiset(a[1..]) + multiset{x};
    assert multiset(a[1..]) == multiset(a) - multiset{x};
    assert rest == multiset(b) - multiset{x};
  }

  /**
   * Two newest-first arrangements of the same entries agree on the date at
   * every position: they can differ only in the order of entries that share
   * a date.
   */
  lemma {:induction false} SortedPermutationsAgreeOnDates(a: seq<Diary>, b: seq<Diary>)
    requires SortedNewestFirst(a) && SortedNewestFirst(b) && multiset(a) == multiset(b)
    ensures |a| == |b|
    ensures forall i :: 0 <= i < |a| ==> a[i].date == b[i].date
    decreases |a|
  {
    assert |a| == |multiset(a)| == |multiset(b)| == |b|;
    if a != [] {
      assert a[0] in multiset(b);
      var k :| 0 <= k < |b| && b[k] == a[0];
      assert b[0] in multiset(a);
      var m :| 0 <= m < |a| && a[m] == b[0];
      assert a[0].date == b[0].date;
      RemoveFromBoth(a, b, k);
      SortedRemove(b, k);
      SortedPermutationsAgreeOnDates(a[1..], b[..k] + b[k + 1..]);
      DatesAfterReinsert(a, b, k);
    }
  }

  /** Sorting a list that is already newest first changes no date at any position. */
  lemma SortSortedKeepsDates(s: seq<Diary>)
    requires SortedNewestFirst(s)
    ensures |SortNewestFirst(s)| == |s|
    ensures forall i :: 0 <= i < |s| ==> SortNewestFirst(s)[i].date == s[i].date
  {
    SortedPermutationsAgreeOnDates(SortNewestFirst(s), s);
  }
}
