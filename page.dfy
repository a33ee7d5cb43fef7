/**
 * The decisions of the home page (app/page.tsx): the mosque list is sorted by distance with
 * unknown distances last, reduced to the first entry per registration number and cut to five;
 * the masjid tab badge shows the nearest mosque; and the page keeps its current schedule in
 * step with the one kept in local storage.
 */
module Home {
  import opened SolatTypes

  // ---------------------------------------------------------------------------------------
  // Sorting by distance
  // ---------------------------------------------------------------------------------------

  /**
   * The order the comparator establishes: an entry without a distance goes after every
   * entry, and two entries with distances compare by distance.
   */
  predicate Le(a: Mosque, b: Mosque) {
    b.distance.None? || (a.distance.Some? && a.distance.value <= b.distance.value)
  }

  lemma LeTotal(a: Mosque, b: Mosque)
    ensures Le(a, b) || Le(b, a)
  {
  }

  lemma LeTransitive(a: Mosque, b: Mosque, c: Mosque)
    requires Le(a, b) && Le(b, c)
    ensures Le(a, c)
  {
  }

  predicate Sorted(s: seq<Mosque>) {
    forall i, j :: 0 <= i < j < |s| ==> Le(s[i], s[j])
  }

  /** Insert `x` before the first entry it does not come after (so equal distances keep their order). */
  function Insert(x: Mosque, s: seq<Mosque>): (r: seq<Mosque>)
    ensures |r| == |s| + 1
  {
    if |s| == 0 then [x]
    else if Le(x, s[0]) then [x] + s
    else [s[0]] + Insert(x, s[1..])
  }

  /** `sortedMasjid`: a sorted copy of the list; the input value itself is left as it is. */
  function SortByDistance(s: seq<Mosque>): (r: seq<Mosque>)
    ensures |r| == |s|
  {
    if |s| == 0 then [] else Insert(s[0], SortByDistance(s[1..]))
  }

  lemma {:induction false} InsertPermutes(x: Mosque, s: seq<Mosque>)
    ensures multiset(Insert(x, s)) == multiset(s) + multiset{x}
  {
    if |s| == 0 {
    } else if Le(x, s[0]) {
    } else {
      InsertPermutes(x, s[1..]);
      assert s == [s[0]] + s[1..];
    }
  }

  lemma {:induction false} InsertSorted(x: Mosque, s: seq<Mosque>)
    requires Sorted(s)
    ensures Sorted(Insert(x, s))
  {
    if |s| == 0 {
    } else if Le(x, s[0]) {
      var r := [x] + s;
      forall i, j | 0 <= i < j < |r| ensures Le(r[i], r[j]) {
        if i == 0 && j > 1 {
          LeTransitive(x, s[0], s[j - 1]);
        }
      }
    } else {
      LeTotal(x, s[0]);
      var t := s[1..];
      InsertSorted(x, t);
      InsertPermutes(x, t);
      var r := [s[0]] + Insert(x, t);
      forall i, j | 0 <= i < j < |r| ensures Le(r[i], r[j]) {
        if i == 0 {
          var y := r[j];
          assert y in multiset(Insert(x, t));
          assert y == x || y in multiset(t);
          if y != x {
            var k :| 0 <= k < |t| && t[k] == y;
            assert s[k + 1] == y;
          }
        }
      }
    }
  }

  lemma {:induction false} SortByDistanceCorrect(s: seq<Mosque>)
    ensures Sorted(SortByDistance(s))
    ensures multiset(SortByDistance(s)) == multiset(s)
  {
    if |s| == 0 {
    } else {
      SortByDistanceCorrect(s[1..]);
      InsertSorted(s[0], SortByDistance(s[1..]));
      InsertPermutes(s[0], SortByDistance(s[1..]));
      assert s == [s[0]] + s[1..];
    }
  }

  /**
   * In a sorted list no entry without a distance precedes one with a distance, and entries
   * with distances are in ascending order.
   */
  lemma SortedUndefinedLast(s: seq<Mosque>, i: int, j: int)
    requires Sorted(s) && 0 <= i < j < |s| && s[j].distance.Some?
    ensures s[i].distance.Some? && s[i].distance.value <= s[j].distance.value
  {
    assert Le(s[i], s[j]);
  }

  // ---------------------------------------------------------------------------------------
  // Keeping the first entry per registration number
  // ---------------------------------------------------------------------------------------

  /** `findIndex` on `no_daftar`: the first position holding `key`, or -1. */
  function FindIndex(s: seq<Mosque>, key: string): (i: int)
    ensures -1 <= i < |s|
    ensures i >= 0 ==> s[i].noDaftar == key
    ensures forall j :: 0 <= j < |s| && (i < 0 || j < i) ==> s[j].noDaftar != key
  {
    if |s| == 0 then -1
    else if s[0].noDaftar == key then 0
    else
      var k := FindIndex(s[1..], key);
      if k < 0 then -1 else k + 1
  }

  /** The filter from position `k` on: keep `s[i]` when it is the first entry with its number. */
  function KeepFirstFrom(s: seq<Mosque>, k: nat): seq<Mosque>
    requires k <= |s|
    decreases |s| - k
  {
    if k == |s| then []
    else (if FindIndex(s, s[k].noDaftar) == k then [s[k]] else []) + KeepFirstFrom(s, k + 1)
  }

  function Dedup(s: seq<Mosque>): seq<Mosque> {
    KeepFirstFrom(s, 0)
  }

  predicate DistinctNumbers(s: seq<Mosque>) {
    forall i, j :: 0 <= i < j < |s| ==> s[i].noDaftar != s[j].noDaftar
  }

  /** Every kept entry comes from `s` at or after `k`, and is the first with its number. */
  lemma {:induction false} KeptAreFirsts(s: seq<Mosque>, k: nat, y: Mosque)
    requires k <= |s| && y in KeepFirstFrom(s, k)
    ensures y in s && k <= FindIndex(s, y.noDaftar) && s[FindIndex(s, y.noDaftar)] == y
    decreases |s| - k
  {
    if FindIndex(s, s[k].noDaftar) == k && y == s[k] {
    } else {
      KeptAreFirsts(s, k + 1, y);
    }
  }

  lemma {:induction false} KeepFirstDistinct(s: seq<Mosque>, k: nat)
    requires k <= |s|
    ensures DistinctNumbers(KeepFirstFrom(s, k))
    decreases |s| - k
  {
    if k < |s| {
      KeepFirstDistinct(s, k + 1);
      var rest := KeepFirstFrom(s, k + 1);
      var head := if FindIndex(s, s[k].noDaftar) == k then [s[k]] else [];
      assert KeepFirstFrom(s, k) == head + rest;
      if FindIndex(s, s[k].noDaftar) == k {
        var r := [s[k]] + rest;
        forall i, j | 0 <= i < j < |r| ensures r[i].noDaftar != r[j].noDaftar {
          if i == 0 {
            assert r[j] in rest;
            KeptAreFirsts(s, k + 1, r[j]);
          } else {
            assert r[i] == rest[i - 1] && r[j] == rest[j - 1];
          }
        }
      }
    }
  }

  /** The first entry with each number is kept. */
  lemma {:induction false} KeepFirstKeeps(s: seq<Mosque>, k: nat, j: int)
    requires k <= j < |s| && FindIndex(s, s[j].noDaftar) == j
    ensures s[j] in KeepFirstFrom(s, k)
    decreases |s| - k
  {
    var head := if FindIndex(s, s[k].noDaftar) == k then [s[k]] else [];
    var rest := KeepFirstFrom(s, k + 1);
    assert KeepFirstFrom(s, k) == head + rest;
    if k < j {
      KeepFirstKeeps(s, k + 1, j);
      assert s[j] in rest;
    } else {
      assert head == [s[j]];
    }
  }

  /** The entries of `r` appear in the order of their numbers' first positions in `s`. */
  predicate InFirstOrder(s: seq<Mosque>, r: seq<Mosque>) {
    forall i, j :: 0 <= i < j < |r| ==> FindIndex(s, r[i].noDaftar) < FindIndex(s, r[j].noDaftar)
  }

  /** An entry put in front of a list in first order, and first before all of it, keeps the order. */
  lemma InFirstOrderCons(s: seq<Mosque>, x: Mosque, rest: seq<Mosque>)
    requires InFirstOrder(s, rest)
    requires forall y :: y in rest ==> FindIndex(s, x.noDaftar) < FindIndex(s, y.noDaftar)
    ensures InFirstOrder(s, [x] + rest)
  {
    var r := [x] + rest;
    forall i, j | 0 <= i < j < |r|
      ensures FindIndex(s, r[i].noDaftar) < FindIndex(s, r[j].noDaftar)
    {
      assert r[j] == rest[j - 1];
      if i > 0 {
        assert r[i] == rest[i - 1];
      }
    }
  }

  /** Kept entries appear in the order of their first positions in `s`. */
  lemma {:induction false} KeepFirstInOrder(s: seq<Mosque>, k: nat)
    requires k <= |s|
    ensures InFirstOrder(s, KeepFirstFrom(s, k))
    decreases |s| - k
  {
    if k < |s| {
      KeepFirstInOrder(s, k + 1);
      var rest := KeepFirstFrom(s, k + 1);
      var head := if FindIndex(s, s[k].noDaftar) == k then [s[k]] else [];
      assert KeepFirstFrom(s, k) == head + rest;
      if FindIndex(s, s[k].noDaftar) == k {
        forall y | y in rest ensures k < FindIndex(s, y.noDaftar) {
          KeptAreFirsts(s, k + 1, y);
        }
        InFirstOrderCons(s, s[k], rest);
      } else {
        assert head + rest == rest;
      }
    }
  }

  /**
   * The deduplicated list draws its entries from the input, has no repeated number, keeps
   * every number of the input, represented by that number's first entry, and keeps those
   * entries in input order.
   */
  lemma DedupCorrect(s: seq<Mosque>)
    ensures DistinctNumbers(Dedup(s))
    ensures forall y :: y in Dedup(s) ==> y in s && s[FindIndex(s, y.noDaftar)] == y
    ensures forall x :: x in s ==> s[FindIndex(s, x.noDaftar)] in Dedup(s)
    ensures InFirstOrder(s, Dedup(s))
  {
    KeepFirstDistinct(s, 0);
    KeepFirstInOrder(s, 0);
    forall y | y in Dedup(s) ensures y in s && s[FindIndex(s, y.noDaftar)] == y {
      KeptAreFirsts(s, 0, y);
    }
    forall x | x in s ensures s[FindIndex(s, x.noDaftar)] in Dedup(s) {
      var j := FindIndex(s, x.noDaftar);
      KeepFirstKeeps(s, 0, j);
    }
  }

  /** Deduplicating a list sorted by distance leaves it sorted by distance. */
  lemma DedupKeepsSorted(s: seq<Mosque>)
    requires Sorted(s)
    ensures Sorted(Dedup(s))
  {
    var d := Dedup(s);
    DedupCorrect(s);
    forall i, j | 0 <= i < j < |d| ensures Le(d[i], d[j]) {
      assert d[i] in d && d[j] in d;
      var p, q := FindIndex(s, d[i].noDaftar), FindIndex(s, d[j].noDaftar);
      assert s[p] == d[i] && s[q] == d[j] && p < q;
    }
  }

  // ---------------------------------------------------------------------------------------
  // What the masjid tab shows
  // ---------------------------------------------------------------------------------------

  const MaxListed: nat := 5

  /** The list handed to the mosque list: sorted, deduplicated, at most five. */
  function Listed(masjid: Option<seq<Mosque>>): seq<Mosque> {
    var d := Dedup(SortByDistance(masjid.GetOr([])));
    if |d| <= MaxListed then d else d[..MaxListed]
  }

  /** A prefix of a list keeps its order and its distinct numbers. */
  lemma PrefixKeeps(d: seq<Mosque>, n: nat)
    requires n <= |d|
    ensures Sorted(d) ==> Sorted(d[..n])
    ensures DistinctNumbers(d) ==> DistinctNumbers(d[..n])
    ensures forall y :: y in d[..n] ==> y in d
  {
  }

  /**
   * The listed entries are at most five, have distinct numbers, are a prefix of the
   * deduplicated sorted list, come from the mosque list, and are in distance order.
   */
  lemma ListedCorrect(masjid: Option<seq<Mosque>>)
    ensures |Listed(masjid)| <= MaxListed
    ensures DistinctNumbers(Listed(masjid))
    ensures Sorted(Listed(masjid))
    ensures Listed(masjid) <= Dedup(SortByDistance(masjid.GetOr([])))
    ensures forall y :: y in Listed(masjid) ==> y in masjid.GetOr([])
  {
    var all := masjid.GetOr([]);
    var sorted := SortByDistance(all);
    var d := Dedup(sorted);
    SortByDistanceCorrect(all);
    DedupCorrect(sorted);
    DedupKeepsSorted(sorted);
    var n := if |d| <= MaxListed then |d| else MaxListed;
    assert Listed(masjid) == d[..n];
    PrefixKeeps(d, n);
    forall y | y in d ensures y in all {
      assert y in multiset(sorted);
    }
  }

  /**
   * The badge of the masjid tab: present only when the sorted list is not empty, and then
   * it shows the first sorted entry.
   */
  function Badge(masjid: Option<seq<Mosque>>): Option<Mosque> {
    var sorted := SortByDistance(masjid.GetOr([]));
    if |sorted| > 0 then Some(sorted[0]) else None
  }

  /**
   * The badge is present exactly when there are mosques, and shows an entry of the list
   * whose distance is known and no larger than any other known distance whenever any
   * distance is known.
   */
  lemma BadgeIsNearest(masjid: Option<seq<Mosque>>)
    ensures Badge(masjid).Some? <==> |masjid.GetOr([])| > 0
    ensures Badge(masjid).Some? ==> Badge(masjid).value in masjid.GetOr([])
    ensures forall m :: m in masjid.GetOr([]) && m.distance.Some? ==>
              && Badge(masjid).Some?
              && Badge(masjid).value.distance.Some?
              && Badge(masjid).value.distance.value <= m.distance.value
  {
    var all := masjid.GetOr([]);
    var sorted := SortByDistance(all);
    SortByDistanceCorrect(all);
    if |sorted| > 0 {
      assert sorted[0] in multiset(all);
      forall m | m in all && m.distance.Some?
        ensures sorted[0].distance.Some? && sorted[0].distance.value <= m.distance.value
      {
        assert m in multiset(sorted);
        var k :| 0 <= k < |sorted| && sorted[k] == m;
        if k > 0 {
          SortedUndefinedLast(sorted, 0, k);
        }
      }
    } else {
      assert multiset(all) == multiset{};
    }
  }

  // ---------------------------------------------------------------------------------------
  // The current and stored schedules
  // ---------------------------------------------------------------------------------------

  /** The schedule in local storage and the one the page shows. */
  datatype Schedules = Schedules(stored: Option<GetSolatResponse>, current: Option<GetSolatResponse>)

  /** The page shows the stored schedule whenever one is stored. */
  predicate Adopted(h: Schedules) {
    h.stored.Some? ==> h.current == h.stored
  }

  /** handleUpdateJadualSolat: the current and stored schedules both become `jadual`. */
  function UpdateJadual(h: Schedules, jadual: Option<GetSolatResponse>): (r: Schedules)
    ensures r.current == jadual && r.stored == jadual
    ensures Adopted(r)
  {
    Schedules(jadual, jadual)
  }

  /**
   * The effect that runs when the stored schedule changes: a stored schedule becomes the
   * current one; with none stored the current one stays.
   */
  function AdoptStored(h: Schedules): (r: Schedules)
    ensures Adopted(r) && r.stored == h.stored
    ensures h.stored.None? ==> r == h
    ensures Adopted(h) ==> r == h
  {
    if h.stored.Some? then Schedules(h.stored, h.stored) else h
  }
}
