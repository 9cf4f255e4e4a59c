/** Queries over a list of harmonic records and the sort by id that every
    insertion into the active set goes through. */
module HarmonicList {
  import opened Types

  /** `list.some(h => h.id === id)`. */
  predicate HasId(hs: seq<Harmonic>, id: int) {
    exists i :: 0 <= i < |hs| && hs[i].id == id
  }

  /** `list.find(h => h.id === id)`, as the index of the first match. */
  function FindId(hs: seq<Harmonic>, id: int): (r: Option<nat>)
    ensures r.None? <==> !HasId(hs, id)
    ensures r.Some? ==> r.value < |hs| && hs[r.value].id == id
    ensures r.Some? ==> forall j :: 0 <= j < r.value ==> hs[j].id != id
  {
    if |hs| == 0 then None
    else if hs[0].id == id then Some(0)
    else
      match FindId(hs[1..], id)
      case None => None
      case Some(k) => Some(k + 1)
  }

  function IdSet(hs: seq<Harmonic>): set<int> {
    set i | 0 <= i < |hs| :: hs[i].id
  }

  lemma IdSetHasId(hs: seq<Harmonic>, id: int)
    ensures id in IdSet(hs) <==> HasId(hs, id)
  {
  }

  predicate UniqueIds(hs: seq<Harmonic>) {
    forall i, j :: 0 <= i < j < |hs| ==> hs[i].id != hs[j].id
  }

  predicate SortedById(hs: seq<Harmonic>) {
    forall i, j :: 0 <= i < j < |hs| ==> hs[i].id <= hs[j].id
  }

  /** Sorted with no id twice: the shape the editor keeps the active set in. */
  predicate StrictlySortedById(hs: seq<Harmonic>) {
    forall i, j :: 0 <= i < j < |hs| ==> hs[i].id < hs[j].id
  }

  /** The invariant of the active set: documented ranges, ids increasing. */
  predicate ValidSet(hs: seq<Harmonic>) {
    (forall i :: 0 <= i < |hs| ==> ValidHarmonic(hs[i])) && StrictlySortedById(hs)
  }

  lemma StrictlySortedIsUnique(hs: seq<Harmonic>)
    requires StrictlySortedById(hs)
    ensures UniqueIds(hs) && SortedById(hs)
  {
  }

  /** Places `h` after every element whose id is not larger (the position a
      stable sort gives the last element of the list). */
  function InsertById(t: seq<Harmonic>, h: Harmonic): (r: seq<Harmonic>)
    ensures |r| == |t| + 1
    ensures multiset(r) == multiset(t) + multiset{h}
  {
    if |t| == 0 then [h]
    else if h.id < t[0].id then [h] + t
    else
      assert t == [t[0]] + t[1..];
      [t[0]] + InsertById(t[1..], h)
  }

  /** The stable sort `(a, b) => a.id - b.id` as an insertion sort. */
  function SortById(s: seq<Harmonic>): (r: seq<Harmonic>)
    ensures |r| == |s|
    ensures multiset(r) == multiset(s)
  {
    if |s| == 0 then []
    else
      assert s == s[..|s| - 1] + [s[|s| - 1]];
      InsertById(SortById(s[..|s| - 1]), s[|s| - 1])
  }

  lemma MemberOfMultiset(r: seq<Harmonic>, t: seq<Harmonic>, h: Harmonic, x: Harmonic)
    requires multiset(r) == multiset(t) + multiset{h}
    requires x in r
    ensures x in t || x == h
  {
    assert x in multiset(r);
  }

  lemma {:induction false} InsertSorted(t: seq<Harmonic>, h: Harmonic)
    requires SortedById(t)
    ensures SortedById(InsertById(t, h))
  {
    if |t| > 0 && h.id >= t[0].id {
      var rest := InsertById(t[1..], h);
      InsertSorted(t[1..], h);
      forall j | 0 <= j < |rest| ensures t[0].id <= rest[j].id {
        MemberOfMultiset(rest, t[1..], h, rest[j]);
      }
      assert InsertById(t, h) == [t[0]] + rest;
    }
  }

  lemma {:induction false} InsertStrictlySorted(t: seq<Harmonic>, h: Harmonic)
    requires StrictlySortedById(t)
    requires !HasId(t, h.id)
    ensures StrictlySortedById(InsertById(t, h))
  {
    if |t| > 0 && h.id >= t[0].id {
      var rest := InsertById(t[1..], h);
      assert h.id != t[0].id;
      assert !HasId(t[1..], h.id) by {
        forall i | 0 <= i < |t| - 1 ensures t[1..][i].id != h.id {
          assert t[1..][i] == t[i + 1];
        }
      }
      InsertStrictlySorted(t[1..], h);
      forall j | 0 <= j < |rest| ensures t[0].id < rest[j].id {
        MemberOfMultiset(rest, t[1..], h, rest[j]);
      }
      assert InsertById(t, h) == [t[0]] + rest;
    }
  }

  lemma SameElementsSameIds(a: seq<Harmonic>, b: seq<Harmonic>)
    requires multiset(a) == multiset(b)
    ensures IdSet(a) == IdSet(b)
  {
    forall id | id in IdSet(a) ensures id in IdSet(b) {
      var i :| 0 <= i < |a| && a[i].id == id;
      assert a[i] in multiset(b);
      var j :| 0 <= j < |b| && b[j] == a[i];
    }
    forall id | id in IdSet(b) ensures id in IdSet(a) {
      var j :| 0 <= j < |b| && b[j].id == id;
      assert b[j] in multiset(a);
      var i :| 0 <= i < |a| && a[i] == b[j];
    }
  }

  /** The sort orders by id, keeps exactly the input's elements, and turns a
      list without repeated ids into a strictly increasing one. */
  lemma {:induction false} SortByIdCorrect(s: seq<Harmonic>)
    ensures SortedById(SortById(s))
    ensures multiset(SortById(s)) == multiset(s)
    ensures UniqueIds(s) ==> StrictlySortedById(SortById(s))
  {
    if |s| > 0 {
      var init, last := s[..|s| - 1], s[|s| - 1];
      SortByIdCorrect(init);
      InsertSorted(SortById(init), last);
      if UniqueIds(s) {
        assert UniqueIds(init);
        SameElementsSameIds(SortById(init), init);
        assert !HasId(init, last.id);
        IdSetHasId(init, last.id);
        IdSetHasId(SortById(init), last.id);
        InsertStrictlySorted(SortById(init), last);
      }
    }
  }

  /** Sorting a list that is already strictly increasing changes nothing. */
  lemma {:induction false} SortByIdOfSorted(s: seq<Harmonic>)
    requires StrictlySortedById(s)
    ensures SortById(s) == s
  {
    if |s| > 0 {
      var init, last := s[..|s| - 1], s[|s| - 1];
      SortByIdOfSorted(init);
      InsertAtEnd(init, last);
      assert init + [last] == s;
    }
  }

  lemma {:induction false} InsertAtEnd(t: seq<Harmonic>, h: Harmonic)
    requires forall i :: 0 <= i < |t| ==> t[i].id <= h.id
    ensures InsertById(t, h) == t + [h]
  {
    if |t| > 0 {
      InsertAtEnd(t[1..], h);
      assert t == [t[0]] + t[1..];
    }
  }

  /** Appending a harmonic with a new id to the active set and sorting keeps
      the set's invariant and adds exactly that harmonic. */
  lemma AppendAndSort(prev: seq<Harmonic>, h: Harmonic)
    requires ValidSet(prev) && ValidHarmonic(h) && !HasId(prev, h.id)
    ensures ValidSet(SortById(prev + [h]))
    ensures SortById(prev + [h]) == InsertById(prev, h)
    ensures multiset(SortById(prev + [h])) == multiset(prev) + multiset{h}
    ensures |SortById(prev + [h])| == |prev| + 1
  {
    var s := prev + [h];
    assert s[..|s| - 1] == prev;
    SortByIdOfSorted(prev);
    InsertStrictlySorted(prev, h);
    var r := SortById(s);
    forall i | 0 <= i < |r| ensures ValidHarmonic(r[i]) {
      MemberOfMultiset(r, prev, h, r[i]);
    }
  }
}
