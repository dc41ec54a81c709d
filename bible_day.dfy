/**
  The records of one day of pages/2_BibleReading.py and the merge step of
  record_reading: a day holds a list of entries (a book and the chapters read
  in it); recording chapters of a book already listed that day replaces its
  chapters by the sorted, duplicate-free union, otherwise a new entry is
  appended.
*/
module BibleDay {

  /** One reading record: a book and the chapters read in it. */
  datatype Entry = Entry(book: string, chapters: seq<int>)

  function Elems(s: seq<int>): set<int> {
    set x | x in s
  }

  predicate Increasing(s: seq<int>) {
    forall i, j :: 0 <= i < j < |s| ==> s[i] < s[j]
  }

  /** Adds x to an increasing list, keeping it increasing and without duplicates. */
  function Insert(x: int, s: seq<int>): (r: seq<int>)
    requires Increasing(s)
    ensures Increasing(r) && Elems(r) == Elems(s) + {x}
  {
    if s == [] then [x]
    else if x < s[0] then
      ConsElems(x, s);
      ConsIncreasing(x, s);
      [x] + s
    else if x == s[0] then
      assert s[0] in Elems(s);
      s
    else
      TailIncreasing(s);
      var rest := Insert(x, s[1..]);
      ConsElems(s[0], s[1..]);
      ConsElems(s[0], rest);
      ConsIncreasing(s[0], rest);
      [s[0]] + rest
  }

  /** The tail of an increasing list is increasing and lies above its head. */
  lemma TailIncreasing(s: seq<int>)
    requires Increasing(s) && s != []
    ensures Increasing(s[1..])
    ensures forall v :: v in Elems(s[1..]) ==> s[0] < v
    ensures s == [s[0]] + s[1..]
  {
    forall v | v in Elems(s[1..]) ensures s[0] < v {
      var k :| 0 <= k < |s[1..]| && s[1..][k] == v;
      assert s[k + 1] == v;
    }
  }

  lemma ConsElems(y: int, t: seq<int>)
    ensures Elems([y] + t) == {y} + Elems(t)
  {
    assert forall k :: 0 <= k < |t| ==> ([y] + t)[k + 1] == t[k];
  }

  /** A value below every element of an increasing list can go in front of it. */
  lemma ConsIncreasing(y: int, t: seq<int>)
    requires Increasing(t) && forall v :: v in Elems(t) ==> y < v
    ensures Increasing([y] + t)
  {
    forall i, j | 0 <= i < j < |[y] + t| ensures ([y] + t)[i] < ([y] + t)[j] {
      assert ([y] + t)[j] == t[j - 1];
      if i == 0 {
        assert t[j - 1] in Elems(t);
      } else {
        assert ([y] + t)[i] == t[i - 1];
      }
    }
  }

  /** sorted(set(s)): the distinct values of s in increasing order. */
  function Normalize(s: seq<int>): (r: seq<int>)
    ensures Increasing(r) && Elems(r) == Elems(s)
  {
    if s == [] then []
    else
      assert Elems(s) == Elems(s[..|s| - 1]) + {s[|s| - 1]} by {
        assert s == s[..|s| - 1] + [s[|s| - 1]];
      }
      Insert(s[|s| - 1], Normalize(s[..|s| - 1]))
  }

  /** sorted(list(set(a + b))), the chapters of a merged record. */
  function SortedUnion(a: seq<int>, b: seq<int>): (r: seq<int>)
    ensures Increasing(r) && Elems(r) == Elems(a) + Elems(b)
  {
    assert Elems(a + b) == Elems(a) + Elems(b) by {
      forall x | x in Elems(a) + Elems(b) ensures x in a + b {
        if x in a {
          var i :| 0 <= i < |a| && a[i] == x;
          assert (a + b)[i] == x;
        } else {
          var i :| 0 <= i < |b| && b[i] == x;
          assert (a + b)[|a| + i] == x;
        }
      }
    }
    Normalize(a + b)
  }

  /** An increasing list is determined by its values: sorted(set(...)) has one result. */
  lemma {:induction false} IncreasingUnique(r1: seq<int>, r2: seq<int>)
    requires Increasing(r1) && Increasing(r2) && Elems(r1) == Elems(r2)
    ensures r1 == r2
    decreases |r1|
  {
    if r1 != [] && r2 != [] {
      assert r1[0] in Elems(r2) && r2[0] in Elems(r1);
      assert r1[0] == r2[0];
      assert Elems(r1[1..]) == Elems(r1) - {r1[0]} by {
        assert r1 == [r1[0]] + r1[1..];
      }
      assert Elems(r2[1..]) == Elems(r2) - {r2[0]} by {
        assert r2 == [r2[0]] + r2[1..];
      }
      IncreasingUnique(r1[1..], r2[1..]);
      assert r1 == [r1[0]] + r1[1..];
      assert r2 == [r2[0]] + r2[1..];
    } else {
      ElemsEmpty(r1);
      ElemsEmpty(r2);
    }
  }

  lemma ElemsEmpty(s: seq<int>)
    ensures Elems(s) == {} <==> s == []
  {
    if s != [] {
      assert s[0] in Elems(s);
    }
  }

  /** Merging is commutative and idempotent on the set of chapters. */
  lemma SortedUnionLaws(a: seq<int>, b: seq<int>)
    ensures SortedUnion(a, b) == SortedUnion(b, a)
    ensures SortedUnion(SortedUnion(a, b), b) == SortedUnion(a, b)
  {
    IncreasingUnique(SortedUnion(a, b), SortedUnion(b, a));
    IncreasingUnique(SortedUnion(SortedUnion(a, b), b), SortedUnion(a, b));
  }

  /** The index of the first entry of the day for `book`, or -1. */
  function BookIndex(day: seq<Entry>, book: string): (i: int)
    ensures -1 <= i < |day|
    ensures i >= 0 ==> day[i].book == book
    ensures forall j :: 0 <= j < |day| && (i < 0 || j < i) ==> day[j].book != book
  {
    if day == [] then -1
    else if day[0].book == book then 0
    else
      var k := BookIndex(day[1..], book);
      if k < 0 then -1 else k + 1
  }

  /** The day after record_reading(book, chapters). */
  function MergedDay(day: seq<Entry>, book: string, chapters: seq<int>): seq<Entry> {
    var i := BookIndex(day, book);
    if i < 0 then day + [Entry(book, chapters)]
    else day[i := Entry(book, SortedUnion(day[i].chapters, chapters))]
  }

  /**
    The merge loop of record_reading: the first entry for the same book gets
    the sorted union of its chapters and the new ones; without one, a new
    entry is appended.
  */
  method MergeIntoDay(day: seq<Entry>, book: string, chapters: seq<int>) returns (r: seq<Entry>)
    ensures r == MergedDay(day, book, chapters)
  {
    r := day;
    var found := false;
    var i := 0;
    while i < |r|
      invariant 0 <= i <= |r| && r == day
      invariant forall j :: 0 <= j < i ==> day[j].book != book
    {
      if r[i].book == book {
        r := r[i := Entry(book, SortedUnion(r[i].chapters, chapters))];
        found := true;
        break;
      }
      i := i + 1;
    }
    if !found {
      r := r + [Entry(book, chapters)];
    }
  }

  /** The chapters of `book` recorded on a day, over all its entries. */
  function ChaptersOn(day: seq<Entry>, book: string): set<int> {
    set i, ch | 0 <= i < |day| && day[i].book == book && ch in day[i].chapters :: ch
  }

  /**
    Recording adds exactly the new chapters to the book's chapters of the day
    and leaves every other book's chapters as they were.
  */
  lemma MergedDayChapters(day: seq<Entry>, book: string, chapters: seq<int>, b: string)
    ensures ChaptersOn(MergedDay(day, book, chapters), b) ==
            if b == book then ChaptersOn(day, b) + Elems(chapters) else ChaptersOn(day, b)
  {
    var r := MergedDay(day, book, chapters);
    var i := BookIndex(day, book);
    forall ch | ch in ChaptersOn(r, b)
      ensures ch in (if b == book then ChaptersOn(day, b) + Elems(chapters) else ChaptersOn(day, b))
    {
      var k :| 0 <= k < |r| && r[k].book == b && ch in r[k].chapters;
      if k < |day| && k != i {
        assert r[k] == day[k];
        assert ch in ChaptersOn(day, b);
      } else if k == i {
        assert b == book && r[k].chapters == SortedUnion(day[k].chapters, chapters);
        assert ch in Elems(r[k].chapters);
        assert ch in Elems(day[k].chapters) || ch in Elems(chapters);
        if ch in Elems(day[k].chapters) {
          assert ch in ChaptersOn(day, b);
        }
      } else {
        assert i < 0 && k == |day| && r[k] == Entry(book, chapters);
        assert ch in Elems(chapters);
      }
    }
    forall ch | ch in (if b == book then ChaptersOn(day, b) + Elems(chapters) else ChaptersOn(day, b))
      ensures ch in ChaptersOn(r, b)
    {
      if ch in ChaptersOn(day, b) {
        var k :| 0 <= k < |day| && day[k].book == b && ch in day[k].chapters;
        if k == i {
          assert ch in Elems(r[k].chapters);
        } else {
          assert r[k] == day[k];
        }
      } else if i < 0 {
        assert r[|day|] == Entry(book, chapters);
      } else {
        assert ch in Elems(r[i].chapters);
      }
    }
  }

  /** Entries of other books keep their place and content; at most one entry is added. */
  lemma MergedDayKeepsOthers(day: seq<Entry>, book: string, chapters: seq<int>)
    ensures var r := MergedDay(day, book, chapters);
            |day| <= |r| <= |day| + 1 &&
            (forall j :: 0 <= j < |day| && day[j].book != book ==> r[j] == day[j]) &&
            (|r| == |day| + 1 <==> forall j :: 0 <= j < |day| ==> day[j].book != book)
  {
  }

  /** No book is listed twice in the day. */
  ghost predicate DistinctBooks(day: seq<Entry>) {
    forall i, j :: 0 <= i < j < |day| ==> day[i].book != day[j].book
  }

  /** Recording keeps the books of a day distinct. */
  lemma MergedDayDistinct(day: seq<Entry>, book: string, chapters: seq<int>)
    requires DistinctBooks(day)
    ensures DistinctBooks(MergedDay(day, book, chapters))
  {
  }
}
