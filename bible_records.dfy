/**
  The reading records of one user in one group (pages/2_BibleReading.py):
  a map from day to the entries read that day. This module holds what the
  page computes from such a log: the chapters read per book, the last chapter
  read, the consecutive-day streak and the per-book progress of a goal.
*/
module BibleRecords {
  import opened BibleCanon
  import opened BibleDay

  /** One user's records in one group: day number -> entries of that day. */
  type Log = map<int, seq<Entry>>

  /** The chapters of `book` recorded on the given days of the log. */
  ghost function ChaptersIn(log: Log, days: set<int>, book: string): set<int> {
    set d, ch | d in days && d in log && ch in ChaptersOn(log[d], book) :: ch
  }

  /** Every chapter of `book` the log records, on any day. */
  ghost function ChaptersRead(log: Log, book: string): set<int> {
    ChaptersIn(log, log.Keys, book)
  }

  lemma ChaptersOnSnoc(day: seq<Entry>, i: int, book: string)
    requires 0 <= i < |day|
    ensures ChaptersOn(day[..i + 1], book) ==
            ChaptersOn(day[..i], book) + (if day[i].book == book then Elems(day[i].chapters) else {})
  {
    var s := day[..i + 1];
    forall ch | ch in ChaptersOn(s, book)
      ensures ch in ChaptersOn(day[..i], book) + (if day[i].book == book then Elems(day[i].chapters) else {})
    {
      var k :| 0 <= k < |s| && s[k].book == book && ch in s[k].chapters;
      if k < i {
        assert day[..i][k] == s[k];
      }
    }
    forall ch | ch in ChaptersOn(day[..i], book)
      ensures ch in ChaptersOn(s, book)
    {
      var k :| 0 <= k < i && day[..i][k].book == book && ch in day[..i][k].chapters;
      assert s[k] == day[..i][k];
    }
    if day[i].book == book {
      forall ch | ch in Elems(day[i].chapters) ensures ch in ChaptersOn(s, book) {
        assert s[i] == day[i];
      }
    }
  }

  lemma ChaptersInAdd(log: Log, days: set<int>, d: int, book: string)
    requires d in log
    ensures ChaptersIn(log, days + {d}, book) == ChaptersIn(log, days, book) + ChaptersOn(log[d], book)
  {
  }

  /** Some element of a non-empty set (the next key a dictionary loop visits). */
  method Choose<T>(s: set<T>) returns (x: T)
    requires s != {}
    ensures x in s
  {
    x :| x in s;
  }

  /** Logs that agree on the given days record the same chapters on them. */
  lemma ChaptersInSame(log1: Log, log2: Log, days: set<int>, book: string)
    requires forall d :: d in days ==> (d in log1 <==> d in log2) && (d in log1 ==> log1[d] == log2[d])
    ensures ChaptersIn(log1, days, book) == ChaptersIn(log2, days, book)
  {
    forall ch | ch in ChaptersIn(log1, days, book) ensures ch in ChaptersIn(log2, days, book) {
      var d :| d in days && d in log1 && ch in ChaptersOn(log1[d], book);
      assert d in log2 && ch in ChaptersOn(log2[d], book);
    }
    forall ch | ch in ChaptersIn(log2, days, book) ensures ch in ChaptersIn(log1, days, book) {
      var d :| d in days && d in log2 && ch in ChaptersOn(log2[d], book);
      assert d in log1 && ch in ChaptersOn(log1[d], book);
    }
  }

  /** Recording chapters of a book on a day adds exactly them to that book's chapters read. */
  lemma {:induction false} RecordedChapters(log: Log, today: int, book: string, chapters: seq<int>, b: string)
    ensures var day := if today in log then log[today] else [];
            ChaptersRead(log[today := MergedDay(day, book, chapters)], b) ==
            ChaptersRead(log, b) + (if b == book then Elems(chapters) else {})
  {
    var day := if today in log then log[today] else [];
    var log' := log[today := MergedDay(day, book, chapters)];
    MergedDayChapters(day, book, chapters, b);
    var rest := log.Keys - {today};
    ChaptersInSame(log', log, rest, b);
    ChaptersInAdd(log', rest, today, b);
    assert log'.Keys == rest + {today};
    if today in log {
      ChaptersInAdd(log, rest, today, b);
      assert log.Keys == rest + {today};
    } else {
      assert log.Keys == rest;
      assert ChaptersOn(day, b) == {};
    }
  }

  /** Every entry of `book` lists at least one chapter (get_last_read_chapter takes their maximum). */
  ghost predicate ChaptersListed(log: Log, book: string) {
    forall d, i :: d in log && 0 <= i < |log[d]| && log[d][i].book == book ==> log[d][i].chapters != []
  }

  /** `last` is what get_last_read_chapter returns: the largest chapter read, or 0. */
  ghost predicate IsLastRead(log: Log, book: string, last: int) {
    0 <= last &&
    (last == 0 || last in ChaptersRead(log, book)) &&
    forall ch :: ch in ChaptersRead(log, book) ==> ch <= last
  }

  /** The last chapter read is well defined. */
  lemma IsLastReadUnique(log: Log, book: string, a: int, b: int)
    requires IsLastRead(log, book, a) && IsLastRead(log, book, b)
    ensures a == b
  {
  }

  /** The largest value of a non-empty list. */
  method MaxOf(s: seq<int>) returns (m: int)
    requires s != []
    ensures m in s && forall x :: x in s ==> x <= m
  {
    m := s[0];
    var i := 1;
    while i < |s|
      invariant 1 <= i <= |s|
      invariant m in s[..i] && forall j :: 0 <= j < i ==> s[j] <= m
    {
      if s[i] > m {
        m := s[i];
      }
      i := i + 1;
    }
    assert s[..i] == s;
  }

  /**
    The inner loop of get_last_read_chapter over the entries of one day:
    `last` grows to the largest chapter of `book` recorded that day.
  */
  method LastReadOfDay(day: seq<Entry>, book: string, last0: int) returns (last: int)
    requires forall i :: 0 <= i < |day| && day[i].book == book ==> day[i].chapters != []
    ensures last0 <= last && (last == last0 || last in ChaptersOn(day, book))
    ensures forall ch :: ch in ChaptersOn(day, book) ==> ch <= last
  {
    last := last0;
    var i := 0;
    while i < |day|
      invariant 0 <= i <= |day|
      invariant last0 <= last && (last == last0 || last in ChaptersOn(day[..i], book))
      invariant forall ch :: ch in ChaptersOn(day[..i], book) ==> ch <= last
    {
      ChaptersOnSnoc(day, i, book);
      if day[i].book == book {
        var m := MaxOf(day[i].chapters);
        if m > last {
          last := m;
        }
      }
      i := i + 1;
    }
    assert day[..i] == day;
  }

  /**
    get_last_read_chapter on the log of a user in a group: the largest
    chapter of `book` recorded on any day, starting from 0.
  */
  method LastRead(log: Log, book: string) returns (last: int)
    requires ChaptersListed(log, book)
    ensures IsLastRead(log, book, last)
  {
    last := 0;
    var todo := log.Keys;
    while todo != {}
      invariant todo <= log.Keys
      invariant 0 <= last && (last == 0 || last in ChaptersIn(log, log.Keys - todo, book))
      invariant forall ch :: ch in ChaptersIn(log, log.Keys - todo, book) ==> ch <= last
      decreases |todo|
    {
      var d := Choose(todo);
      ghost var done := log.Keys - todo;
      last := LastReadOfDay(log[d], book, last);
      ChaptersInAdd(log, done, d, book);
      assert log.Keys - (todo - {d}) == done + {d};
      todo := todo - {d};
    }
    assert log.Keys - todo == log.Keys;
  }

  /** The chapter get_next_suggested_chapter proposes: the one after the last read, capped by the book's length. */
  function NextChapter(last: int, count: int): (next: int)
    ensures next <= count
    ensures next == count || next == last + 1
    ensures last < count ==> next == last + 1
  {
    if last + 1 < count then last + 1 else count
  }

  /** Once a book is read to its end, the suggestion stays on its last chapter. */
  lemma NextChapterAtEnd(log: Log, book: string, last: int)
    requires book in BibleChapters && IsLastRead(log, book, last)
    requires BibleChapters[book] in ChaptersRead(log, book)
    ensures NextChapter(last, BibleChapters[book]) == BibleChapters[book]
  {
  }

  /** A day counts for the streak when its list of entries is non-empty. */
  ghost predicate ReadOn(log: Log, d: int) {
    d in log && log[d] != []
  }

  /** The day the streak counts back from: today when read, yesterday otherwise. */
  ghost function StreakStart(log: Log, today: int): int {
    if ReadOn(log, today) then today else today - 1
  }

  /** The day k days before `start` is read. */
  ghost predicate ReadBack(log: Log, start: int, k: int) {
    ReadOn(log, start - k)
  }

  /** `n` consecutive read days end at the start day, and the day before them is not read. */
  ghost predicate IsStreak(log: Log, today: int, n: int) {
    0 <= n &&
    (forall k :: 0 <= k < n ==> ReadBack(log, StreakStart(log, today), k)) &&
    !ReadBack(log, StreakStart(log, today), n)
  }

  /** The streak is well defined. */
  lemma IsStreakUnique(log: Log, today: int, a: int, b: int)
    requires IsStreak(log, today, a) && IsStreak(log, today, b)
    ensures a == b
  {
  }

  /** A day read today keeps the streak alive. */
  lemma StreakAfterReadingToday(log: Log, today: int, n: int)
    requires ReadOn(log, today) && IsStreak(log, today, n)
    ensures n >= 1
  {
  }

  /**
    calculate_reading_streak: walk back from today while the day is read,
    passing over today once when it is not read yet.
  */
  method ReadingStreak(log: Log, today: int) returns (streak: int)
    ensures IsStreak(log, today, streak)
  {
    if |log| == 0 {
      return 0;
    }
    var current := today;
    streak := 0;
    // the days of the log not yet walked past
    ghost var ahead := log.Keys;
    while true
      invariant 0 <= streak && ahead <= log.Keys
      invariant forall d :: d in log && d <= current ==> d in ahead
      invariant (streak == 0 && current == today) || current == StreakStart(log, today) - streak
      invariant forall k :: 0 <= k < streak ==> ReadBack(log, StreakStart(log, today), k)
      decreases |ahead|, if streak == 0 && current == today then 1 else 0
    {
      if current in log && log[current] != [] {
        streak := streak + 1;
        ahead := ahead - {current};
        current := current - 1;
      } else if streak == 0 && current == today {
        current := current - 1;
      } else {
        break;
      }
    }
  }

  /** The distinct values of a list, in order of first occurrence (the keys of progress_by_book). */
  function Dedup(s: seq<string>): (r: seq<string>)
    ensures forall b :: b in r <==> b in s
    ensures forall i, j :: 0 <= i < j < |r| ==> r[i] != r[j]
    ensures |r| <= |s|
  {
    if s == [] then []
    else
      var p := Dedup(s[..|s| - 1]);
      assert forall b :: b in s <==> b in s[..|s| - 1] || b == s[|s| - 1] by {
        assert s == s[..|s| - 1] + [s[|s| - 1]];
      }
      if s[|s| - 1] in p then p else p + [s[|s| - 1]]
  }

  /** progress_by_book: the chapters read of every goal book. */
  ghost function Progress(log: Log, books: seq<string>): map<string, set<int>> {
    map b | b in books :: ChaptersRead(log, b)
  }

  /** total_chapters: the number of distinct chapters read, summed over the given books. */
  ghost function TotalRead(log: Log, books: seq<string>): int {
    if books == [] then 0
    else TotalRead(log, books[..|books| - 1]) + |ChaptersRead(log, books[|books| - 1])|
  }

  /** completed_books: how many of the given books have as many chapters read as they have. */
  ghost function CompletedBooks(log: Log, books: seq<string>): int
    requires Known(books)
  {
    if books == [] then 0
    else
      var b := books[|books| - 1];
      CompletedBooks(log, books[..|books| - 1]) + (if |ChaptersRead(log, b)| >= BibleChapters[b] then 1 else 0)
  }

  /** No more books are completed than are counted. */
  lemma {:induction false} CompletedAtMostBooks(log: Log, books: seq<string>)
    requires Known(books)
    ensures 0 <= CompletedBooks(log, books) <= |books|
    decreases |books|
  {
    if books != [] {
      CompletedAtMostBooks(log, books[..|books| - 1]);
    }
  }

  /** Reading a book outside the counted ones changes neither the total nor the completed books. */
  lemma {:induction false} RecordingOtherBook(log: Log, today: int, book: string, chapters: seq<int>, books: seq<string>)
    requires Known(books) && book !in books
    ensures var day := if today in log then log[today] else [];
            var log' := log[today := MergedDay(day, book, chapters)];
            TotalRead(log', books) == TotalRead(log, books) &&
            CompletedBooks(log', books) == CompletedBooks(log, books)
    decreases |books|
  {
    if books != [] {
      var b := books[|books| - 1];
      RecordedChapters(log, today, book, chapters, b);
      RecordingOtherBook(log, today, book, chapters, books[..|books| - 1]);
    }
  }

  /**
    The first loop of get_user_reading_stats: an empty set for every goal
    book; `keys` is the insertion order of the dictionary.
  */
  method InitProgress(goalBooks: seq<string>) returns (keys: seq<string>, progress: map<string, set<int>>)
    ensures keys == Dedup(goalBooks)
    ensures progress == map b | b in goalBooks :: {}
  {
    keys, progress := [], map[];
    var i := 0;
    while i < |goalBooks|
      invariant 0 <= i <= |goalBooks|
      invariant keys == Dedup(goalBooks[..i])
      invariant forall b :: b in progress <==> b in goalBooks[..i]
      invariant forall b :: b in progress ==> progress[b] == {}
    {
      assert goalBooks[..i + 1] == goalBooks[..i] + [goalBooks[i]];
      if goalBooks[i] !in progress {
        keys := keys + [goalBooks[i]];
      }
      progress := progress[goalBooks[i] := {}];
      i := i + 1;
    }
    assert goalBooks[..i] == goalBooks;
    EmptyProgress(goalBooks, progress);
  }

  lemma EmptyProgress(books: seq<string>, m: map<string, set<int>>)
    requires forall b :: b in m <==> b in books
    requires forall b :: b in m ==> m[b] == {}
    ensures m == map b | b in books :: {}
  {
    var e := map b | b in books :: {};
    assert m.Keys == e.Keys;
    forall b | b in m ensures m[b] == e[b] {
    }
  }

  /** The inner loop of get_user_reading_stats over the entries of one day. */
  method AddDay(progress: map<string, set<int>>, day: seq<Entry>) returns (r: map<string, set<int>>)
    ensures r.Keys == progress.Keys
    ensures forall b :: b in r ==> r[b] == progress[b] + ChaptersOn(day, b)
  {
    r := progress;
    var i := 0;
    while i < |day|
      invariant 0 <= i <= |day| && r.Keys == progress.Keys
      invariant forall b :: b in r ==> r[b] == progress[b] + ChaptersOn(day[..i], b)
    {
      forall b | b in r {
        ChaptersOnSnoc(day, i, b);
      }
      var book := day[i].book;
      if book in r {
        r := r[book := r[book] + Elems(day[i].chapters)];
      }
      i := i + 1;
    }
    assert day[..i] == day;
  }

  /**
    The second loop of get_user_reading_stats: the chapters of every entry
    whose book is a key of `progress` are added to that key's set.
  */
  method CollectProgress(log: Log, progress: map<string, set<int>>) returns (r: map<string, set<int>>)
    ensures r.Keys == progress.Keys
    ensures forall b :: b in r ==> r[b] == progress[b] + ChaptersRead(log, b)
  {
    r := progress;
    var todo := log.Keys;
    while todo != {}
      invariant todo <= log.Keys && r.Keys == progress.Keys
      invariant forall b :: b in r ==> r[b] == progress[b] + ChaptersIn(log, log.Keys - todo, b)
      decreases |todo|
    {
      var d := Choose(todo);
      ghost var done := log.Keys - todo;
      r := AddDay(r, log[d]);
      forall b | b in r {
        ChaptersInAdd(log, done, d, b);
      }
      assert log.Keys - (todo - {d}) == done + {d};
      todo := todo - {d};
    }
    assert log.Keys - todo == log.Keys;
  }

  /** The third loop of get_user_reading_stats: total chapters and completed books over the keys. */
  method Tally(ghost log: Log, keys: seq<string>, progress: map<string, set<int>>) returns (total: int, completed: int)
    requires Known(keys)
    requires forall b :: b in keys ==> b in progress && progress[b] == ChaptersRead(log, b)
    ensures total == TotalRead(log, keys) && completed == CompletedBooks(log, keys)
  {
    total, completed := 0, 0;
    var i := 0;
    while i < |keys|
      invariant 0 <= i <= |keys|
      invariant total == TotalRead(log, keys[..i]) && completed == CompletedBooks(log, keys[..i])
    {
      assert keys[..i + 1][..i] == keys[..i];
      var chapters := progress[keys[i]];
      total := total + |chapters|;
      if |chapters| >= BibleChapters[keys[i]] {
        completed := completed + 1;
      }
      i := i + 1;
    }
    assert keys[..i] == keys;
  }

  /** What get_user_reading_stats returns; progress lists become sets here. */
  datatype Stats = Stats(totalChapters: int, completedBooks: int, readingDays: int,
                         progress: map<string, set<int>>, streak: int)

  /** The statistics of a log against the books of its group's goal. */
  method LogStats(log: Log, goalBooks: seq<string>, today: int) returns (s: Stats)
    requires Known(goalBooks)
    ensures s.totalChapters == TotalRead(log, Dedup(goalBooks))
    ensures s.completedBooks == CompletedBooks(log, Dedup(goalBooks))
    ensures s.readingDays == |log|
    ensures s.progress == Progress(log, goalBooks)
    ensures IsStreak(log, today, s.streak)
  {
    var keys, progress := InitProgress(goalBooks);
    progress := CollectProgress(log, progress);
    assert progress == Progress(log, goalBooks) by {
      assert progress.Keys == Progress(log, goalBooks).Keys;
      forall b | b in progress ensures progress[b] == ChaptersRead(log, b) {
        assert {} + ChaptersRead(log, b) == ChaptersRead(log, b);
      }
    }
    var total, completed := Tally(log, keys, progress);
    var streak := ReadingStreak(log, today);
    s := Stats(total, completed, |log|, progress, streak);
  }
}
