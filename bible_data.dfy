/**
  The stored data of pages/2_BibleReading.py as far as reading is concerned:
  the reading records of every user in every group, the check-ins of the
  older format and the groups with their reading goals. Loading migrates the
  older format; recording merges a day's chapters; the page then asks for the
  last chapter read, the next chapter to read and the statistics of a user.
*/
module BibleData {
  import opened Wrappers
  import opened BibleCanon
  import opened BibleDay
  import opened BibleRecords

  /** reading_records: user -> group -> log. */
  type Records = map<string, map<string, Log>>

  /** checkins of the older format: user -> group -> day -> its "checked" flag. */
  type Checkins = map<string, map<string, map<int, bool>>>

  /** A reading goal: its type, its books, its length in days and its first day. */
  datatype Goal = Goal(kind: string, books: seq<string>, durationDays: int, startDate: Option<int>)

  /** The reading-related part of a group: its first day and its goal. */
  datatype Group = Group(startDate: Option<int>, goal: Option<Goal>)

  /** What a checked day of the older format becomes: Genesis chapter 1. */
  const GenesisOne: seq<Entry> := [Entry("창세기", [1])]

  function GetOr<K, V>(m: map<K, V>, k: K, default: V): (v: V)
    ensures k in m ==> v == m[k]
    ensures k !in m ==> v == default
  {
    if k in m then m[k] else default
  }

  /** The days whose check-in is marked as checked. */
  function CheckedDays(checks: map<int, bool>): set<int> {
    set d | d in checks && checks[d]
  }

  /** A group's log after migration: every checked day is replaced by Genesis 1. */
  function ConvertedLog(log: Log, checks: map<int, bool>): Log {
    map d | d in log.Keys + CheckedDays(checks) :: if d in CheckedDays(checks) then GenesisOne else log[d]
  }

  /** A user's logs after migration: every group with check-ins gets a converted log. */
  function ConvertedUser(logs: map<string, Log>, checks: map<string, map<int, bool>>): map<string, Log> {
    map g | g in logs.Keys + checks.Keys ::
      if g in checks then ConvertedLog(GetOr(logs, g, map[]), checks[g]) else logs[g]
  }

  /** All reading records after migration: every user with check-ins gets converted logs. */
  function ConvertedRecords(recs: Records, checkins: Checkins): Records {
    map u | u in recs.Keys + checkins.Keys ::
      if u in checkins then ConvertedUser(GetOr(recs, u, map[]), checkins[u]) else recs[u]
  }

  lemma ConvertedLogPointwise(log: Log, checks: map<int, bool>, r: Log)
    requires forall d :: d in r <==> d in log || (d in checks && checks[d])
    requires forall d :: d in r ==> r[d] == if d in checks && checks[d] then GenesisOne else log[d]
    ensures r == ConvertedLog(log, checks)
  {
    var c := ConvertedLog(log, checks);
    forall d ensures d in r <==> d in c {
      if d in r { assert d in c; }
      if d in c { assert d in r; }
    }
    assert r.Keys == c.Keys;
    forall d | d in r ensures r[d] == c[d] {
    }
  }

  /** The innermost loop of migrate_data_structure, over the check-ins of one group. */
  method ConvertLog(log: Log, checks: map<int, bool>) returns (r: Log)
    ensures r == ConvertedLog(log, checks)
  {
    r := log;
    var todo := checks.Keys;
    while todo != {}
      invariant todo <= checks.Keys
      invariant forall d :: d in r <==> d in log || (d in checks && d !in todo && checks[d])
      invariant forall d :: d in r ==> r[d] == if d in checks && d !in todo && checks[d] then GenesisOne else log[d]
      decreases |todo|
    {
      var d := Choose(todo);
      r := if checks[d] then r[d := GenesisOne] else r;
      todo := todo - {d};
    }
    ConvertedLogPointwise(log, checks, r);
  }

  lemma ConvertedUserPointwise(logs: map<string, Log>, checks: map<string, map<int, bool>>, r: map<string, Log>)
    requires forall g :: g in r <==> g in logs || g in checks
    requires forall g :: g in r ==> r[g] == if g in checks then ConvertedLog(GetOr(logs, g, map[]), checks[g]) else logs[g]
    ensures r == ConvertedUser(logs, checks)
  {
    var c := ConvertedUser(logs, checks);
    forall g ensures g in r <==> g in c {
      if g in r { assert g in c; }
      if g in c { assert g in r; }
    }
    assert r.Keys == c.Keys;
    forall g | g in r ensures r[g] == c[g] {
    }
  }

  /** The middle loop of migrate_data_structure, over the groups of one user. */
  method ConvertUser(logs: map<string, Log>, checks: map<string, map<int, bool>>) returns (r: map<string, Log>)
    ensures r == ConvertedUser(logs, checks)
  {
    r := logs;
    var todo := checks.Keys;
    while todo != {}
      invariant todo <= checks.Keys
      invariant forall g :: g in r <==> g in logs || (g in checks && g !in todo)
      invariant forall g :: g in r ==>
                  r[g] == if g in checks && g !in todo then ConvertedLog(GetOr(logs, g, map[]), checks[g]) else logs[g]
      decreases |todo|
    {
      var g := Choose(todo);
      var log := ConvertLog(GetOr(r, g, map[]), checks[g]);
      r := r[g := log];
      todo := todo - {g};
    }
    ConvertedUserPointwise(logs, checks, r);
  }

  lemma ConvertedRecordsPointwise(recs: Records, checkins: Checkins, r: Records)
    requires forall u :: u in r <==> u in recs || u in checkins
    requires forall u :: u in r ==> r[u] == if u in checkins then ConvertedUser(GetOr(recs, u, map[]), checkins[u]) else recs[u]
    ensures r == ConvertedRecords(recs, checkins)
  {
    var c := ConvertedRecords(recs, checkins);
    forall u ensures u in r <==> u in c {
      if u in r { assert u in c; }
      if u in c { assert u in r; }
    }
    assert r.Keys == c.Keys;
    forall u | u in r ensures r[u] == c[u] {
    }
  }

  /** The outer loop of migrate_data_structure, over the users with check-ins. */
  method ConvertRecords(recs: Records, checkins: Checkins) returns (r: Records)
    ensures r == ConvertedRecords(recs, checkins)
  {
    r := recs;
    var todo := checkins.Keys;
    while todo != {}
      invariant todo <= checkins.Keys
      invariant forall u :: u in r <==> u in recs || (u in checkins && u !in todo)
      invariant forall u :: u in r ==>
                  r[u] == if u in checkins && u !in todo then ConvertedUser(GetOr(recs, u, map[]), checkins[u]) else recs[u]
      decreases |todo|
    {
      var u := Choose(todo);
      var logs := ConvertUser(GetOr(r, u, map[]), checkins[u]);
      r := r[u := logs];
      todo := todo - {u};
    }
    ConvertedRecordsPointwise(recs, checkins, r);
  }

  /** A group that has been through migration. */
  predicate Complete(g: Group) {
    g.startDate.Some? && g.goal.Some? && g.goal.value.startDate.Some?
  }

  /**
    A group after migration: the start date defaults to today, the goal to
    the whole Bible in 365 days from the group's start date, and the goal's
    start date to the group's. The result is complete, keeps whatever the
    group already had, and a group without a goal gets the whole-Bible goal
    starting on the group's start date.
  */
  function WithDefaults(g: Group, today: int): (h: Group)
    ensures Complete(h)
    ensures g.startDate.Some? ==> h.startDate == g.startDate
    ensures g.goal.Some? ==> h.goal.value.(startDate := None) == g.goal.value.(startDate := None)
    ensures g.goal.Some? && g.goal.value.startDate.Some? ==> h.goal == g.goal
    ensures g.goal.None? ==> h.goal == Some(Goal("전체", AllBooks, 365, h.startDate))
  {
    var start := if g.startDate.Some? then g.startDate.value else today;
    var goal := if g.goal.Some? then g.goal.value else Goal("전체", AllBooks, 365, Some(start));
    Group(Some(start), Some(if goal.startDate.Some? then goal else goal.(startDate := Some(start))))
  }

  /** Migrating a complete group changes nothing, whatever day it runs on. */
  lemma WithDefaultsIdempotent(g: Group, today: int, later: int)
    ensures WithDefaults(WithDefaults(g, today), later) == WithDefaults(g, today)
  {
  }

  /** Migration turns every checked day into a day read, and keeps every day that was not checked. */
  lemma ConvertedLogDays(log: Log, checks: map<int, bool>)
    ensures var r := ConvertedLog(log, checks);
            r.Keys == log.Keys + CheckedDays(checks) &&
            (forall d :: d in CheckedDays(checks) ==> ReadOn(r, d) && r[d] == GenesisOne) &&
            (forall d :: d in log && d !in CheckedDays(checks) ==> r[d] == log[d])
  {
  }

  /** Without check-ins, the records are unchanged. */
  lemma ConvertedNothing(recs: Records)
    ensures ConvertedRecords(recs, map[]) == recs
  {
    ConvertedRecordsPointwise(recs, map[], recs);
  }

  /** The last loop of migrate_data_structure: every group gets its defaults. */
  method CompleteGroups(groups: map<string, Group>, today: int) returns (r: map<string, Group>)
    ensures r == map g | g in groups :: WithDefaults(groups[g], today)
    ensures forall g :: g in r ==> Complete(r[g])
  {
    r := groups;
    var todo := groups.Keys;
    while todo != {}
      invariant todo <= groups.Keys == r.Keys
      invariant forall g :: g in r ==> r[g] == if g in todo then groups[g] else WithDefaults(groups[g], today)
      decreases |todo|
    {
      var g := Choose(todo);
      r := r[g := WithDefaults(r[g], today)];
      todo := todo - {g};
    }
  }

  /**
    The reading data of the page. `records` is None and `checkins` Some in
    the older format; migration brings them to the current one.
  */
  class ReadingData {
    var records: Option<Records>
    var checkins: Option<Checkins>
    var groups: map<string, Group>

    /** The records are present and every group has been through migration. */
    predicate Migrated()
      reads this
    {
      records.Some? && checkins.None? && forall g :: g in groups ==> Complete(groups[g])
    }

    /** The log of a user in a group, if the records have one. */
    function LogOf(user: string, group: string): (log: Option<Log>)
      reads this
      ensures log.Some? <==> records.Some? && user in records.value && group in records.value[user]
    {
      if records.Some? && user in records.value && group in records.value[user]
      then Some(records.value[user][group]) else None
    }

    /** The log of a user in a group, or the empty log. */
    function LogOrEmpty(user: string, group: string): Log
      reads this
    {
      if LogOf(user, group).Some? then LogOf(user, group).value else map[]
    }

    /**
      migrate_data_structure: reading_records is added when missing, the
      check-ins are converted and removed, and every group is completed.
    */
    method Migrate(today: int)
      modifies this
      ensures Migrated()
      ensures var recs := old(records);
              records == Some(if old(checkins).Some?
                              then ConvertedRecords(if recs.Some? then recs.value else map[], old(checkins).value)
                              else if recs.Some? then recs.value else map[])
      ensures groups == map g | g in old(groups) :: WithDefaults(old(groups)[g], today)
    {
      var recs := if records.Some? then records.value else map[];
      if checkins.Some? {
        recs := ConvertRecords(recs, checkins.value);
        checkins := None;
      }
      var completed := CompleteGroups(groups, today);
      records, groups := Some(recs), completed;
    }

    /**
      record_reading: the user's log in the group gets today's entries merged
      with the new chapters of `book`; missing levels are created empty.
    */
    method RecordReading(user: string, group: string, book: string, chapters: seq<int>, today: int)
      requires records.Some?
      modifies this
      ensures checkins == old(checkins) && groups == old(groups)
      ensures var recs := old(records).value;
              var logs := GetOr(recs, user, map[]);
              var log := GetOr(logs, group, map[]);
              records == Some(recs[user := logs[group := log[today := MergedDay(GetOr(log, today, []), book, chapters)]]])
    {
      var recs := records.value;
      var logs := GetOr(recs, user, map[]);
      var log := GetOr(logs, group, map[]);
      var day := MergeIntoDay(GetOr(log, today, []), book, chapters);
      records := Some(recs[user := logs[group := log[today := day]]]);
    }

    /** get_last_read_chapter: 0 without a log, otherwise the largest chapter of `book` read. */
    method LastReadChapter(user: string, group: string, book: string) returns (last: int)
      requires ChaptersListed(LogOrEmpty(user, group), book)
      ensures IsLastRead(LogOrEmpty(user, group), book, last)
    {
      var log := LogOf(user, group);
      if log.None? {
        last := 0;
        assert ChaptersRead(map[], book) == {};
      } else {
        last := LastRead(log.value, book);
      }
    }

    /** get_next_suggested_chapter: the chapter after the last read, at most the book's last. */
    method NextSuggestedChapter(user: string, group: string, book: string) returns (next: int)
      requires book in BibleChapters
      requires ChaptersListed(LogOrEmpty(user, group), book)
      ensures next <= BibleChapters[book]
      ensures forall last :: IsLastRead(LogOrEmpty(user, group), book, last) ==>
                next == NextChapter(last, BibleChapters[book])
    {
      var last := LastReadChapter(user, group, book);
      next := NextChapter(last, BibleChapters[book]);
      forall other | IsLastRead(LogOrEmpty(user, group), book, other)
        ensures next == NextChapter(other, BibleChapters[book])
      {
        IsLastReadUnique(LogOrEmpty(user, group), book, last, other);
      }
    }

    /** The books the statistics count: the goal's books, or ALL_BOOKS without a goal. */
    function GoalBooksOf(group: string): seq<string>
      reads this
      requires group in groups
    {
      var g := groups[group];
      if g.goal.Some? then g.goal.value.books else AllBooks
    }

    /**
      get_user_reading_stats: all zero without a log; otherwise the chapters
      read and books completed among the goal's books, the number of days
      recorded and the streak.
    */
    method UserStats(user: string, group: string, today: int) returns (s: Stats)
      requires LogOf(user, group).Some? ==> group in groups && Known(GoalBooksOf(group))
      ensures LogOf(user, group).None? ==> s == Stats(0, 0, 0, map[], 0)
      ensures LogOf(user, group).Some? ==>
                var log := LogOf(user, group).value;
                var books := GoalBooksOf(group);
                s.totalChapters == TotalRead(log, Dedup(books)) &&
                s.completedBooks == CompletedBooks(log, Dedup(books)) &&
                s.readingDays == |log| &&
                s.progress == Progress(log, books) &&
                IsStreak(log, today, s.streak)
    {
      var log := LogOf(user, group);
      if log.None? {
        return Stats(0, 0, 0, map[], 0);
      }
      s := LogStats(log.value, GoalBooksOf(group), today);
    }
  }

  /** After recording, today is a day read and the book's chapters include the new ones. */
  lemma RecordedToday(recs: Records, user: string, group: string, book: string, chapters: seq<int>, today: int, b: string)
    ensures var logs := GetOr(recs, user, map[]);
            var log := GetOr(logs, group, map[]);
            var log' := log[today := MergedDay(GetOr(log, today, []), book, chapters)];
            ReadOn(log', today) &&
            ChaptersRead(log', b) == ChaptersRead(log, b) + (if b == book then Elems(chapters) else {})
  {
    var log := GetOr(GetOr(recs, user, map[]), group, map[]);
    RecordedChapters(log, today, book, chapters, b);
    MergedDayKeepsOthers(GetOr(log, today, []), book, chapters);
  }
}
