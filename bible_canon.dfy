/**
  The Bible canon of pages/2_BibleReading.py: the books of each testament by
  category (BIBLE_STRUCTURE), their chapter counts (BIBLE_CHAPTERS), the flat
  book list ALL_BOOKS, the books of a reading goal and the daily chapter
  quota of a goal.
*/
module BibleCanon {

  /** One category of books of a testament, e.g. the Pentateuch. */
  datatype Category = Category(name: string, books: seq<string>)

  const OldTestament: seq<Category> := [
    Category("모세오경", ["창세기", "출애굽기", "레위기", "민수기", "신명기"]),
    Category("역사서", ["여호수아", "사사기", "룻기", "사무엘상", "사무엘하", "열왕기상", "열왕기하",
                       "역대상", "역대하", "에스라", "느헤미야", "에스더"]),
    Category("시가서", ["욥기", "시편", "잠언", "전도서", "아가"]),
    Category("대선지서", ["이사야", "예레미야", "예레미야애가", "에스겔", "다니엘"]),
    Category("소선지서", ["호세아", "요엘", "아모스", "오바댜", "요나", "미가", "나훔", "하박국",
                         "스바냐", "학개", "스가랴", "말라기"])
  ]

  const NewTestament: seq<Category> := [
    Category("복음서", ["마태복음", "마가복음", "누가복음", "요한복음"]),
    Category("역사서", ["사도행전"]),
    Category("바울서신", ["로마서", "고린도전서", "고린도후서", "갈라디아서", "에베소서",
                         "빌립보서", "골로새서", "데살로니가전서", "데살로니가후서",
                         "디모데전서", "디모데후서", "디도서", "빌레몬서"]),
    Category("일반서신", ["히브리서", "야고보서", "베드로전서", "베드로후서",
                         "요한일서", "요한이서", "요한삼서", "유다서"]),
    Category("예언서", ["요한계시록"])
  ]

  /** BIBLE_STRUCTURE: the two testaments, Old first. */
  const Structure: seq<seq<Category>> := [OldTestament, NewTestament]

  /** A book's number of chapters: every book has at least one. */
  type ChapterCount = n: int | n >= 1 witness 1

  /** BIBLE_CHAPTERS: the number of chapters of each book. */
  const BibleChapters: map<string, ChapterCount> := map[
    "창세기" := 50, "출애굽기" := 40, "레위기" := 27, "민수기" := 36, "신명기" := 34,
    "여호수아" := 24, "사사기" := 21, "룻기" := 4, "사무엘상" := 31, "사무엘하" := 24,
    "열왕기상" := 22, "열왕기하" := 25, "역대상" := 29, "역대하" := 36, "에스라" := 10,
    "느헤미야" := 13, "에스더" := 10, "욥기" := 42, "시편" := 150, "잠언" := 31,
    "전도서" := 12, "아가" := 8, "이사야" := 66, "예레미야" := 52, "예레미야애가" := 5,
    "에스겔" := 48, "다니엘" := 12, "호세아" := 14, "요엘" := 3, "아모스" := 9,
    "오바댜" := 1, "요나" := 4, "미가" := 7, "나훔" := 3, "하박국" := 3,
    "스바냐" := 3, "학개" := 2, "스가랴" := 14, "말라기" := 4,
    "마태복음" := 28, "마가복음" := 16, "누가복음" := 24, "요한복음" := 21,
    "사도행전" := 28, "로마서" := 16, "고린도전서" := 16, "고린도후서" := 13,
    "갈라디아서" := 6, "에베소서" := 6, "빌립보서" := 4, "골로새서" := 4,
    "데살로니가전서" := 5, "데살로니가후서" := 3, "디모데전서" := 6, "디모데후서" := 4,
    "디도서" := 3, "빌레몬서" := 1, "히브리서" := 13, "야고보서" := 5,
    "베드로전서" := 5, "베드로후서" := 3, "요한일서" := 5, "요한이서" := 1,
    "요한삼서" := 1, "유다서" := 1, "요한계시록" := 22
  ]

  /** The books of the categories, in order. */
  function Books(cats: seq<Category>): seq<string> {
    if cats == [] then [] else Books(cats[..|cats| - 1]) + cats[|cats| - 1].books
  }

  /** The books of the testaments, in order. */
  function AllOf(testaments: seq<seq<Category>>): seq<string> {
    if testaments == [] then [] else AllOf(testaments[..|testaments| - 1]) + Books(testaments[|testaments| - 1])
  }

  /** ALL_BOOKS. */
  const AllBooks: seq<string> := AllOf(Structure)

  /**
    The module-level loop that builds ALL_BOOKS: every category list of every
    testament, extended in order.
  */
  method CollectBooks(testaments: seq<seq<Category>>) returns (books: seq<string>)
    ensures books == AllOf(testaments)
    ensures forall t, c, b :: 0 <= t < |testaments| && 0 <= c < |testaments[t]| && b in testaments[t][c].books ==> b in books
  {
    books := [];
    var t := 0;
    while t < |testaments|
      invariant 0 <= t <= |testaments|
      invariant books == AllOf(testaments[..t])
    {
      var c := 0;
      while c < |testaments[t]|
        invariant 0 <= c <= |testaments[t]|
        invariant books == AllOf(testaments[..t]) + Books(testaments[t][..c])
      {
        assert testaments[t][..c + 1][..c] == testaments[t][..c];
        books := books + testaments[t][c].books;
        c := c + 1;
      }
      assert testaments[t][..c] == testaments[t];
      assert testaments[..t + 1][..t] == testaments[..t];
      t := t + 1;
    }
    assert testaments[..t] == testaments;
    forall t, c, b | 0 <= t < |testaments| && 0 <= c < |testaments[t]| && b in testaments[t][c].books
      ensures b in books
    {
      AllOfContains(testaments, t, c, b);
    }
  }

  lemma {:induction false} BooksContains(cats: seq<Category>, c: int, b: string)
    requires 0 <= c < |cats| && b in cats[c].books
    ensures b in Books(cats)
    decreases |cats|
  {
    if c < |cats| - 1 {
      BooksContains(cats[..|cats| - 1], c, b);
    }
  }

  lemma {:induction false} AllOfContains(testaments: seq<seq<Category>>, t: int, c: int, b: string)
    requires 0 <= t < |testaments| && 0 <= c < |testaments[t]| && b in testaments[t][c].books
    ensures b in AllOf(testaments)
    decreases |testaments|
  {
    if t < |testaments| - 1 {
      AllOfContains(testaments[..|testaments| - 1], t, c, b);
    } else {
      BooksContains(testaments[t], c, b);
    }
  }

  /** ALL_BOOKS is the Old Testament followed by the New. */
  lemma AllBooksSplit()
    ensures AllBooks == Books(OldTestament) + Books(NewTestament)
  {
    assert Structure[..1] == [OldTestament];
    assert AllOf([OldTestament]) == Books(OldTestament);
  }

  /**
    get_reading_goal_books: the Old Testament for "구약", the New Testament
    for "신약", the custom list for "사용자정의" when it is non-empty, and
    ALL_BOOKS otherwise ("전체" and any other value). An absent custom list
    is the empty list here. Only a non-empty custom list can name books
    outside the canon.
  */
  function GoalBooks(goalType: string, custom: seq<string>): (books: seq<string>)
    ensures goalType == "사용자정의" && custom != [] ==> books == custom
    ensures goalType != "사용자정의" || custom == [] ==> forall b :: b in books ==> b in AllBooks
    ensures goalType == "구약" ==> books == Books(OldTestament)
    ensures goalType == "신약" ==> books == Books(NewTestament)
    ensures goalType != "구약" && goalType != "신약" && !(goalType == "사용자정의" && custom != []) ==>
              books == AllBooks
  {
    AllBooksSplit();
    if goalType == "전체" then AllBooks
    else if goalType == "구약" then Books(OldTestament)
    else if goalType == "신약" then Books(NewTestament)
    else if goalType == "사용자정의" && custom != [] then custom
    else AllBooks
  }

  /** The two testament goals together are the whole-Bible goal, in order. */
  lemma TestamentGoalsMakeWhole()
    ensures GoalBooks("구약", []) + GoalBooks("신약", []) == GoalBooks("전체", []) == AllBooks
  {
    AllBooksSplit();
  }

  /** Every book with a chapter count. */
  ghost predicate Known(books: seq<string>) {
    forall b :: b in books ==> b in BibleChapters
  }

  /** sum(BIBLE_CHAPTERS[book] for book in books): at least one chapter per listed book. */
  function TotalChapters(books: seq<string>): (total: int)
    requires Known(books)
    ensures total >= |books|
  {
    if books == [] then 0
    else TotalChapters(books[..|books| - 1]) + BibleChapters[books[|books| - 1]]
  }

  /** The chapter total of two lists is the sum of their totals. */
  lemma {:induction false} TotalChaptersAppend(a: seq<string>, b: seq<string>)
    requires Known(a) && Known(b)
    ensures Known(a + b) && TotalChapters(a + b) == TotalChapters(a) + TotalChapters(b)
    decreases |b|
  {
    if b != [] {
      var b' := b[..|b| - 1];
      assert (a + b)[..|a + b| - 1] == a + b';
      TotalChaptersAppend(a, b');
    } else {
      assert a + b == a;
    }
  }

  /**
    calculate_daily_chapters: the chapters of the goal divided by its
    duration in days, rounded down, and at least one.
  */
  function DailyChapters(books: seq<string>, durationDays: int): (daily: int)
    requires Known(books) && durationDays > 0
    ensures daily >= 1
    ensures TotalChapters(books) < 2 * durationDays ==> daily == 1
    ensures TotalChapters(books) >= durationDays ==>
              daily * durationDays <= TotalChapters(books) < (daily + 1) * durationDays
  {
    var t := TotalChapters(books);
    DivRange(t, durationDays);
    var q := t / durationDays;
    if q < 1 then 1 else q
  }

  /** Where the quotient lies: below 2 under twice the divisor, at least 1 from the divisor on. */
  lemma DivRange(t: int, d: int)
    requires 0 < d
    ensures (t / d) * d <= t < (t / d + 1) * d
    ensures t < 2 * d ==> t / d < 2
    ensures t >= d ==> t / d >= 1
  {
    DivBelow(t, d);
    DivAbove(t, d);
    var q := t / d;
    if t < 2 * d && q >= 2 {
      MulMonotone(d, 2, q);
      assert false;
    }
    if t >= d && q < 1 {
      MulMonotone(d, q + 1, 1);
      assert false;
    }
  }

  /** A longer plan never asks for more chapters a day. */
  lemma DailyChaptersMonotone(books: seq<string>, d1: int, d2: int)
    requires Known(books) && 0 < d1 <= d2
    ensures DailyChapters(books, d2) <= DailyChapters(books, d1)
  {
    var t := TotalChapters(books);
    if t >= 0 {
      DivMonotone(t, d1, d2);
    }
  }

  lemma DivMonotone(t: int, d1: int, d2: int)
    requires 0 <= t && 0 < d1 <= d2
    ensures t / d2 <= t / d1
  {
    var q1, q2 := t / d1, t / d2;
    assert q2 * d2 <= t by { DivBelow(t, d2); }
    assert q2 >= 0;
    MulMonotone(q2, d1, d2);
    if q2 > q1 {
      MulMonotone(d1, q1 + 1, q2);
      DivAbove(t, d1);
    }
  }

  lemma DivBelow(t: int, d: int)
    requires 0 < d
    ensures (t / d) * d <= t
  {
  }

  lemma DivAbove(t: int, d: int)
    requires 0 < d
    ensures t < (t / d + 1) * d
  {
  }

  lemma MulMonotone(a: int, b: int, c: int)
    requires 0 <= a && b <= c
    ensures a * b <= a * c && b * a <= c * a
  {
  }
}
