/** A climb post and its calendar date. */
module PostModel {
  import opened Wrappers
  import opened Numerals
  import opened Statistics

  datatype PostDate = PostDate(year: Int64, month: Int64, day: Int64)

  /** A logged climb. Its `id` is its `postID`. */
  datatype Post = Post(
    postID: string,
    userID: string,
    username: string,
    attempts: Int64,
    date: PostDate,
    grade: Grade,
    gymName: string,
    location: string,
    notes: string)
  {
    function Id(): string { postID }
  }

  predicate NonNegative(d: PostDate) { d.year >= 0 && d.month >= 0 && d.day >= 0 }

  /** `PostDate.toString()`: year, month and day in decimal, joined by `-`, unpadded. */
  function DateToString(d: PostDate): string {
    IntToString(d.year) + "-" + IntToString(d.month) + "-" + IntToString(d.day)
  }

  /** The date step of the post parsers: split on `-`, require exactly three pieces,
      and read each with `Int(_:)`. */
  function ParseDate(s: string): (r: Option<PostDate>)
    ensures r.Some? ==> |Split(s, '-')| == 3
  {
    var parts := Split(s, '-');
    if |parts| != 3 then None
    else match (ParseInt(parts[0]), ParseInt(parts[1]), ParseInt(parts[2]))
      case (Some(y), Some(m), Some(d)) => Some(PostDate(y, m, d))
      case _ => None
  }

  /** A written date with non-negative parts is read back unchanged. */
  lemma DateRoundTrip(d: PostDate)
    requires NonNegative(d)
    ensures Split(DateToString(d), '-') == [NatToString(d.year), NatToString(d.month), NatToString(d.day)]
    ensures ParseDate(DateToString(d)) == Some(d)
  {
    SplitThree(NatToString(d.year), NatToString(d.month), NatToString(d.day));
    ParseIntRoundTrip(d.year);
    ParseIntRoundTrip(d.month);
    ParseIntRoundTrip(d.day);
  }

  /** `toString` tells non-negative dates apart. */
  lemma DateToStringInjective(d: PostDate, e: PostDate)
    requires NonNegative(d) && NonNegative(e)
    requires DateToString(d) == DateToString(e)
    ensures d == e
  {
    DateRoundTrip(d);
    DateRoundTrip(e);
  }

  lemma NatToString2025()
    ensures NatToString(2025) == "2025"
  {
    assert NatToString(2) == "2";
    assert NatToString(20) == "20";
    assert NatToString(202) == "202";
  }

  /** A doubled separator, as a negative middle part prints, splits like a single one. */
  lemma SplitDoubled(a: string, b: string, c: string)
    requires |a| >= 1 && |b| >= 1 && |c| >= 1
    requires '-' !in a && '-' !in b && '-' !in c
    ensures Split(a + "--" + b + "-" + c, '-') == [a, b, c]
  {
    var sep := '-';
    var t := b + ([sep] + c);
    assert a + "--" + b + "-" + c == a + ([sep] + ([sep] + t));
    calc {
      Split(a + ([sep] + ([sep] + t)), sep);
      { SplitPiece(a, [sep] + ([sep] + t), sep); }
      [a] + Split([sep] + ([sep] + t), sep);
      { SplitSkip([sep] + t, sep); }
      [a] + Split([sep] + t, sep);
      { SplitSkip(t, sep); SplitTwo(b, c); }
      [a] + [b, c];
    }
  }

  lemma SplitNegativeMonth()
    ensures Split("2025--1-5", '-') == ["2025", "1", "5"]
  {
    SplitDoubled("2025", "1", "5");
    assert "2025" + "--" + "1" + "-" + "5" == "2025--1-5";
  }

  /** Why the round trip needs non-negative parts: a date with month -1 prints as
      `2025--1-5` ... */
  lemma NegativeMonthPrints()
    ensures DateToString(PostDate(2025, -1, 5)) == "2025--1-5"
  {
    NatToString2025();
    assert IntToString(-1) == "-1";
    assert IntToString(5) == "5";
  }

  /** ... the split drops the empty piece, and the date reads back with month 1. */
  lemma NegativeMonthReadsBackPositive()
    ensures ParseDate("2025--1-5") == Some(PostDate(2025, 1, 5))
  {
    NatToString2025();
    SplitNegativeMonth();
    ParseIntRoundTrip(2025);
    ParseIntRoundTrip(1);
    ParseIntRoundTrip(5);
  }
}
