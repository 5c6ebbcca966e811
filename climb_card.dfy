/**
 * The pure helpers of the activity card — the session title built from the hour and the
 * grade, the flash status — and its like button.
 */
module ClimbCard {
  import opened Numerals
  import opened Statistics

  /** `getTimeOfDay`, given the hour the card reads from the clock. */
  function TimeOfDay(hour: int): (s: string)
    ensures s == "Morning" <==> 5 <= hour < 12
    ensures s == "Afternoon" <==> 12 <= hour < 17
    ensures s == "Evening" <==> 17 <= hour < 21
    ensures s == "Night" <==> hour < 5 || hour >= 21
    ensures ' ' !in s
  {
    if 5 <= hour < 12 then "Morning"
    else if 12 <= hour < 17 then "Afternoon"
    else if 17 <= hour < 21 then "Evening"
    else "Night"
  }

  /** `getGradeEmoji`: the tier of a grade. */
  function GradeTier(g: Grade): (s: string)
    ensures s == "Beginner" <==> g in {Vb, V0toV1}
    ensures s == "Intermediate" <==> g in {V1toV2, V2toV4}
    ensures s == "Advanced" <==> g in {V4toV6, V6toV8}
    ensures s == "Elite" <==> g in {V8toV10, V10toV12, V12Plus}
    ensures ' ' !in s
  {
    match g
    case Vb | V0toV1 => "Beginner"
    case V1toV2 | V2toV4 => "Intermediate"
    case V4toV6 | V6toV8 => "Advanced"
    case V8toV10 | V10toV12 | V12Plus => "Elite"
  }

  /** The rank of a tier name, lowest first. */
  function TierRank(tier: string): nat {
    if tier == "Beginner" then 0
    else if tier == "Intermediate" then 1
    else if tier == "Advanced" then 2
    else 3
  }

  /** The tier never goes down along the difficulty order. */
  lemma TierMonotone(g: Grade, h: Grade)
    requires Index(g) <= Index(h)
    ensures TierRank(GradeTier(g)) <= TierRank(GradeTier(h))
  {
  }

  /** `generateClimbTitle`. */
  function ClimbTitle(hour: int, g: Grade): string {
    TimeOfDay(hour) + " " + GradeTier(g) + " Session"
  }

  /** The title names the time of day and the tier: two titles are equal exactly when
      both parts are. */
  lemma ClimbTitleParts(hour1: int, g1: Grade, hour2: int, g2: Grade)
    ensures ClimbTitle(hour1, g1) == ClimbTitle(hour2, g2) <==>
      TimeOfDay(hour1) == TimeOfDay(hour2) && GradeTier(g1) == GradeTier(g2)
  {
    var t1, t2 := TimeOfDay(hour1), TimeOfDay(hour2);
    var r1, r2 := GradeTier(g1), GradeTier(g2);
    if ClimbTitle(hour1, g1) == ClimbTitle(hour2, g2) {
      var x1, x2 := r1 + " Session", r2 + " Session";
      assert t1 + " " + x1 == ClimbTitle(hour1, g1);
      assert t2 + " " + x2 == ClimbTitle(hour2, g2);
      FirstWord(t1, t2, x1, x2);
      assert x1 == (t1 + " " + x1)[|t1| + 1..];
      assert x2 == (t2 + " " + x2)[|t2| + 1..];
      assert r1 == x1[..|r1|] && r2 == x2[..|r2|];
    }
  }

  /** A word without spaces followed by a space is determined by the string it starts. */
  lemma FirstWord(a: string, b: string, x: string, y: string)
    requires ' ' !in a && ' ' !in b
    requires a + " " + x == b + " " + y
    ensures a == b
  {
    var s := a + " " + x;
    FirstSpace(a, x);
    FirstSpace(b, y);
    assert |a| == |b|;
    assert a == s[..|a|] == b;
  }

  /** The first space of `a + " " + x` is the one after `a`. */
  lemma FirstSpace(a: string, x: string)
    requires ' ' !in a
    ensures (a + " " + x)[|a|] == ' '
    ensures forall i | 0 <= i < |a| :: (a + " " + x)[i] != ' '
  {
    forall i | 0 <= i < |a| ensures (a + " " + x)[i] != ' ' {
      assert (a + " " + x)[i] == a[i];
    }
  }

  /** The status cell: a climb sent on the first attempt is a flash. */
  function Status(attempts: Int64): (s: string)
    ensures s == "Flash!" <==> attempts == 1
    ensures s == "Sent" <==> attempts != 1
  {
    if attempts == 1 then "Flash!" else "Sent"
  }

  /** The like button's state. */
  datatype Likes = Likes(isLiked: bool, likeCount: int)

  /** One tap: flip the flag, then count up when it became liked and down otherwise. */
  function Tapped(s: Likes): (r: Likes)
    ensures r.isLiked != s.isLiked
    ensures r.isLiked ==> r.likeCount == s.likeCount + 1
    ensures !r.isLiked ==> r.likeCount == s.likeCount - 1
  {
    var liked := !s.isLiked;
    Likes(liked, s.likeCount + if liked then 1 else -1)
  }

  /** Two taps restore both the flag and the count. */
  lemma TappedTwice(s: Likes)
    ensures Tapped(Tapped(s)) == s
  {
  }

  class LikeButton {
    var isLiked: bool
    var likeCount: int

    /** Starting unliked at zero, the count is one exactly when the card is liked, so
        it never leaves {0, 1}. */
    predicate Valid()
      reads this
    {
      likeCount == if isLiked then 1 else 0
    }

    constructor ()
      ensures !isLiked && likeCount == 0 && Valid()
    {
      isLiked := false;
      likeCount := 0;
    }

    method Tap()
      modifies this
      ensures Likes(isLiked, likeCount) == Tapped(Likes(old(isLiked), old(likeCount)))
      ensures old(Valid()) ==> Valid()
    {
      isLiked := !isLiked;
      likeCount := likeCount + if isLiked then 1 else -1;
    }
  }
}
