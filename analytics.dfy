/**
 * The analytics view model: a user's posts are counted per grade and per gym, the
 * most visited gym is picked, and the grade counts are listed in difficulty order.
 */
module Analytics {
  import opened Wrappers
  import opened Statistics
  import opened PostModel
  import opened PostCodec
  import opened Store

  /** How often each value occurs in `ks`, as a dictionary holding only the values that
      occur; built by the same `[k, default: 0] += 1` step the view model uses. */
  function Tally<K>(ks: seq<K>): (m: map<K, int>)
    ensures forall k | k in m :: m[k] >= 1
    ensures |m| <= |ks|
    decreases |ks|
  {
    if ks == [] then map[]
    else
      var m := Tally(ks[..|ks| - 1]);
      var k := ks[|ks| - 1];
      m[k := (if k in m then m[k] else 0) + 1]
  }

  /** The keys of a tally are exactly the values that occur, and each maps to its
      number of occurrences. */
  lemma {:induction false} TallyCounts<K>(ks: seq<K>, k: K)
    ensures k in Tally(ks) <==> k in ks
    ensures k in Tally(ks) ==> Tally(ks)[k] == multiset(ks)[k]
    decreases |ks|
  {
    if ks != [] {
      var n := |ks| - 1;
      TallyCounts(ks[..n], k);
      assert ks == ks[..n] + [ks[n]];
      assert multiset(ks) == multiset(ks[..n]) + multiset{ks[n]};
    }
  }

  /** The sum of a dictionary's values. */
  ghost function SumValues<K>(m: map<K, int>): int
    decreases |m|
  {
    if |m| == 0 then 0
    else
      var k := Pick(m.Keys);
      m[k] + SumValues(m - {k})
  }

  ghost function Pick<K>(s: set<K>): K
    requires s != {}
  {
    var k :| k in s; k
  }

  /** The sum does not depend on which key is taken first. */
  lemma {:induction false} SumWithout<K>(m: map<K, int>, k: K)
    requires k in m
    ensures SumValues(m) == m[k] + SumValues(m - {k})
    decreases |m|
  {
    var j := Pick(m.Keys);
    if j != k {
      var mj := m - {j};
      var mk := m - {k};
      assert k in mj && j in mk;
      SumWithout(mj, k);
      SumWithout(mk, j);
      assert mj - {k} == mk - {j};
    }
  }

  /** Adding one to one key's count, or adding a new key with count one, adds one to
      the sum. */
  lemma SumIncrement<K>(m: map<K, int>, k: K)
    ensures SumValues(m[k := (if k in m then m[k] else 0) + 1]) == SumValues(m) + 1
  {
    var m' := m[k := (if k in m then m[k] else 0) + 1];
    SumWithout(m', k);
    if k in m {
      SumWithout(m, k);
      assert m' - {k} == m - {k};
    } else {
      assert m' - {k} == m;
    }
  }

  /** The counts of a tally add up to the number of values counted. */
  lemma {:induction false} TallySum<K>(ks: seq<K>)
    ensures SumValues(Tally(ks)) == |ks|
    decreases |ks|
  {
    if ks != [] {
      TallySum(ks[..|ks| - 1]);
      SumIncrement(Tally(ks[..|ks| - 1]), ks[|ks| - 1]);
    }
  }

  lemma TallyEmpty<K>(ks: seq<K>)
    ensures |Tally(ks)| == 0 <==> ks == []
  {
    if ks != [] {
      TallyCounts(ks, ks[0]);
    }
  }

  function GradesOf(ps: seq<Post>): (gs: seq<Grade>)
    ensures |gs| == |ps| && forall i | 0 <= i < |ps| :: gs[i] == ps[i].grade
  {
    seq(|ps|, i requires 0 <= i < |ps| => ps[i].grade)
  }

  function GymsOf(ps: seq<Post>): (gs: seq<string>)
    ensures |gs| == |ps| && forall i | 0 <= i < |ps| :: gs[i] == ps[i].gymName
  {
    seq(|ps|, i requires 0 <= i < |ps| => ps[i].gymName)
  }

  /** A gym whose visit count no other gym exceeds. */
  predicate MostVisited(gym: string, visits: map<string, int>) {
    gym in visits && forall k | k in visits :: visits[k] <= visits[gym]
  }

  /** `getSortedGradeBreakdown`: the breakdown's entries in difficulty order. */
  function SortedBreakdown(m: map<Grade, int>): (r: seq<(Grade, int)>)
    ensures forall i, j | 0 <= i < j < |r| :: Index(r[i].0) < Index(r[j].0)
    ensures forall g, v :: (g, v) in r <==> g in m && m[g] == v
  {
    BreakdownFrom(m, 0)
  }

  /** The entries of `m` for the grades from position `from` of the case list on. */
  function BreakdownFrom(m: map<Grade, int>, from: nat): (r: seq<(Grade, int)>)
    requires from <= |AllCases|
    ensures forall i | 0 <= i < |r| :: from <= Index(r[i].0)
    ensures forall i, j | 0 <= i < j < |r| :: Index(r[i].0) < Index(r[j].0)
    ensures forall g, v :: (g, v) in r <==> g in m && m[g] == v && from <= Index(g)
    decreases |AllCases| - from
  {
    if from == |AllCases| then []
    else
      var g := AllCases[from];
      assert Index(g) == from by { AllCasesComplete(); }
      var rest := BreakdownFrom(m, from + 1);
      if g in m then [(g, m[g])] + rest else rest
  }

  class AnalyticsVM {
    var isLoading: bool
    var errorMessage: Option<string>
    var totalClimbs: int
    var gradeBreakdown: map<Grade, int>
    var mostVisitedGym: string
    var gymVisits: map<string, int>
    var userPosts: seq<Post>

    constructor ()
      ensures !isLoading && errorMessage == None && totalClimbs == 0
      ensures gradeBreakdown == map[] && mostVisitedGym == "N/A" && gymVisits == map[]
      ensures userPosts == []
    {
      isLoading := false;
      errorMessage := None;
      totalClimbs := 0;
      gradeBreakdown := map[];
      mostVisitedGym := "N/A";
      gymVisits := map[];
      userPosts := [];
    }

    /** Loads the user's posts (the store answers the query for that user) and computes
        the statistics; a failed query sets the error and keeps everything else. */
    method FetchUserAnalytics(result: Query<Doc>)
      modifies this
      ensures result.QueryFailed? ==> errorMessage == Some("Failed to load analytics")
      ensures !result.QueryFailed? ==> errorMessage == None
      ensures result.Documents? ==>
        && userPosts == ParseForAnalytics(result.docs)
        && Computed(userPosts)
      ensures !result.Documents? ==>
        && userPosts == old(userPosts) && totalClimbs == old(totalClimbs)
        && gradeBreakdown == old(gradeBreakdown) && gymVisits == old(gymVisits)
        && mostVisitedGym == old(mostVisitedGym)
      ensures !isLoading
    {
      isLoading := true;
      errorMessage := None;
      match result
      case QueryFailed =>
        errorMessage := Some("Failed to load analytics");
        isLoading := false;
      case NoSnapshot =>
        isLoading := false;
      case Documents(documents) =>
        userPosts := ParseForAnalytics(documents);
        ComputeAnalytics();
        isLoading := false;
    }

    /** The statistics fields hold the figures for `ps`. */
    predicate Computed(ps: seq<Post>)
      reads this
    {
      && totalClimbs == |ps|
      && gradeBreakdown == Tally(GradesOf(ps))
      && gymVisits == Tally(GymsOf(ps))
      && (if |gymVisits| == 0 then mostVisitedGym == "N/A" else MostVisited(mostVisitedGym, gymVisits))
    }

    /** Recounts everything from `userPosts`, starting from empty dictionaries. */
    method ComputeAnalytics()
      modifies this
      ensures Computed(userPosts)
      ensures userPosts == old(userPosts) && isLoading == old(isLoading)
      ensures errorMessage == old(errorMessage)
    {
      var ps := userPosts;
      totalClimbs := |ps|;
      gradeBreakdown := CountGrades(ps);
      gymVisits := CountGyms(ps);
      var best := MostVisitedOf(gymVisits);
      if best.Some? {
        mostVisitedGym := best.value;
      } else {
        mostVisitedGym := "N/A";
      }
    }
  }

  /** The grade-counting loop: `gradeBreakdown[post.grade, default: 0] += 1` over the
      posts, from an empty dictionary. */
  method CountGrades(ps: seq<Post>) returns (grades: map<Grade, int>)
    ensures grades == Tally(GradesOf(ps))
  {
    grades := map[];
    for i := 0 to |ps|
      invariant grades == Tally(GradesOf(ps)[..i])
    {
      var g := ps[i].grade;
      assert GradesOf(ps)[..i + 1][..i] == GradesOf(ps)[..i];
      grades := grades[g := (if g in grades then grades[g] else 0) + 1];
    }
    assert GradesOf(ps)[..|ps|] == GradesOf(ps);
  }

  /** The gym-counting loop: `gymVisits[post.gymName, default: 0] += 1`. */
  method CountGyms(ps: seq<Post>) returns (visits: map<string, int>)
    ensures visits == Tally(GymsOf(ps))
  {
    visits := map[];
    for i := 0 to |ps|
      invariant visits == Tally(GymsOf(ps)[..i])
    {
      var gym := ps[i].gymName;
      assert GymsOf(ps)[..i + 1][..i] == GymsOf(ps)[..i];
      visits := visits[gym := (if gym in visits then visits[gym] else 0) + 1];
    }
    assert GymsOf(ps)[..|ps|] == GymsOf(ps);
  }

  /** `max(by:)` on the visit counts: it walks the entries in the dictionary's order,
      which is not specified, and moves to a later entry only when it is strictly
      larger. Nothing when the dictionary is empty. */
  method MostVisitedOf(visits: map<string, int>) returns (best: Option<string>)
    ensures best.None? <==> |visits| == 0
    ensures best.Some? ==> MostVisited(best.value, visits)
  {
    best := None;
    var left := visits.Keys;
    while left != {}
      invariant left <= visits.Keys
      invariant best.None? ==> left == visits.Keys
      invariant best.Some? ==>
        best.value in visits &&
        forall k | k in visits && k !in left :: visits[k] <= visits[best.value]
      decreases left
    {
      var k :| k in left;
      if best.None? || visits[best.value] < visits[k] {
        best := Some(k);
      }
      left := left - {k};
    }
    if best.None? {
      assert visits.Keys == {};
    }
  }

  /** Everything the statistics promise about a list of posts: the total is the number
      of posts; each grade and each gym maps to the number of posts with it, only the
      ones that occur are keys, and both dictionaries add up to the total. */
  lemma CountsMeanCounts(ps: seq<Post>, g: Grade, gym: string)
    ensures g in Tally(GradesOf(ps)) <==> exists i | 0 <= i < |ps| :: ps[i].grade == g
    ensures g in Tally(GradesOf(ps)) ==> Tally(GradesOf(ps))[g] == multiset(GradesOf(ps))[g]
    ensures gym in Tally(GymsOf(ps)) <==> exists i | 0 <= i < |ps| :: ps[i].gymName == gym
    ensures gym in Tally(GymsOf(ps)) ==> Tally(GymsOf(ps))[gym] == multiset(GymsOf(ps))[gym]
    ensures SumValues(Tally(GradesOf(ps))) == |ps| && SumValues(Tally(GymsOf(ps))) == |ps|
  {
    TallyCounts(GradesOf(ps), g);
    TallyCounts(GymsOf(ps), gym);
    TallySum(GradesOf(ps));
    TallySum(GymsOf(ps));
    if g in GradesOf(ps) {
      var i :| 0 <= i < |ps| && GradesOf(ps)[i] == g;
    }
    if gym in GymsOf(ps) {
      var i :| 0 <= i < |ps| && GymsOf(ps)[i] == gym;
    }
  }

  /** The most visited gym is "N/A" exactly when there are no posts, as long as no post
      names its gym "N/A". */
  lemma NoGymExactlyWhenNoPosts(ps: seq<Post>, mostVisitedGym: string)
    requires forall i | 0 <= i < |ps| :: ps[i].gymName != "N/A"
    requires var visits := Tally(GymsOf(ps));
      if |visits| == 0 then mostVisitedGym == "N/A" else MostVisited(mostVisitedGym, visits)
    ensures mostVisitedGym == "N/A" <==> ps == []
  {
    TallyEmpty(GymsOf(ps));
    TallyCounts(GymsOf(ps), mostVisitedGym);
    if ps != [] {
      assert GymsOf(ps) != [];
      if mostVisitedGym in GymsOf(ps) {
        var i :| 0 <= i < |ps| && GymsOf(ps)[i] == mostVisitedGym;
      }
    }
  }

  /** Computing twice from the same posts gives the same totals and dictionaries, and a
      most visited gym with the same count. */
  lemma ComputeTwiceAgrees(ps: seq<Post>, total1: int, grades1: map<Grade, int>, gyms1: map<string, int>,
                           best1: string, total2: int, grades2: map<Grade, int>,
                           gyms2: map<string, int>, best2: string)
    requires total1 == |ps| && grades1 == Tally(GradesOf(ps)) && gyms1 == Tally(GymsOf(ps))
    requires if |gyms1| == 0 then best1 == "N/A" else MostVisited(best1, gyms1)
    requires total2 == |ps| && grades2 == Tally(GradesOf(ps)) && gyms2 == Tally(GymsOf(ps))
    requires if |gyms2| == 0 then best2 == "N/A" else MostVisited(best2, gyms2)
    ensures total1 == total2 && grades1 == grades2 && gyms1 == gyms2
    ensures |gyms1| == 0 ==> best1 == best2
    ensures |gyms1| != 0 ==> gyms1[best1] == gyms2[best2]
  {
  }
}
