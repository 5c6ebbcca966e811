/** The climbing grades and the per-user statistics record. */
module Statistics {
  import opened Wrappers

  /** The nine bouldering grade bands, in declaration (difficulty) order. */
  datatype Grade = Vb | V0toV1 | V1toV2 | V2toV4 | V4toV6 | V6toV8 | V8toV10 | V10toV12 | V12Plus

  /** `Grades.allCases`: the cases in declaration order. */
  const AllCases: seq<Grade> := [Vb, V0toV1, V1toV2, V2toV4, V4toV6, V6toV8, V8toV10, V10toV12, V12Plus]

  /** `Grades.allCases.firstIndex(of: g)!`, the grade's rank in difficulty order. */
  function Index(g: Grade): (r: nat)
    ensures r < |AllCases| && AllCases[r] == g
    ensures forall i | 0 <= i < r :: AllCases[i] != g
  {
    match g
    case Vb => 0
    case V0toV1 => 1
    case V1toV2 => 2
    case V2toV4 => 3
    case V4toV6 => 4
    case V6toV8 => 5
    case V8toV10 => 6
    case V10toV12 => 7
    case V12Plus => 8
  }

  /** `Grades.allCases` lists nine distinct cases and every case is among them. */
  lemma AllCasesComplete()
    ensures |AllCases| == 9
    ensures forall i, j | 0 <= i < j < |AllCases| :: AllCases[i] != AllCases[j]
    ensures forall g: Grade :: g in AllCases
  {
    forall g: Grade ensures g in AllCases {
      assert AllCases[Index(g)] == g;
    }
  }

  /** The stored name of a grade (`grade.rawValue`): the case name. */
  function RawValue(g: Grade): string {
    match g
    case Vb => "vb"
    case V0toV1 => "v0tov1"
    case V1toV2 => "v1tov2"
    case V2toV4 => "v2tov4"
    case V4toV6 => "v4tov6"
    case V6toV8 => "v6tov8"
    case V8toV10 => "v8tov10"
    case V10toV12 => "v10tov12"
    case V12Plus => "v12plus"
  }

  /** `Grades(rawValue:)`: the grade with that stored name, if any. */
  function FromRawValue(s: string): (r: Option<Grade>)
    ensures r.Some? ==> RawValue(r.value) == s
  {
    if s == "vb" then Some(Vb)
    else if s == "v0tov1" then Some(V0toV1)
    else if s == "v1tov2" then Some(V1toV2)
    else if s == "v2tov4" then Some(V2toV4)
    else if s == "v4tov6" then Some(V4toV6)
    else if s == "v6tov8" then Some(V6toV8)
    else if s == "v8tov10" then Some(V8toV10)
    else if s == "v10tov12" then Some(V10toV12)
    else if s == "v12plus" then Some(V12Plus)
    else None
  }

  /** Reading back a written grade name gives the grade, so the name mapping is injective. */
  lemma RawValueRoundTrip(g: Grade)
    ensures FromRawValue(RawValue(g)) == Some(g)
  {
  }

  lemma RawValueInjective(g: Grade, h: Grade)
    requires RawValue(g) == RawValue(h)
    ensures g == h
  {
    RawValueRoundTrip(g);
    RawValueRoundTrip(h);
  }

  /** The statistics record stored with each user: a climb total and one counter per grade. */
  datatype Stats = Stats(numClimbs: int, vb: int, v0tov1: int, v1tov2: int, v2tov4: int,
                         v4tov6: int, v6tov8: int, v8tov10: int, v10tov12: int, v12plus: int)
  {
    /** The counter kept for grade `g`. */
    function Count(g: Grade): int {
      match g
      case Vb => vb
      case V0toV1 => v0tov1
      case V1toV2 => v1tov2
      case V2toV4 => v2tov4
      case V4toV6 => v4tov6
      case V6toV8 => v6tov8
      case V8toV10 => v8tov10
      case V10toV12 => v10tov12
      case V12Plus => v12plus
    }
  }

  /** `Statistics.init()`: no climbs, every grade counter zero. */
  function InitialStats(): (s: Stats)
    ensures s.numClimbs == 0
    ensures forall g: Grade :: s.Count(g) == 0
  {
    Stats(0, 0, 0, 0, 0, 0, 0, 0, 0, 0)
  }
}
