/** The records both recommenders read: a catalog course and a user profile,
    and the arithmetic they share for turning a combined score into a fit
    score. */
module Catalog {
  import opened Text

  datatype Option<T> = None | Some(value: T)

  /** One catalog row (the columns of courses.csv, or one dict of
      SimpleCareerRecommender.generate_courses), list columns already parsed. */
  datatype Course = Course(
    title: string,
    provider: string,
    duration: string,
    prerequisites: seq<string>,
    skillTags: seq<string>,
    level: string,
    link: string,
    domain: string,
    cost: string)

  /** The profile dict. targetDomain and careerGoals are None when the
      request leaves them null. */
  datatype UserProfile = UserProfile(
    education: string,
    major: string,
    technicalSkills: seq<string>,
    softSkills: seq<string>,
    interests: seq<string>,
    targetDomain: Option<string>,
    careerGoals: Option<string>,
    level: string)

  /** Python truthiness of an optional string. */
  predicate Truthy(o: Option<string>)
  {
    o.Some? && o.value != ""
  }

  /** `target and target.lower() in domain.lower()`, the domain test of both
      recommenders. */
  predicate TargetDomainMatches(target: Option<string>, domain: string)
  {
    Truthy(target) && Contains(Lower(domain), Lower(target.value))
  }

  /** Python's int() on a float: truncation toward zero. */
  function Trunc(x: real): int
  {
    if x >= 0.0 then x.Floor else -((-x).Floor)
  }

  lemma TruncIsFloor(x: real)
    requires x >= 0.0
    ensures Trunc(x) == x.Floor
  {
  }

  function Min(a: int, b: int): int
  {
    if a <= b then a else b
  }

  /** min(100, int(combined * 100)) */
  function FitScore(combined: real): (r: int)
    ensures r <= 100
    ensures combined >= 0.0 ==> 0 <= r && r == Min(100, (combined * 100.0).Floor)
    ensures combined >= 1.0 ==> r == 100
    ensures 0.0 <= combined < 1.0 ==> r as real <= combined * 100.0 < r as real + 1.0
  {
    Min(100, Trunc(combined * 100.0))
  }

  /** A count over a larger positive total is a fraction in [0, 1], and it
      is 1.0 only when the two are equal. */
  lemma FractionBounds(n: int, d: int)
    requires 0 <= n <= d && 0 < d
    ensures 0.0 <= n as real / d as real <= 1.0
    ensures n as real / d as real == 1.0 <==> n == d
    ensures 0 < n ==> 0.0 < n as real / d as real
  {
    var q := n as real / d as real;
    assert q * d as real == n as real;
  }
}
