/** SimpleCareerRecommender (app.py): keyword overlap between the user's
    technical skills and a course's tags, a fixed level table, and bonuses
    for the target domain and for interests, blended into a 0-100 fit score,
    filtered, stably sorted and truncated; and a four-part rationale. */
module SimpleRecommender {
  import opened Text
  import opened Catalog
  import opened Ranking

  /** Courses need a fit score above this to be recommended. */
  const MinFitScore: int := 15
  /** recommend_courses(user_profile, top_k=8) */
  const DefaultTopK: int := 8

  // ---------------------------------------------------------------------
  // generate_courses

  /** The ten courses of the built-in catalog, in order. */
  function GeneratedCourses(): seq<Course>
  {
    [ Course("Python for Beginners", "Coursera", "6 weeks", ["none"], ["python", "programming", "basic coding"],
             "beginner", "https://coursera.org/learn/python-basics", "software development", "free"),
      Course("Web Development Bootcamp", "Udemy", "12 weeks", ["html", "css"],
             ["javascript", "react", "node.js", "web development"],
             "beginner", "https://udemy.com/web-dev", "web development", "paid"),
      Course("JavaScript Fundamentals", "FreeCodeCamp", "8 weeks", ["html", "css"],
             ["javascript", "frontend", "web development"],
             "beginner", "https://freecodecamp.org/javascript", "web development", "free"),
      Course("Data Science Fundamentals", "Coursera", "10 weeks", ["python", "statistics"],
             ["data science", "python", "pandas", "data analysis"],
             "intermediate", "https://coursera.org/data-science", "data science", "free"),
      Course("Machine Learning Specialization", "Coursera", "16 weeks", ["python", "linear algebra"],
             ["machine learning", "python", "scikit-learn"],
             "intermediate", "https://coursera.org/machine-learning", "artificial intelligence", "paid"),
      Course("AWS Cloud Practitioner", "AWS", "4 weeks", ["none"], ["aws", "cloud computing"],
             "beginner", "https://aws.amazon.com/training", "cloud computing", "free"),
      Course("Docker and Kubernetes", "Udemy", "6 weeks", ["linux"], ["docker", "kubernetes", "containers"],
             "intermediate", "https://udemy.com/docker-kubernetes", "devops", "paid"),
      Course("React Native Mobile Development", "Udemy", "10 weeks", ["javascript"],
             ["react native", "mobile", "javascript"],
             "intermediate", "https://udemy.com/react-native", "mobile development", "paid"),
      Course("Cybersecurity Fundamentals", "edX", "6 weeks", ["none"], ["cybersecurity", "security", "networking"],
             "beginner", "https://edx.org/cybersecurity", "cybersecurity", "free"),
      Course("Project Management Professional", "PMI", "8 weeks", ["project experience"],
             ["project management", "leadership"],
             "intermediate", "https://pmi.org/pmp", "business", "paid") ]
  }

  const Levels: seq<string> := ["beginner", "intermediate", "advanced"]

  /** Every built-in course has one of the three level names, so the level
      table always has an entry for it. */
  lemma GeneratedCoursesHaveKnownLevels()
    ensures |GeneratedCourses()| == 10
    ensures forall i :: 0 <= i < |GeneratedCourses()| ==> GeneratedCourses()[i].level in Levels
  {
  }

  // ---------------------------------------------------------------------
  // calculate_similarity

  /** The lowered skill is a substring of a lowered tag, or one of them is a
      substring of it. */
  predicate MatchesSomeTag(userSkill: string, courseSkillsLower: seq<string>)
  {
    AnyRelated(Lower(userSkill), courseSkillsLower)
  }

  /** The fraction of user skills that are substring-related to some tag,
      both lowered; 0 when the user lists no skills. */
  function KeywordSimilarity(userSkills: seq<string>, courseSkills: seq<string>): (r: real)
    ensures 0.0 <= r <= 1.0
    ensures userSkills == [] ==> r == 0.0
  {
    if userSkills == [] then 0.0
    else
      var n := CountWhere(userSkills, LowerAll(courseSkills), MatchesSomeTag);
      FractionBounds(n, |userSkills|);
      n as real / |userSkills| as real
  }

  method CalculateSimilarity(userSkills: seq<string>, courseSkills: seq<string>) returns (r: real)
    ensures r == KeywordSimilarity(userSkills, courseSkills)
  {
    var userSkillsLower := LowerAll(userSkills);
    var courseSkillsLower := LowerAll(courseSkills);
    assert courseSkillsLower[..|courseSkillsLower|] == courseSkillsLower;
    var matches := 0;
    for i := 0 to |userSkillsLower|
      invariant matches == CountWhere(userSkills[..i], courseSkillsLower, MatchesSomeTag)
    {
      assert userSkills[..i + 1][..i] == userSkills[..i];
      var userSkill := userSkillsLower[i];
      ghost var before := matches;
      for j := 0 to |courseSkillsLower|
        invariant matches == before
        invariant !AnyRelated(userSkill, courseSkillsLower[..j])
      {
        var courseSkill := courseSkillsLower[j];
        AnyRelatedSnoc(userSkill, courseSkillsLower, j);
        if Contains(courseSkill, userSkill) || Contains(userSkill, courseSkill) {
          matches := matches + 1;
          AnyRelatedAt(userSkill, courseSkillsLower, j);
          break;
        }
      }
      assert matches == before + if AnyRelated(userSkill, courseSkillsLower) then 1 else 0;
    }
    assert userSkills[..|userSkills|] == userSkills;
    if userSkillsLower != [] {
      r := matches as real / |userSkillsLower| as real;
    } else {
      r := 0.0;
    }
  }

  /** Each user skill counts once however many tags it matches: the score is
      the number of user skills related to some tag over the number of user
      skills. */
  lemma KeywordSimilarityCountsSkills(userSkills: seq<string>, courseSkills: seq<string>)
    requires userSkills != []
    ensures KeywordSimilarity(userSkills, courseSkills)
         == |set i: nat | i < |userSkills| && MatchesSomeTag(userSkills[i], LowerAll(courseSkills))| as real
            / |userSkills| as real
  {
    var tags := LowerAll(courseSkills);
    CountWhereIsPositions(userSkills, tags, MatchesSomeTag);
    assert Positions(userSkills, tags, MatchesSomeTag)
        == set i: nat | i < |userSkills| && MatchesSomeTag(userSkills[i], tags);
  }

  /** The score is 1.0 exactly when every user skill is related to some tag,
      and 0.0 exactly when none is. */
  lemma KeywordSimilarityExtremes(userSkills: seq<string>, courseSkills: seq<string>)
    ensures userSkills != [] ==>
      (KeywordSimilarity(userSkills, courseSkills) == 1.0 <==>
       forall i :: 0 <= i < |userSkills| ==> MatchesSomeTag(userSkills[i], LowerAll(courseSkills)))
    ensures KeywordSimilarity(userSkills, courseSkills) == 0.0 <==>
      forall i :: 0 <= i < |userSkills| ==> !MatchesSomeTag(userSkills[i], LowerAll(courseSkills))
  {
    var tags := LowerAll(courseSkills);
    CountWhereAll(userSkills, tags, MatchesSomeTag);
    CountWhereNone(userSkills, tags, MatchesSomeTag);
    if userSkills != [] {
      FractionBounds(CountWhere(userSkills, tags, MatchesSomeTag), |userSkills|);
    }
  }

  // ---------------------------------------------------------------------
  // calculate_level_match

  const LevelScores: map<string, map<string, real>> := map[
    "beginner" := map["beginner" := 1.0, "intermediate" := 0.7, "advanced" := 0.3],
    "intermediate" := map["beginner" := 0.8, "intermediate" := 1.0, "advanced" := 0.7],
    "advanced" := map["beginner" := 0.5, "intermediate" := 0.8, "advanced" := 1.0]]

  /** level_scores.get(user_level, {}).get(course_level, 0.5): exact,
      case-sensitive lookups. */
  function LevelMatch(userLevel: string, courseLevel: string): (r: real)
    ensures 0.3 <= r <= 1.0
    ensures userLevel in Levels && courseLevel == userLevel ==> r == 1.0
    ensures userLevel !in Levels || courseLevel !in Levels ==> r == 0.5
  {
    if userLevel in LevelScores && courseLevel in LevelScores[userLevel] then LevelScores[userLevel][courseLevel]
    else 0.5
  }

  /** Over the three known levels, a user's own level scores highest, and a
      course two levels above scores lowest. */
  lemma LevelTableShape(u: string, c: string)
    requires u in Levels && c in Levels
    ensures LevelMatch(u, c) <= LevelMatch(u, u)
    ensures LevelMatch("beginner", "advanced") <= LevelMatch(u, c)
    ensures u != c ==> LevelMatch(u, c) < 1.0
  {
  }

  // ---------------------------------------------------------------------
  // recommend_courses

  /** One entry of the recommendations list. */
  datatype SimpleRecommendation = SimpleRecommendation(
    title: string,
    provider: string,
    duration: string,
    level: string,
    fitScore: int,
    link: string,
    domain: string,
    cost: string,
    skillTags: seq<string>)

  function FitKey(r: SimpleRecommendation): int
  {
    r.fitScore
  }

  /** any(interest.lower() in domain.lower() for interest in interests) */
  predicate InterestMatch(interests: seq<string>, domain: string)
    decreases |interests|
  {
    interests != [] && (Contains(Lower(domain), Lower(interests[0])) || InterestMatch(interests[1..], domain))
  }

  function DomainBonus(targetDomain: Option<string>, courseDomain: string): real
  {
    if TargetDomainMatches(targetDomain, courseDomain) then 1.5 else 1.0
  }

  function InterestBonus(interests: seq<string>, courseDomain: string): real
  {
    if InterestMatch(interests, courseDomain) then 1.2 else 1.0
  }

  function CombinedScore(similarity: real, level: real, domainBonus: real, interestBonus: real): real
  {
    (similarity * 0.6 + level * 0.4) * domainBonus * interestBonus
  }

  lemma CombinedScoreBounds(similarity: real, level: real, domainBonus: real, interestBonus: real)
    requires 0.0 <= similarity <= 1.0 && 0.0 <= level <= 1.0
    requires domainBonus == 1.0 || domainBonus == 1.5
    requires interestBonus == 1.0 || interestBonus == 1.2
    ensures 0.0 <= CombinedScore(similarity, level, domainBonus, interestBonus)
    ensures CombinedScore(similarity, level, domainBonus, interestBonus) * 100.0
         == 100.0 * (0.6 * similarity + 0.4 * level) * domainBonus * interestBonus
  {
    var w := similarity * 0.6 + level * 0.4;
    assert 0.0 <= w;
    var b := domainBonus * interestBonus;
    assert b == 1.0 || b == 1.5 || b == 1.2 || b == 1.8;
    assert CombinedScore(similarity, level, domainBonus, interestBonus) == w * b;
  }

  /** Line 142-143: the blend times both bonuses, on a 0-100 scale,
      truncated and capped. With neither bonus the cap is never needed. */
  function FitFromScores(similarity: real, level: real, domainBonus: real, interestBonus: real): (fit: int)
    requires 0.0 <= similarity <= 1.0 && 0.0 <= level <= 1.0
    requires domainBonus == 1.0 || domainBonus == 1.5
    requires interestBonus == 1.0 || interestBonus == 1.2
    ensures fit == Min(100, (100.0 * (0.6 * similarity + 0.4 * level) * domainBonus * interestBonus).Floor)
    ensures 0 <= fit <= 100
    ensures domainBonus == 1.0 && interestBonus == 1.0 ==> fit == (100.0 * (0.6 * similarity + 0.4 * level)).Floor
  {
    CombinedScoreBounds(similarity, level, domainBonus, interestBonus);
    FitScore(CombinedScore(similarity, level, domainBonus, interestBonus))
  }

  /** FitFromScores with bonuses given by the two tests that choose them. */
  lemma FitWithBonuses(similarity: real, level: real, domainBonus: real, interestBonus: real,
                       domainMatch: bool, interestMatch: bool)
    requires 0.0 <= similarity <= 1.0 && 0.0 <= level <= 1.0
    requires domainBonus == (if domainMatch then 1.5 else 1.0)
    requires interestBonus == (if interestMatch then 1.2 else 1.0)
    ensures FitFromScores(similarity, level, domainBonus, interestBonus)
         == Min(100, (100.0 * (0.6 * similarity + 0.4 * level) * (if domainMatch then 1.5 else 1.0)
                      * (if interestMatch then 1.2 else 1.0)).Floor)
  {
  }

  /** The entry built for one course: its catalog fields and the blended
      fit score. */
  function ScoreCourse(p: UserProfile, c: Course): (r: SimpleRecommendation)
    ensures r == SimpleRecommendation(c.title, c.provider, c.duration, c.level, r.fitScore, c.link, c.domain,
                                      c.cost, c.skillTags)
    ensures var d := if TargetDomainMatches(p.targetDomain, c.domain) then 1.5 else 1.0;
      var i := if InterestMatch(p.interests, c.domain) then 1.2 else 1.0;
      var s := KeywordSimilarity(p.technicalSkills, c.skillTags);
      var l := LevelMatch(p.level, c.level);
      r.fitScore == Min(100, (100.0 * (0.6 * s + 0.4 * l) * d * i).Floor)
    ensures 0 <= r.fitScore <= 100
  {
    var similarity := KeywordSimilarity(p.technicalSkills, c.skillTags);
    var level := LevelMatch(p.level, c.level);
    var d := DomainBonus(p.targetDomain, c.domain);
    var i := InterestBonus(p.interests, c.domain);
    FitWithBonuses(similarity, level, d, i, TargetDomainMatches(p.targetDomain, c.domain),
                   InterestMatch(p.interests, c.domain));
    SimpleRecommendation(c.title, c.provider, c.duration, c.level, FitFromScores(similarity, level, d, i),
                         c.link, c.domain, c.cost, c.skillTags)
  }

  /** Every course scored, in catalog order. */
  function ScoreAll(p: UserProfile, catalog: seq<Course>): seq<SimpleRecommendation>
  {
    seq(|catalog|, i requires 0 <= i < |catalog| => ScoreCourse(p, catalog[i]))
  }

  /** The list recommend_courses has built when the loop ends. */
  function Candidates(p: UserProfile, catalog: seq<Course>): seq<SimpleRecommendation>
  {
    KeepAbove(ScoreAll(p, catalog), FitKey, MinFitScore)
  }

  lemma ScoreAllStep(p: UserProfile, catalog: seq<Course>, idx: nat)
    requires idx < |catalog|
    ensures ScoreAll(p, catalog[..idx + 1]) == ScoreAll(p, catalog[..idx]) + [ScoreCourse(p, catalog[idx])]
  {
  }

  /** The sorted candidates are in descending order, come from the catalog,
      and all have fit scores in (15, 100]. */
  lemma RankedCandidates(p: UserProfile, catalog: seq<Course>)
    ensures var sorted := SortDesc(Candidates(p, catalog), FitKey);
      && SortedDesc(sorted, FitKey)
      && |sorted| <= |catalog|
      && forall r :: r in sorted ==> MinFitScore < r.fitScore <= 100
  {
    var all := ScoreAll(p, catalog);
    var sorted := SortDesc(Candidates(p, catalog), FitKey);
    SortDescCorrect(Candidates(p, catalog), FitKey);
    KeepAboveLength(all, FitKey, MinFitScore);
    assert |sorted| == |multiset(sorted)|;
    forall r | r in sorted
      ensures MinFitScore < r.fitScore <= 100
    {
      assert r in multiset(sorted);
      KeepAboveMembers(all, FitKey, MinFitScore, r);
      var i :| 0 <= i < |all| && all[i] == r;
    }
  }

  method RecommendCourses(profile: UserProfile, catalog: seq<Course>, topK: int)
    returns (recommendations: seq<SimpleRecommendation>)
    ensures recommendations == Prefix(SortDesc(Candidates(profile, catalog), FitKey), topK)
    ensures forall r :: r in recommendations ==> MinFitScore < r.fitScore <= 100
    ensures SortedDesc(recommendations, FitKey)
    ensures |recommendations| <= |catalog|
    ensures 0 <= topK ==> |recommendations| <= topK
  {
    var userSkills := profile.technicalSkills;
    var userLevel := profile.level;
    var userInterests := profile.interests;
    var targetDomain := profile.targetDomain;
    var recs: seq<SimpleRecommendation> := [];
    for idx := 0 to |catalog|
      invariant recs == KeepAbove(ScoreAll(profile, catalog[..idx]), FitKey, MinFitScore)
    {
      ScoreAllStep(profile, catalog, idx);
      var course := catalog[idx];
      var skillTags := course.skillTags;
      var skillSimilarity := CalculateSimilarity(userSkills, skillTags);
      var levelScore := LevelMatch(userLevel, course.level);
      var domainBonus := DomainBonus(targetDomain, course.domain);
      var interestBonus := InterestBonus(userInterests, course.domain);
      var combinedScore := CombinedScore(skillSimilarity, levelScore, domainBonus, interestBonus);
      var fitScore := FitScore(combinedScore);
      var entry := SimpleRecommendation(course.title, course.provider, course.duration, course.level, fitScore,
                                        course.link, course.domain, course.cost, skillTags);
      assert entry == ScoreCourse(profile, course);
      KeepAboveAppend(ScoreAll(profile, catalog[..idx]), [entry], FitKey, MinFitScore);
      if fitScore > MinFitScore {
        recs := recs + [entry];
      }
    }
    assert catalog[..|catalog|] == catalog;
    recs := SortDesc(recs, FitKey);
    recommendations := Prefix(recs, topK);
    RankedCandidates(profile, catalog);
    PrefixKeeps(recs, topK, FitKey);
  }

  /** Equal fit scores keep catalog order: the recommendations with any
      one fit score above the threshold are exactly the catalog's courses
      with that score, in catalog order. */
  lemma TiesKeepCatalogOrder(profile: UserProfile, catalog: seq<Course>, v: int)
    ensures MinFitScore < v ==>
      KeyFilter(SortDesc(Candidates(profile, catalog), FitKey), FitKey, v) == KeyFilter(ScoreAll(profile, catalog), FitKey, v)
    ensures v <= MinFitScore ==> KeyFilter(SortDesc(Candidates(profile, catalog), FitKey), FitKey, v) == []
  {
    SortDescCorrect(Candidates(profile, catalog), FitKey);
    KeepAboveGroups(ScoreAll(profile, catalog), FitKey, MinFitScore, v);
  }

  /** Every recommendation is the scoring of one catalog course. */
  lemma RecommendationsFromCatalog(profile: UserProfile, catalog: seq<Course>, topK: int)
    ensures forall r :: r in Prefix(SortDesc(Candidates(profile, catalog), FitKey), topK) ==>
      exists i :: 0 <= i < |catalog| && r == ScoreCourse(profile, catalog[i])
  {
    var all := ScoreAll(profile, catalog);
    var sorted := SortDesc(Candidates(profile, catalog), FitKey);
    SortDescCorrect(Candidates(profile, catalog), FitKey);
    PrefixKeeps(sorted, topK, FitKey);
    forall r | r in Prefix(sorted, topK)
      ensures exists i :: 0 <= i < |catalog| && r == ScoreCourse(profile, catalog[i])
    {
      assert r in multiset(sorted);
      KeepAboveMembers(all, FitKey, MinFitScore, r);
      var i :| 0 <= i < |all| && all[i] == r;
    }
  }

  /** Any stable descending sort of the candidates gives the same
      recommendations. */
  lemma RankingIsUnique(profile: UserProfile, catalog: seq<Course>, topK: int, t: seq<SimpleRecommendation>)
    requires SortedDesc(t, FitKey) && SameGroups(t, Candidates(profile, catalog), FitKey)
    ensures Prefix(t, topK) == Prefix(SortDesc(Candidates(profile, catalog), FitKey), topK)
  {
    StableSortUnique(t, Candidates(profile, catalog), FitKey);
  }

  /** recommend_courses(user_profile) with the default top_k: the first
      eight ranked candidates, or all of them when there are fewer. */
  lemma DefaultCallLength(profile: UserProfile, catalog: seq<Course>)
    ensures var cands := SortDesc(Candidates(profile, catalog), FitKey);
      var r := Prefix(cands, DefaultTopK);
      && |r| == (if |cands| <= 8 then |cands| else 8)
      && r == cands[..|r|]
  {
  }

  /** A beginner who knows python and targets software development gets the
      full 100 for "Python for Beginners": every skill matches a tag, the
      level is the user's own, and the domain bonus lifts the blend past the
      cap. */
  lemma PythonForBeginnersScenario(interests: seq<string>)
    ensures var p := UserProfile("Bachelor's", "Computer Science", ["python"], [], interests,
                                 Some("software development"), None, "beginner");
      ScoreCourse(p, GeneratedCourses()[0]).fitScore == 100
  {
    var p := UserProfile("Bachelor's", "Computer Science", ["python"], [], interests,
                         Some("software development"), None, "beginner");
    var c := GeneratedCourses()[0];
    ContainsSelf(Lower("software development"));
    assert TargetDomainMatches(p.targetDomain, c.domain);
    var tags := LowerAll(c.skillTags);
    assert Lower("python") == "python";
    assert tags[0] == "python";
    ContainsSelf("python");
    AnyRelatedAt("python", tags, 0);
    assert LowerAll(["python"]) == ["python"];
    assert CountWhere(["python"], tags, MatchesSomeTag) == 1 by {
      assert ["python"][..0] == [];
    }
    assert KeywordSimilarity(p.technicalSkills, c.skillTags) == 1.0;
    assert LevelMatch(p.level, c.level) == 1.0;
  }

  // ---------------------------------------------------------------------
  // generate_rationale

  /** any(skill.lower() in tag.lower() for tag in tags) */
  predicate InSomeTag(skill: string, tags: seq<string>)
    decreases |tags|
  {
    tags != [] && (Contains(Lower(tags[0]), Lower(skill)) || InSomeTag(skill, tags[1..]))
  }

  /** matching_skills: the user skills found in some tag, in profile order. */
  function MatchingSkills(userSkills: seq<string>, tags: seq<string>): (r: seq<string>)
    ensures |r| <= |userSkills|
    decreases |userSkills|
  {
    if userSkills == [] then []
    else
      var last := userSkills[|userSkills| - 1];
      MatchingSkills(userSkills[..|userSkills| - 1], tags) + (if InSomeTag(last, tags) then [last] else [])
  }

  lemma {:induction false} MatchingSkillsMembers(userSkills: seq<string>, tags: seq<string>, x: string)
    ensures x in MatchingSkills(userSkills, tags) <==> x in userSkills && InSomeTag(x, tags)
    decreases |userSkills|
  {
    if userSkills != [] {
      var init, last := userSkills[..|userSkills| - 1], userSkills[|userSkills| - 1];
      MatchingSkillsMembers(init, tags, x);
      assert userSkills == init + [last];
      assert x in userSkills <==> x in init || x == last;
    }
  }

  lemma {:induction false} MatchingSkillsIsSubsequence(userSkills: seq<string>, tags: seq<string>)
    ensures IsSubsequence(MatchingSkills(userSkills, tags), userSkills)
    decreases |userSkills|
  {
    if userSkills != [] {
      var init, last := userSkills[..|userSkills| - 1], userSkills[|userSkills| - 1];
      MatchingSkillsIsSubsequence(init, tags);
      SubsequenceSnoc(MatchingSkills(init, tags), init, last, InSomeTag(last, tags));
      assert userSkills == init + [last];
    }
  }

  const Fallback: string := "Great starting point for your interests"

  /** The first part: the first two matching skills, or the fallback. */
  function SkillsClause(matching: seq<string>): string
  {
    if matching != [] then "Builds on your skills in " + JoinWith(", ", Prefix(matching, 2)) else Fallback
  }

  function RationaleParts(matching: seq<string>, r: SimpleRecommendation): seq<string>
  {
    [SkillsClause(matching), "Perfect for " + r.level + " level learners", "Duration: " + r.duration,
     "Cost: " + Title(r.cost)]
  }

  method GenerateRationale(course: SimpleRecommendation, profile: UserProfile) returns (rationale: string)
    ensures rationale == JoinWith(". ", RationaleParts(MatchingSkills(profile.technicalSkills, course.skillTags), course)) + "."
  {
    var userSkills := profile.technicalSkills;
    var matchingSkills: seq<string> := [];
    for i := 0 to |userSkills|
      invariant matchingSkills == MatchingSkills(userSkills[..i], course.skillTags)
    {
      assert userSkills[..i + 1][..i] == userSkills[..i];
      if InSomeTag(userSkills[i], course.skillTags) {
        matchingSkills := matchingSkills + [userSkills[i]];
      }
    }
    assert userSkills[..|userSkills|] == userSkills;
    var parts: seq<string> := [];
    if matchingSkills != [] {
      parts := parts + ["Builds on your skills in " + JoinWith(", ", Prefix(matchingSkills, 2))];
    } else {
      parts := parts + [Fallback];
    }
    assert parts == [SkillsClause(matchingSkills)];
    parts := parts + ["Perfect for " + course.level + " level learners"];
    parts := parts + ["Duration: " + course.duration];
    parts := parts + ["Cost: " + Title(course.cost)];
    assert matchingSkills == MatchingSkills(profile.technicalSkills, course.skillTags);
    assert parts == RationaleParts(matchingSkills, course);
    rationale := JoinWith(". ", parts) + ".";
  }

  /** The rationale always has four parts and ends with a period; it falls
      back to "Great starting point for your interests" exactly when no user
      skill occurs, case-insensitively, in a tag; otherwise it names at most
      the first two such skills, in profile order. */
  lemma RationaleShape(course: SimpleRecommendation, profile: UserProfile)
    ensures var matching := MatchingSkills(profile.technicalSkills, course.skillTags);
      var parts := RationaleParts(matching, course);
      && |parts| == 4
      && (parts[0] == Fallback <==> forall s :: s in profile.technicalSkills ==> !InSomeTag(s, course.skillTags))
      && (matching != [] ==> parts[0] == "Builds on your skills in " + JoinWith(", ", Prefix(matching, 2)))
      && |Prefix(matching, 2)| <= 2
      && IsSubsequence(matching, profile.technicalSkills)
    ensures var text := JoinWith(". ", RationaleParts(MatchingSkills(profile.technicalSkills, course.skillTags), course)) + ".";
      text[|text| - 1] == '.'
  {
    var us := profile.technicalSkills;
    var matching := MatchingSkills(us, course.skillTags);
    MatchingSkillsIsSubsequence(us, course.skillTags);
    assert ("Builds on your skills in " + JoinWith(", ", Prefix(matching, 2)))[0] == 'B';
    if matching != [] {
      MatchingSkillsMembers(us, course.skillTags, matching[0]);
    } else {
      forall s | s in us
        ensures !InSomeTag(s, course.skillTags)
      {
        MatchingSkillsMembers(us, course.skillTags, s);
      }
    }
  }
}
