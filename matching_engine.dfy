/** AlternativeMatchingEngine (matching_engine.py): TF-IDF similarity blended
    with level, prerequisite and target-domain rules into a 0-100 fit score,
    filtered, stably sorted and truncated; a short-term / long-term split of
    the result; and a one-line rationale per course. The TF-IDF cosine
    similarities are an input, one per catalog course. */
module MatchingEngine {
  import opened Text
  import opened Catalog
  import opened Ranking
  import ListField

  /** Courses need a fit score above this to be recommended. */
  const MinFitScore: int := 20
  /** recommend_courses(user_profile, top_k=10) */
  const DefaultTopK: int := 10
  const ShortTermCap: int := 3
  const LongTermCap: int := 5

  // ---------------------------------------------------------------------
  // Text builders

  /** The text TF-IDF indexes for a course: the f-string of line 30, that
      is title, provider, the tags joined by spaces, and domain, joined by
      spaces. */
  function CourseDocument(c: Course): string
  {
    JoinWith(" ", [c.title, c.provider, JoinWith(" ", c.skillTags), c.domain])
  }

  /** The course document mentions the title, the provider, the domain and
      every skill tag. */
  lemma CourseDocumentMentions(c: Course)
    ensures Contains(CourseDocument(c), c.title)
    ensures Contains(CourseDocument(c), c.provider)
    ensures Contains(CourseDocument(c), c.domain)
    ensures forall i :: 0 <= i < |c.skillTags| ==> Contains(CourseDocument(c), c.skillTags[i])
  {
    var fields := [c.title, c.provider, JoinWith(" ", c.skillTags), c.domain];
    JoinContainsPart(" ", fields, 0);
    JoinContainsPart(" ", fields, 1);
    JoinContainsPart(" ", fields, 2);
    JoinContainsPart(" ", fields, 3);
    forall i | 0 <= i < |c.skillTags|
      ensures Contains(CourseDocument(c), c.skillTags[i])
    {
      JoinContainsPart(" ", c.skillTags, i);
      ContainsTrans(CourseDocument(c), fields[2], c.skillTags[i]);
    }
  }

  /** How an f-string renders an optional string: a null value reads "None". */
  function Render(o: Option<string>): string
  {
    match o
    case None => "None"
    case Some(s) => s
  }

  /** The seven profile fields, in the order of the f-string of line 48. */
  function ProfileFields(p: UserProfile): seq<string>
  {
    [p.education, p.major, JoinWith(" ", p.technicalSkills), JoinWith(" ", p.softSkills),
     JoinWith(" ", p.interests), Render(p.targetDomain), Render(p.careerGoals)]
  }

  /** create_user_profile_text: the seven profile fields joined by spaces. */
  function ProfileText(p: UserProfile): string
  {
    JoinWith(" ", ProfileFields(p))
  }

  /** The profile text mentions the education, the major and every technical
      skill, and a null target domain or career goal shows up as "None". */
  lemma ProfileTextMentions(p: UserProfile)
    ensures Contains(ProfileText(p), p.education) && Contains(ProfileText(p), p.major)
    ensures forall i :: 0 <= i < |p.technicalSkills| ==> Contains(ProfileText(p), p.technicalSkills[i])
    ensures p.targetDomain.None? || p.careerGoals.None? ==> Contains(ProfileText(p), "None")
  {
    var fields := ProfileFields(p);
    JoinContainsPart(" ", fields, 0);
    JoinContainsPart(" ", fields, 1);
    JoinContainsPart(" ", fields, 5);
    JoinContainsPart(" ", fields, 6);
    forall i | 0 <= i < |p.technicalSkills|
      ensures Contains(ProfileText(p), p.technicalSkills[i])
    {
      JoinContainsPart(" ", p.technicalSkills, i);
      JoinContainsPart(" ", fields, 2);
      ContainsTrans(ProfileText(p), fields[2], p.technicalSkills[i]);
    }
  }

  // ---------------------------------------------------------------------
  // skill_similarity

  function SkillSimilarity(skill1: string, skill2: string): (r: real)
    ensures 0.0 <= r <= 1.0
  {
    var a, b := Lower(skill1), Lower(skill2);
    if a == b then 1.0
    else if Contains(b, a) || Contains(a, b) then 0.8
    else
      var words1, words2 := WordSet(a), WordSet(b);
      var common := words1 * words2;
      if common != {} then
        CommonWordsBound(words1, words2);
        FractionBounds(|common|, if |words1| >= |words2| then |words1| else |words2|);
        |common| as real / (if |words1| >= |words2| then |words1| else |words2|) as real
      else 0.0
  }

  lemma CommonWordsBound(w1: set<string>, w2: set<string>)
    ensures |w1 * w2| <= |w1| && |w1 * w2| <= |w2|
  {
    assert w1 == (w1 * w2) + (w1 - w2);
    assert w2 == (w1 * w2) + (w2 - w1);
  }

  /** The three fixed outcomes of skill_similarity: 1.0 for skills equal up
      to case, 0.8 when one contains the other, and 0.0 exactly when they are
      unrelated and share no word. */
  lemma SkillSimilarityCases(skill1: string, skill2: string)
    ensures var r, a, b := SkillSimilarity(skill1, skill2), Lower(skill1), Lower(skill2);
      && (a == b ==> r == 1.0)
      && (a != b && SubstringRelated(a, b) ==> r == 0.8)
      && (r == 0.0 <==> !SubstringRelated(a, b) && WordSet(a) * WordSet(b) == {})
  {
    var a, b := Lower(skill1), Lower(skill2);
    if a == b {
      ContainsSelf(a);
    } else if !SubstringRelated(a, b) && WordSet(a) * WordSet(b) != {} {
      CommonWordsBound(WordSet(a), WordSet(b));
      var w1, w2 := WordSet(a), WordSet(b);
      FractionBounds(|w1 * w2|, if |w1| >= |w2| then |w1| else |w2|);
    }
  }

  lemma {:induction false} SkillSimilaritySymmetric(skill1: string, skill2: string)
    ensures SkillSimilarity(skill1, skill2) == SkillSimilarity(skill2, skill1)
  {
    var a, b := Lower(skill1), Lower(skill2);
    assert WordSet(a) * WordSet(b) == WordSet(b) * WordSet(a);
  }

  // ---------------------------------------------------------------------
  // calculate_level_match

  const LevelOrdinals: map<string, nat> := map["beginner" := 0, "intermediate" := 1, "advanced" := 2]

  /** level_mapping.get(level.lower(), 0) */
  function Ordinal(level: string): (n: nat)
    ensures n <= 2
  {
    var l := Lower(level);
    if l in LevelOrdinals then LevelOrdinals[l] else 0
  }

  function LevelMatch(userLevel: string, courseLevel: string): (r: real)
    ensures 0.3 <= r <= 1.0
    ensures var d := Ordinal(courseLevel) - Ordinal(userLevel);
      && (d <= 0 ==> r == 1.0)
      && (d == 1 ==> r == 0.7)
      && (d == 2 ==> r == 0.3)
  {
    var d := Ordinal(courseLevel) - Ordinal(userLevel);
    if d > 1 then 0.3 else if d == 1 then 0.7 else 1.0
  }

  /** The farther the course is above the user, the lower the score. */
  lemma LevelMatchMonotone(u1: string, c1: string, u2: string, c2: string)
    requires Ordinal(c1) - Ordinal(u1) <= Ordinal(c2) - Ordinal(u2)
    ensures LevelMatch(u1, c1) >= LevelMatch(u2, c2)
  {
  }

  /** A level token that is none of the three counts as "beginner". */
  lemma UnknownLevelIsBeginner(level: string, other: string)
    requires Lower(level) !in LevelOrdinals
    ensures Ordinal(level) == 0
    ensures LevelMatch(level, other) == LevelMatch("beginner", other)
    ensures LevelMatch(other, level) == LevelMatch(other, "beginner")
  {
    assert Lower("beginner") == "beginner";
  }

  // ---------------------------------------------------------------------
  // calculate_prerequisite_match

  /** prereq.lower().strip() */
  function PrereqKey(prereq: string): string
  {
    Trim(Lower(prereq))
  }

  /** any(skill_similarity(key, s) > threshold for s in skills) */
  predicate AnySimilar(key: string, skills: seq<string>, threshold: real)
    decreases |skills|
  {
    skills != [] && (SkillSimilarity(key, skills[0]) > threshold || AnySimilar(key, skills[1..], threshold))
  }

  lemma {:induction false} AnySimilarIff(key: string, skills: seq<string>, threshold: real)
    ensures AnySimilar(key, skills, threshold) <==>
      exists i :: 0 <= i < |skills| && SkillSimilarity(key, skills[i]) > threshold
    decreases |skills|
  {
    if skills != [] {
      AnySimilarIff(key, skills[1..], threshold);
      if exists i :: 0 <= i < |skills| && SkillSimilarity(key, skills[i]) > threshold {
        var i :| 0 <= i < |skills| && SkillSimilarity(key, skills[i]) > threshold;
        if i > 0 {
          assert skills[1..][i - 1] == skills[i];
        }
      }
      if AnySimilar(key, skills[1..], threshold) {
        var i :| 0 <= i < |skills[1..]| && SkillSimilarity(key, skills[1..][i]) > threshold;
        assert skills[i + 1] == skills[1..][i];
      }
    }
  }

  /** The test of lines 75-78 for one normalised prerequisite. */
  predicate PrereqMet(key: string, skillsLower: seq<string>)
  {
    AnyRelated(key, skillsLower) || AnySimilar(key, skillsLower, 0.7)
  }

  /** The loop's test as a predicate on the raw prerequisite. */
  predicate IsMet(prereq: string, skillsLower: seq<string>)
  {
    PrereqMet(PrereqKey(prereq), skillsLower)
  }

  /** The score the method computes: 1.0 for no prerequisites or exactly
      ['none'], otherwise the fraction of prerequisites met. */
  function PrerequisiteScore(userSkills: seq<string>, prereqs: seq<string>): (r: real)
    ensures 0.0 <= r <= 1.0
    ensures prereqs == [] || prereqs == ["none"] ==> r == 1.0
  {
    if prereqs == [] || prereqs == ["none"] then 1.0
    else
      var n := CountWhere(prereqs, LowerAll(userSkills), IsMet);
      FractionBounds(n, |prereqs|);
      n as real / |prereqs| as real
  }

  method CalculatePrerequisiteMatch(userSkills: seq<string>, coursePrerequisites: seq<string>) returns (score: real)
    ensures score == PrerequisiteScore(userSkills, coursePrerequisites)
  {
    if coursePrerequisites == [] || coursePrerequisites == ["none"] {
      return 1.0;
    }
    var userSkillsLower := LowerAll(userSkills);
    var prereqMet := 0;
    for i := 0 to |coursePrerequisites|
      invariant prereqMet == CountWhere(coursePrerequisites[..i], userSkillsLower, IsMet)
    {
      assert coursePrerequisites[..i + 1][..i] == coursePrerequisites[..i];
      var prereqLower := PrereqKey(coursePrerequisites[i]);
      if AnyRelated(prereqLower, userSkillsLower) {
        prereqMet := prereqMet + 1;
      } else if AnySimilar(prereqLower, userSkillsLower, 0.7) {
        prereqMet := prereqMet + 1;
      }
    }
    assert coursePrerequisites[..|coursePrerequisites|] == coursePrerequisites;
    score := prereqMet as real / |coursePrerequisites| as real;
  }

  /** Outside the two special lists, the score is the number of positions
      whose prerequisite is met over the number of prerequisites. */
  lemma PrerequisiteScoreIsFraction(userSkills: seq<string>, prereqs: seq<string>)
    requires prereqs != [] && prereqs != ["none"]
    ensures var sl := LowerAll(userSkills);
      PrerequisiteScore(userSkills, prereqs)
        == |set i: nat | i < |prereqs| && PrereqMet(PrereqKey(prereqs[i]), sl)| as real / |prereqs| as real
  {
    var sl := LowerAll(userSkills);
    CountWhereIsPositions(prereqs, sl, IsMet);
    assert Positions(prereqs, sl, IsMet) == set i: nat | i < |prereqs| && PrereqMet(PrereqKey(prereqs[i]), sl);
  }

  /** When every prerequisite has a lowered user skill it is a substring of,
      or that is a substring of it, the score is 1.0. */
  lemma AllRelatedIsFullScore(userSkills: seq<string>, prereqs: seq<string>)
    requires forall i :: 0 <= i < |prereqs| ==> AnyRelated(PrereqKey(prereqs[i]), LowerAll(userSkills))
    ensures PrerequisiteScore(userSkills, prereqs) == 1.0
  {
    CountWhereAll(prereqs, LowerAll(userSkills), IsMet);
  }

  /** An empty user skill is a substring of every prerequisite, so it meets
      them all. */
  lemma EmptySkillMeetsEverything(userSkills: seq<string>, prereqs: seq<string>)
    requires "" in userSkills
    ensures PrerequisiteScore(userSkills, prereqs) == 1.0
  {
    var sl := LowerAll(userSkills);
    var k :| 0 <= k < |userSkills| && userSkills[k] == "";
    assert sl[k] == "";
    forall i | 0 <= i < |prereqs|
      ensures AnyRelated(PrereqKey(prereqs[i]), sl)
    {
      ContainsEmpty(PrereqKey(prereqs[i]));
      AnyRelatedAt(PrereqKey(prereqs[i]), sl, k);
    }
    AllRelatedIsFullScore(userSkills, prereqs);
  }

  lemma EmptyKey()
    ensures PrereqKey("") == ""
  {
    assert Lower("") == "";
    assert StripLeft("", Whitespace) == "";
  }

  /** With no user skills, the prerequisite list [""] is not met. */
  lemma EmptyTokenWithoutSkills()
    ensures PrerequisiteScore([], [""]) == 0.0
  {
    EmptyKey();
    assert LowerAll([]) == [];
    assert [""][..0] == [];
    assert !IsMet("", []);
  }

  /** Any user skill meets the prerequisite list [""]. */
  lemma EmptyTokenWithSkills(userSkills: seq<string>)
    requires userSkills != []
    ensures PrerequisiteScore(userSkills, [""]) == 1.0
  {
    EmptyKey();
    var sl := LowerAll(userSkills);
    ContainsEmpty(sl[0]);
    AnyRelatedAt("", sl, 0);
    AllRelatedIsFullScore(userSkills, [""]);
  }

  /** A catalog cell "[]" parses to [""], which is neither [] nor ['none']:
      any user skill meets it, and nothing does when the user lists none. */
  lemma EmptyPrerequisiteCell(userSkills: seq<string>)
    ensures PrerequisiteScore(userSkills, ListField.ParseListField(ListField.Str("[]")))
         == if userSkills == [] then 0.0 else 1.0
  {
    ListField.EmptyListIsOneEmptyToken();
    if userSkills == [] {
      EmptyTokenWithoutSkills();
    } else {
      EmptyTokenWithSkills(userSkills);
    }
  }

  // ---------------------------------------------------------------------
  // recommend_courses

  /** One entry of the recommendations list: the course's columns, its fit
      score and the three component scores. */
  datatype Recommendation = Recommendation(
    course: Course,
    fitScore: int,
    similarityScore: real,
    levelScore: real,
    prerequisiteScore: real)

  function FitKey(r: Recommendation): int
  {
    r.fitScore
  }

  function DomainBonus(targetDomain: Option<string>, courseDomain: string): real
  {
    if TargetDomainMatches(targetDomain, courseDomain) then 1.2 else 1.0
  }

  function CombinedScore(similarity: real, level: real, prerequisite: real, bonus: real): real
  {
    (0.5 * similarity + 0.25 * level + 0.25 * prerequisite) * bonus
  }

  lemma CombinedScoreBounds(similarity: real, level: real, prerequisite: real, bonus: real)
    requires 0.0 <= similarity <= 1.0 && 0.0 <= level <= 1.0 && 0.0 <= prerequisite <= 1.0
    requires bonus == 1.0 || bonus == 1.2
    ensures 0.0 <= CombinedScore(similarity, level, prerequisite, bonus)
    ensures CombinedScore(similarity, level, prerequisite, bonus) * 100.0
         == 100.0 * (0.5 * similarity + 0.25 * level + 0.25 * prerequisite) * bonus
  {
    var w := 0.5 * similarity + 0.25 * level + 0.25 * prerequisite;
    assert 0.0 <= w;
    if bonus == 1.0 {
      assert CombinedScore(similarity, level, prerequisite, bonus) == w;
    } else {
      assert CombinedScore(similarity, level, prerequisite, bonus) == w * 1.2;
    }
  }

  /** Lines 134-141: the weighted average times the bonus, on a 0-100 scale,
      truncated and capped. Without the bonus the cap is never needed. */
  function FitFromScores(similarity: real, level: real, prerequisite: real, bonus: real): (fit: int)
    requires 0.0 <= similarity <= 1.0 && 0.0 <= level <= 1.0 && 0.0 <= prerequisite <= 1.0
    requires bonus == 1.0 || bonus == 1.2
    ensures fit == Min(100, (100.0 * (0.5 * similarity + 0.25 * level + 0.25 * prerequisite) * bonus).Floor)
    ensures 0 <= fit <= 100
    ensures bonus == 1.0 ==> fit == (100.0 * (0.5 * similarity + 0.25 * level + 0.25 * prerequisite)).Floor
  {
    CombinedScoreBounds(similarity, level, prerequisite, bonus);
    FitScore(CombinedScore(similarity, level, prerequisite, bonus))
  }

  /** The entry built for one course with TF-IDF similarity `similarity`. */
  function ScoreCourse(p: UserProfile, c: Course, similarity: real): (r: Recommendation)
    requires 0.0 <= similarity <= 1.0
    ensures r.course == c && r.similarityScore == similarity
    ensures r.levelScore == LevelMatch(p.level, c.level)
    ensures r.prerequisiteScore == PrerequisiteScore(p.technicalSkills, c.prerequisites)
    ensures var b := if TargetDomainMatches(p.targetDomain, c.domain) then 1.2 else 1.0;
      r.fitScore == Min(100, (100.0 * (0.5 * similarity + 0.25 * r.levelScore + 0.25 * r.prerequisiteScore) * b).Floor)
    ensures 0 <= r.fitScore <= 100
  {
    var level := LevelMatch(p.level, c.level);
    var prerequisite := PrerequisiteScore(p.technicalSkills, c.prerequisites);
    var bonus := DomainBonus(p.targetDomain, c.domain);
    assert bonus == if TargetDomainMatches(p.targetDomain, c.domain) then 1.2 else 1.0;
    Recommendation(c, FitFromScores(similarity, level, prerequisite, bonus), similarity, level, prerequisite)
  }

  predicate ValidSimilarities(catalog: seq<Course>, similarities: seq<real>)
  {
    |similarities| == |catalog| && forall i :: 0 <= i < |similarities| ==> 0.0 <= similarities[i] <= 1.0
  }

  /** Every course scored, in catalog order. */
  function ScoreAll(p: UserProfile, catalog: seq<Course>, similarities: seq<real>): seq<Recommendation>
    requires ValidSimilarities(catalog, similarities)
  {
    seq(|catalog|, i requires 0 <= i < |catalog| => ScoreCourse(p, catalog[i], similarities[i]))
  }

  /** The list recommend_courses has built when the loop ends. */
  function Candidates(p: UserProfile, catalog: seq<Course>, similarities: seq<real>): seq<Recommendation>
    requires ValidSimilarities(catalog, similarities)
  {
    KeepAbove(ScoreAll(p, catalog, similarities), FitKey, MinFitScore)
  }

  lemma ScoreAllStep(p: UserProfile, catalog: seq<Course>, similarities: seq<real>, idx: nat)
    requires ValidSimilarities(catalog, similarities) && idx < |catalog|
    ensures ValidSimilarities(catalog[..idx], similarities[..idx])
    ensures ValidSimilarities(catalog[..idx + 1], similarities[..idx + 1])
    ensures ScoreAll(p, catalog[..idx + 1], similarities[..idx + 1])
         == ScoreAll(p, catalog[..idx], similarities[..idx]) + [ScoreCourse(p, catalog[idx], similarities[idx])]
  {
  }

  /** The sorted candidates are in descending order, come from the catalog,
      and all have fit scores in (20, 100]. */
  lemma RankedCandidates(p: UserProfile, catalog: seq<Course>, similarities: seq<real>)
    requires ValidSimilarities(catalog, similarities)
    ensures var sorted := SortDesc(Candidates(p, catalog, similarities), FitKey);
      && SortedDesc(sorted, FitKey)
      && |sorted| <= |catalog|
      && forall r :: r in sorted ==> MinFitScore < r.fitScore <= 100
  {
    var all := ScoreAll(p, catalog, similarities);
    var sorted := SortDesc(Candidates(p, catalog, similarities), FitKey);
    SortDescCorrect(Candidates(p, catalog, similarities), FitKey);
    KeepAboveLength(all, FitKey, MinFitScore);
    assert |sorted| == |multiset(sorted)|;
    forall r | r in sorted
      ensures MinFitScore < r.fitScore <= 100
    {
      assert r in multiset(sorted);
      KeepAboveMembers(all, FitKey, MinFitScore, r);
      var i :| 0 <= i < |all| && all[i] == r;
    }
  }

  method RecommendCourses(profile: UserProfile, catalog: seq<Course>, similarities: seq<real>, topK: int)
    returns (recommendations: seq<Recommendation>)
    requires ValidSimilarities(catalog, similarities)
    ensures recommendations == Prefix(SortDesc(Candidates(profile, catalog, similarities), FitKey), topK)
    ensures forall r :: r in recommendations ==> MinFitScore < r.fitScore <= 100
    ensures SortedDesc(recommendations, FitKey)
    ensures |recommendations| <= |catalog|
    ensures 0 <= topK ==> |recommendations| <= topK
  {
    var recs: seq<Recommendation> := [];
    for idx := 0 to |catalog|
      invariant ValidSimilarities(catalog[..idx], similarities[..idx])
      invariant recs == KeepAbove(ScoreAll(profile, catalog[..idx], similarities[..idx]), FitKey, MinFitScore)
    {
      ScoreAllStep(profile, catalog, similarities, idx);
      var course := catalog[idx];
      var similarityScore := similarities[idx];
      var levelScore := LevelMatch(profile.level, course.level);
      var prerequisiteScore := CalculatePrerequisiteMatch(profile.technicalSkills, course.prerequisites);
      var domainBonus := DomainBonus(profile.targetDomain, course.domain);
      var combinedScore := CombinedScore(similarityScore, levelScore, prerequisiteScore, domainBonus);
      var fitScore := FitScore(combinedScore);
      var entry := Recommendation(course, fitScore, similarityScore, levelScore, prerequisiteScore);
      assert entry == ScoreCourse(profile, course, similarityScore);
      KeepAboveAppend(ScoreAll(profile, catalog[..idx], similarities[..idx]), [entry], FitKey, MinFitScore);
      if fitScore > MinFitScore {
        recs := recs + [entry];
      }
    }
    assert catalog[..|catalog|] == catalog && similarities[..|catalog|] == similarities;
    recs := SortDesc(recs, FitKey);
    recommendations := Prefix(recs, topK);
    RankedCandidates(profile, catalog, similarities);
    PrefixKeeps(recs, topK, FitKey);
  }

  /** Equal fit scores keep catalog order: the recommendations with any
      one fit score above the threshold are exactly the catalog's courses
      with that score, in catalog order. */
  lemma TiesKeepCatalogOrder(profile: UserProfile, catalog: seq<Course>, similarities: seq<real>, v: int)
    requires ValidSimilarities(catalog, similarities)
    ensures MinFitScore < v ==>
      KeyFilter(SortDesc(Candidates(profile, catalog, similarities), FitKey), FitKey, v) == KeyFilter(ScoreAll(profile, catalog, similarities), FitKey, v)
    ensures v <= MinFitScore ==> KeyFilter(SortDesc(Candidates(profile, catalog, similarities), FitKey), FitKey, v) == []
  {
    SortDescCorrect(Candidates(profile, catalog, similarities), FitKey);
    KeepAboveGroups(ScoreAll(profile, catalog, similarities), FitKey, MinFitScore, v);
  }

  /** Every recommendation is the scoring of one catalog course. */
  lemma RecommendationsFromCatalog(profile: UserProfile, catalog: seq<Course>, similarities: seq<real>, topK: int)
    requires ValidSimilarities(catalog, similarities)
    ensures forall r :: r in Prefix(SortDesc(Candidates(profile, catalog, similarities), FitKey), topK) ==>
      exists i :: 0 <= i < |catalog| && r == ScoreCourse(profile, catalog[i], similarities[i])
  {
    var all := ScoreAll(profile, catalog, similarities);
    var sorted := SortDesc(Candidates(profile, catalog, similarities), FitKey);
    SortDescCorrect(Candidates(profile, catalog, similarities), FitKey);
    PrefixKeeps(sorted, topK, FitKey);
    forall r | r in Prefix(sorted, topK)
      ensures exists i :: 0 <= i < |catalog| && r == ScoreCourse(profile, catalog[i], similarities[i])
    {
      assert r in multiset(sorted);
      KeepAboveMembers(all, FitKey, MinFitScore, r);
      var i :| 0 <= i < |all| && all[i] == r;
    }
  }

  /** Any stable descending sort of the candidates gives the same
      recommendations. */
  lemma RankingIsUnique(profile: UserProfile, catalog: seq<Course>, similarities: seq<real>, topK: int, t: seq<Recommendation>)
    requires ValidSimilarities(catalog, similarities)
    requires SortedDesc(t, FitKey) && SameGroups(t, Candidates(profile, catalog, similarities), FitKey)
    ensures Prefix(t, topK) == Prefix(SortDesc(Candidates(profile, catalog, similarities), FitKey), topK)
  {
    StableSortUnique(t, Candidates(profile, catalog, similarities), FitKey);
  }

  /** recommend_courses(user_profile) with the default top_k: the first ten
      ranked candidates, or all of them when there are fewer. */
  lemma DefaultCallLength(profile: UserProfile, catalog: seq<Course>, similarities: seq<real>)
    requires ValidSimilarities(catalog, similarities)
    ensures var cands := SortDesc(Candidates(profile, catalog, similarities), FitKey);
      var r := Prefix(cands, DefaultTopK);
      && |r| == (if |cands| <= 10 then |cands| else 10)
      && r == cands[..|r|]
  {
  }

  /** With a beginner profile whose only skill is python and whose target is
      software development, "Python for Beginners" scores at least 60 for
      any TF-IDF similarity, so it clears the threshold. */
  lemma PythonForBeginnersScenario(similarity: real)
    requires 0.0 <= similarity <= 1.0
    ensures var r := ScoreCourse(PythonStudent(), PythonForBeginners(), similarity);
      60 <= r.fitScore && MinFitScore < r.fitScore
  {
    var p, c := PythonStudent(), PythonForBeginners();
    ContainsSelf(Lower("software development"));
    assert TargetDomainMatches(p.targetDomain, c.domain);
    assert LevelMatch(p.level, c.level) == 1.0;
    assert PrerequisiteScore(p.technicalSkills, c.prerequisites) == 1.0;
    var x := 100.0 * (0.5 * similarity + 0.25 * 1.0 + 0.25 * 1.0) * 1.2;
    assert x >= 60.0;
  }

  function PythonStudent(): UserProfile
  {
    UserProfile("Bachelor's", "Computer Science", ["python"], [], [], Some("software development"), None, "beginner")
  }

  /** The first course of the catalog. */
  function PythonForBeginners(): Course
  {
    Course("Python for Beginners", "Coursera", "6 weeks", ["none"], ["python", "programming", "basic coding"],
           "beginner", "https://coursera.org/learn/python-basics", "software development", "free")
  }

  // ---------------------------------------------------------------------
  // generate_learning_timeline

  /** The timeline's prerequisite test, all(any(...) ...): every
      prerequisite other than 'none' has a lowered user skill similar to it
      above 0.7. */
  predicate TimelinePrereqsMet(prereqs: seq<string>, userSkills: seq<string>)
    decreases |prereqs|
  {
    prereqs == []
    || ((prereqs[0] == "none" || AnySimilar(prereqs[0], userSkills, 0.7))
        && TimelinePrereqsMet(prereqs[1..], userSkills))
  }

  lemma {:induction false} TimelinePrereqsMetIff(prereqs: seq<string>, userSkills: seq<string>)
    ensures TimelinePrereqsMet(prereqs, userSkills) <==>
      forall i :: 0 <= i < |prereqs| && prereqs[i] != "none" ==> AnySimilar(prereqs[i], userSkills, 0.7)
    decreases |prereqs|
  {
    if prereqs != [] {
      TimelinePrereqsMetIff(prereqs[1..], userSkills);
      assert forall i :: 0 < i < |prereqs| ==> prereqs[i] == prereqs[1..][i - 1];
    }
  }

  predicate IsShortTerm(r: Recommendation, userSkills: seq<string>)
  {
    || r.course.level == "beginner"
    || (TimelinePrereqsMet(r.course.prerequisites, userSkills) && r.course.level in ["beginner", "intermediate"])
  }

  /** The recommendations the loop puts in short_term (short == true) or in
      long_term (short == false), in input order. */
  function Bucket(recs: seq<Recommendation>, userSkills: seq<string>, short: bool): seq<Recommendation>
    decreases |recs|
  {
    if recs == [] then []
    else (if IsShortTerm(recs[0], userSkills) == short then [recs[0]] else []) + Bucket(recs[1..], userSkills, short)
  }

  lemma {:induction false} BucketAppend(a: seq<Recommendation>, b: seq<Recommendation>, userSkills: seq<string>, short: bool)
    ensures Bucket(a + b, userSkills, short) == Bucket(a, userSkills, short) + Bucket(b, userSkills, short)
    decreases |a|
  {
    if a == [] {
      assert a + b == b;
    } else {
      assert (a + b)[1..] == a[1..] + b;
      BucketAppend(a[1..], b, userSkills, short);
    }
  }

  lemma {:induction false} BucketMembers(recs: seq<Recommendation>, userSkills: seq<string>, short: bool, x: Recommendation)
    ensures x in Bucket(recs, userSkills, short) <==> x in recs && IsShortTerm(x, userSkills) == short
    decreases |recs|
  {
    if recs != [] {
      BucketMembers(recs[1..], userSkills, short, x);
      assert x in recs <==> x == recs[0] || x in recs[1..];
    }
  }

  lemma {:induction false} BucketIsSubsequence(recs: seq<Recommendation>, userSkills: seq<string>, short: bool)
    ensures IsSubsequence(Bucket(recs, userSkills, short), recs)
    decreases |recs|
  {
    if recs != [] {
      BucketIsSubsequence(recs[1..], userSkills, short);
      var b := Bucket(recs, userSkills, short);
      if IsShortTerm(recs[0], userSkills) == short {
        assert b[0] == recs[0] && b[1..] == Bucket(recs[1..], userSkills, short);
      } else {
        assert b == Bucket(recs[1..], userSkills, short);
        SubsequenceOfTail(b, recs);
      }
    }
  }

  /** Each bucket holds every input course of its kind exactly as often as
      the input does, and the two buckets together are the input. */
  lemma {:induction false} BucketsPartition(recs: seq<Recommendation>, userSkills: seq<string>)
    ensures multiset(Bucket(recs, userSkills, true)) + multiset(Bucket(recs, userSkills, false)) == multiset(recs)
    decreases |recs|
  {
    if recs != [] {
      BucketsPartition(recs[1..], userSkills);
      assert recs == [recs[0]] + recs[1..];
    }
  }

  datatype Timeline = Timeline(shortTerm: seq<Recommendation>, longTerm: seq<Recommendation>)

  /** One more recommendation examined by the loop. */
  lemma BucketStep(recs: seq<Recommendation>, userSkills: seq<string>, short: bool, i: nat)
    requires i < |recs|
    ensures Bucket(recs[..i + 1], userSkills, short)
         == Bucket(recs[..i], userSkills, short) + (if IsShortTerm(recs[i], userSkills) == short then [recs[i]] else [])
  {
    assert recs[..i + 1] == recs[..i] + [recs[i]];
    BucketAppend(recs[..i], [recs[i]], userSkills, short);
    assert [recs[i]][1..] == [];
  }

  /** The truncated buckets keep input order and respect the level rule:
      no advanced course is short-term and no beginner course long-term. */
  lemma TruncatedBuckets(recs: seq<Recommendation>, userSkills: seq<string>, short: bool, cap: nat)
    ensures |Prefix(Bucket(recs, userSkills, short), cap)| <= cap
    ensures IsSubsequence(Prefix(Bucket(recs, userSkills, short), cap), recs)
    ensures forall r :: r in Prefix(Bucket(recs, userSkills, short), cap) ==>
      if short then r.course.level != "advanced" else r.course.level != "beginner"
  {
    var b := Bucket(recs, userSkills, short);
    var t := Prefix(b, cap);
    BucketIsSubsequence(recs, userSkills, short);
    PrefixIsSubsequence(b, recs, |t|);
    forall r | r in t
      ensures if short then r.course.level != "advanced" else r.course.level != "beginner"
    {
      PrefixKeeps(b, cap, FitKey);
      BucketMembers(recs, userSkills, short, r);
    }
  }

  method GenerateLearningTimeline(recommendations: seq<Recommendation>, profile: UserProfile) returns (timeline: Timeline)
    ensures var skills := LowerAll(profile.technicalSkills);
      && timeline.shortTerm == Prefix(Bucket(recommendations, skills, true), ShortTermCap)
      && timeline.longTerm == Prefix(Bucket(recommendations, skills, false), LongTermCap)
    ensures |timeline.shortTerm| <= ShortTermCap && |timeline.longTerm| <= LongTermCap
    ensures IsSubsequence(timeline.shortTerm, recommendations) && IsSubsequence(timeline.longTerm, recommendations)
    ensures forall r :: r in timeline.shortTerm ==> r.course.level != "advanced"
    ensures forall r :: r in timeline.longTerm ==> r.course.level != "beginner"
  {
    var shortTerm: seq<Recommendation> := [];
    var longTerm: seq<Recommendation> := [];
    var userSkills := LowerAll(profile.technicalSkills);
    for i := 0 to |recommendations|
      invariant shortTerm == Bucket(recommendations[..i], userSkills, true)
      invariant longTerm == Bucket(recommendations[..i], userSkills, false)
    {
      BucketStep(recommendations, userSkills, true, i);
      BucketStep(recommendations, userSkills, false, i);
      var course := recommendations[i];
      var courseLevel := course.course.level;
      var prerequisitesMet := TimelinePrereqsMet(course.course.prerequisites, userSkills);
      if courseLevel == "beginner" || (prerequisitesMet && courseLevel in ["beginner", "intermediate"]) {
        shortTerm := shortTerm + [course];
      } else {
        longTerm := longTerm + [course];
      }
    }
    assert recommendations[..|recommendations|] == recommendations;
    timeline := Timeline(Prefix(shortTerm, ShortTermCap), Prefix(longTerm, LongTermCap));
    TruncatedBuckets(recommendations, userSkills, true, ShortTermCap);
    TruncatedBuckets(recommendations, userSkills, false, LongTermCap);
  }

  /** Before truncation every recommendation lands in exactly one bucket. */
  lemma TimelineBucketsPartition(recommendations: seq<Recommendation>, profile: UserProfile, r: Recommendation)
    ensures var skills := LowerAll(profile.technicalSkills);
      && multiset(Bucket(recommendations, skills, true)) + multiset(Bucket(recommendations, skills, false))
         == multiset(recommendations)
      && (r in recommendations ==> (r in Bucket(recommendations, skills, true) <==> r !in Bucket(recommendations, skills, false)))
  {
    var skills := LowerAll(profile.technicalSkills);
    BucketsPartition(recommendations, skills);
    BucketMembers(recommendations, skills, true, r);
    BucketMembers(recommendations, skills, false, r);
  }

  // ---------------------------------------------------------------------
  // generate_rationale

  /** The tags `skill` matches above 0.6, in tag order. */
  function TagsMatching(skill: string, tags: seq<string>): seq<string>
    decreases |tags|
  {
    if tags == [] then []
    else (if SkillSimilarity(skill, tags[0]) > 0.6 then [tags[0]] else []) + TagsMatching(skill, tags[1..])
  }

  /** matching_skills: for each user skill in turn, the tags it matches. */
  function MatchedTags(userSkills: seq<string>, tags: seq<string>): seq<string>
    decreases |userSkills|
  {
    if userSkills == [] then [] else TagsMatching(userSkills[0], tags) + MatchedTags(userSkills[1..], tags)
  }

  /** missing_prereqs: the prerequisites other than 'none' that no lowered
      user skill matches above 0.7, in prerequisite order. */
  function MissingPrereqs(prereqs: seq<string>, skillsLower: seq<string>): seq<string>
    decreases |prereqs|
  {
    if prereqs == [] then []
    else
      (if prereqs[0] != "none" && !AnySimilar(prereqs[0], skillsLower, 0.7)
       then [prereqs[0]] else [])
      + MissingPrereqs(prereqs[1..], skillsLower)
  }

  /** set(xs) listed once each, in first-occurrence order. */
  function Distinct(xs: seq<string>): (r: seq<string>)
    ensures forall x :: x in r <==> x in xs
    ensures forall i, j :: 0 <= i < j < |r| ==> r[i] != r[j]
    ensures |r| <= |xs|
    decreases |xs|
  {
    if xs == [] then []
    else
      var d := Distinct(xs[..|xs| - 1]);
      assert xs == xs[..|xs| - 1] + [xs[|xs| - 1]];
      if xs[|xs| - 1] in d then d else d + [xs[|xs| - 1]]
  }

  const BuildsOnSkills: string := "Builds directly on your current skills"

  /** The first, optional part: the matched tags shown, at most two. */
  function MatchClause(matched: seq<string>): string
  {
    "Matches your skills in " + JoinWith(", ", Distinct(Prefix(matched, 2)))
  }

  /** The second part: what the course teaches that the user lacks, or that
      it builds on what they know. */
  function MissingClause(missing: seq<string>): string
  {
    if missing != [] then "Will help you learn " + JoinWith(", ", Prefix(missing, 2)) else BuildsOnSkills
  }

  /** rationale_parts, given matching_skills and missing_prereqs. */
  function RationaleParts(matched: seq<string>, missing: seq<string>, c: Course): seq<string>
  {
    (if matched != [] then [MatchClause(matched)] else [])
    + [MissingClause(missing), "Level: " + Title(c.level), "Duration: " + c.duration, "Cost: " + Title(c.cost)]
  }

  lemma {:induction false} TagsMatchingAppend(skill: string, a: seq<string>, b: seq<string>)
    ensures TagsMatching(skill, a + b) == TagsMatching(skill, a) + TagsMatching(skill, b)
    decreases |a|
  {
    if a == [] {
      assert a + b == b;
    } else {
      assert (a + b)[1..] == a[1..] + b;
      TagsMatchingAppend(skill, a[1..], b);
    }
  }

  lemma {:induction false} MatchedTagsAppend(a: seq<string>, b: seq<string>, tags: seq<string>)
    ensures MatchedTags(a + b, tags) == MatchedTags(a, tags) + MatchedTags(b, tags)
    decreases |a|
  {
    if a == [] {
      assert a + b == b;
    } else {
      assert (a + b)[1..] == a[1..] + b;
      MatchedTagsAppend(a[1..], b, tags);
    }
  }

  lemma {:induction false} MissingPrereqsAppend(a: seq<string>, b: seq<string>, skillsLower: seq<string>)
    ensures MissingPrereqs(a + b, skillsLower) == MissingPrereqs(a, skillsLower) + MissingPrereqs(b, skillsLower)
    decreases |a|
  {
    if a == [] {
      assert a + b == b;
    } else {
      assert (a + b)[1..] == a[1..] + b;
      MissingPrereqsAppend(a[1..], b, skillsLower);
    }
  }

  /** One more tag examined by the inner loop. */
  lemma TagsMatchingStep(skill: string, tags: seq<string>, j: nat)
    requires j < |tags|
    ensures TagsMatching(skill, tags[..j + 1])
         == TagsMatching(skill, tags[..j]) + (if SkillSimilarity(skill, tags[j]) > 0.6 then [tags[j]] else [])
  {
    assert tags[..j + 1] == tags[..j] + [tags[j]];
    TagsMatchingAppend(skill, tags[..j], [tags[j]]);
  }

  /** One more user skill examined by the outer loop. */
  lemma MatchedTagsStep(userSkills: seq<string>, tags: seq<string>, i: nat)
    requires i < |userSkills|
    ensures MatchedTags(userSkills[..i + 1], tags) == MatchedTags(userSkills[..i], tags) + TagsMatching(userSkills[i], tags)
  {
    assert userSkills[..i + 1] == userSkills[..i] + [userSkills[i]];
    MatchedTagsAppend(userSkills[..i], [userSkills[i]], tags);
    assert [userSkills[i]][1..] == [];
  }

  /** One more prerequisite examined by the second loop. */
  lemma MissingPrereqsStep(prereqs: seq<string>, skillsLower: seq<string>, i: nat)
    requires i < |prereqs|
    ensures MissingPrereqs(prereqs[..i + 1], skillsLower) == MissingPrereqs(prereqs[..i], skillsLower)
      + (if prereqs[i] != "none" && !AnySimilar(prereqs[i], skillsLower, 0.7) then [prereqs[i]] else [])
  {
    assert prereqs[..i + 1] == prereqs[..i] + [prereqs[i]];
    MissingPrereqsAppend(prereqs[..i], [prereqs[i]], skillsLower);
    assert [prereqs[i]][1..] == [];
  }

  lemma AppendFour(a: seq<string>, w: string, x: string, y: string, z: string)
    ensures a + [w] + [x] + [y] + [z] == a + [w, x, y, z]
  {
  }

  method GenerateRationale(c: Course, profile: UserProfile) returns (rationale: string)
    ensures rationale == JoinWith(". ", RationaleParts(
      MatchedTags(profile.technicalSkills, c.skillTags),
      MissingPrereqs(c.prerequisites, LowerAll(profile.technicalSkills)), c)) + "."
  {
    var userSkills := profile.technicalSkills;
    var courseSkills := c.skillTags;
    var matchingSkills: seq<string> := [];
    for i := 0 to |userSkills|
      invariant matchingSkills == MatchedTags(userSkills[..i], courseSkills)
    {
      MatchedTagsStep(userSkills, courseSkills, i);
      ghost var before := matchingSkills;
      for j := 0 to |courseSkills|
        invariant matchingSkills == before + TagsMatching(userSkills[i], courseSkills[..j])
      {
        TagsMatchingStep(userSkills[i], courseSkills, j);
        if SkillSimilarity(userSkills[i], courseSkills[j]) > 0.6 {
          matchingSkills := matchingSkills + [courseSkills[j]];
        }
      }
      assert courseSkills[..|courseSkills|] == courseSkills;
    }
    assert userSkills[..|userSkills|] == userSkills;
    var missingPrereqs: seq<string> := [];
    var userSkillsLower := LowerAll(userSkills);
    for i := 0 to |c.prerequisites|
      invariant missingPrereqs == MissingPrereqs(c.prerequisites[..i], userSkillsLower)
    {
      MissingPrereqsStep(c.prerequisites, userSkillsLower, i);
      var prereq := c.prerequisites[i];
      if prereq != "none" && !AnySimilar(prereq, userSkillsLower, 0.7) {
        missingPrereqs := missingPrereqs + [prereq];
      }
    }
    assert c.prerequisites[..|c.prerequisites|] == c.prerequisites;
    var parts: seq<string> := [];
    if matchingSkills != [] {
      parts := parts + [MatchClause(matchingSkills)];
    }
    ghost var first := parts;
    assert first == if matchingSkills != [] then [MatchClause(matchingSkills)] else [];
    if missingPrereqs != [] {
      parts := parts + ["Will help you learn " + JoinWith(", ", Prefix(missingPrereqs, 2))];
    } else {
      parts := parts + [BuildsOnSkills];
    }
    assert parts == first + [MissingClause(missingPrereqs)];
    parts := parts + ["Level: " + Title(c.level)];
    parts := parts + ["Duration: " + c.duration];
    parts := parts + ["Cost: " + Title(c.cost)];
    AppendFour(first, MissingClause(missingPrereqs), "Level: " + Title(c.level), "Duration: " + c.duration, "Cost: " + Title(c.cost));
    rationale := JoinWith(". ", parts) + ".";
  }

  /** A rationale names at most two missing prerequisites, never 'none', and
      each one a prerequisite of the course that no user skill matches; and
      it names at most two matched tags, each one a tag of the course that
      some user skill matches above 0.6. */
  lemma RationaleNames(c: Course, profile: UserProfile)
    ensures var missing := Prefix(MissingPrereqs(c.prerequisites, LowerAll(profile.technicalSkills)), 2);
      && |missing| <= 2
      && forall m :: m in missing ==>
           && m != "none" && m in c.prerequisites
           && !AnySimilar(m, LowerAll(profile.technicalSkills), 0.7)
    ensures var shown := Distinct(Prefix(MatchedTags(profile.technicalSkills, c.skillTags), 2));
      && |shown| <= 2
      && (forall i, j :: 0 <= i < j < |shown| ==> shown[i] != shown[j])
      && forall t :: t in shown ==>
           t in c.skillTags && exists s :: s in profile.technicalSkills && SkillSimilarity(s, t) > 0.6
  {
    var sl := LowerAll(profile.technicalSkills);
    var missing := MissingPrereqs(c.prerequisites, sl);
    forall m | m in Prefix(missing, 2)
      ensures m != "none" && m in c.prerequisites && !AnySimilar(m, sl, 0.7)
    {
      MissingMembers(c.prerequisites, sl, m);
    }
    var matched := MatchedTags(profile.technicalSkills, c.skillTags);
    forall t | t in Distinct(Prefix(matched, 2))
      ensures t in c.skillTags && exists s :: s in profile.technicalSkills && SkillSimilarity(s, t) > 0.6
    {
      MatchedMembers(profile.technicalSkills, c.skillTags, t);
    }
  }

  lemma {:induction false} MissingMembers(prereqs: seq<string>, skillsLower: seq<string>, m: string)
    ensures m in MissingPrereqs(prereqs, skillsLower) <==>
      m in prereqs && m != "none" && !AnySimilar(m, skillsLower, 0.7)
    decreases |prereqs|
  {
    if prereqs != [] {
      MissingMembers(prereqs[1..], skillsLower, m);
      assert m in prereqs <==> m == prereqs[0] || m in prereqs[1..];
    }
  }

  lemma {:induction false} TagsMatchingMembers(skill: string, tags: seq<string>, t: string)
    ensures t in TagsMatching(skill, tags) <==> t in tags && SkillSimilarity(skill, t) > 0.6
    decreases |tags|
  {
    if tags != [] {
      TagsMatchingMembers(skill, tags[1..], t);
      assert t in tags <==> t == tags[0] || t in tags[1..];
    }
  }

  lemma {:induction false} MatchedMembers(userSkills: seq<string>, tags: seq<string>, t: string)
    ensures t in MatchedTags(userSkills, tags) <==>
      t in tags && exists s :: s in userSkills && SkillSimilarity(s, t) > 0.6
    decreases |userSkills|
  {
    if userSkills != [] {
      MatchedMembers(userSkills[1..], tags, t);
      TagsMatchingMembers(userSkills[0], tags, t);
      assert forall s :: s in userSkills <==> s == userSkills[0] || s in userSkills[1..];
    }
  }

  /** The rationale has five parts when some tag matched and four
      otherwise, and it says it builds on current skills exactly when nothing
      is missing. */
  lemma RationalePartsShape(matched: seq<string>, missing: seq<string>, c: Course)
    ensures var parts := RationaleParts(matched, missing, c);
      && |parts| == (if matched == [] then 4 else 5)
      && parts[|parts| - 3] == "Level: " + Title(c.level)
      && parts[|parts| - 2] == "Duration: " + c.duration
      && parts[|parts| - 1] == "Cost: " + Title(c.cost)
      && (BuildsOnSkills in parts <==> missing == [])
  {
    var parts := RationaleParts(matched, missing, c);
    StartsDiffer("Matches your skills in ", JoinWith(", ", Distinct(Prefix(matched, 2))));
    StartsDiffer("Will help you learn ", JoinWith(", ", Prefix(missing, 2)));
    StartsDiffer("Level: ", Title(c.level));
    StartsDiffer("Duration: ", c.duration);
    StartsDiffer("Cost: ", Title(c.cost));
  }

  /** The rationale text ends with a period and, when nothing is missing,
      contains the "builds on" sentence. */
  lemma RationaleText(matched: seq<string>, missing: seq<string>, c: Course)
    ensures var text := JoinWith(". ", RationaleParts(matched, missing, c)) + ".";
      && text[|text| - 1] == '.'
      && (missing == [] ==> Contains(text, BuildsOnSkills))
  {
    var parts := RationaleParts(matched, missing, c);
    if missing == [] {
      var k := if matched == [] then 0 else 1;
      assert parts[k] == MissingClause(missing);
      JoinContainsPart(". ", parts, k);
      ContainsWithin("", JoinWith(". ", parts), ".", BuildsOnSkills);
      assert "" + JoinWith(". ", parts) + "." == JoinWith(". ", parts) + ".";
    }
  }

  /** A part that starts with a fixed prefix other than "B" is not the
      "builds on" sentence. */
  lemma StartsDiffer(prefix: string, rest: string)
    requires prefix != [] && prefix[0] != 'B'
    ensures prefix + rest != BuildsOnSkills
  {
    assert (prefix + rest)[0] == prefix[0];
  }
}
