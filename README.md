# Course recommendation engines, modelled in Dafny

The repository recommends online courses to a learner. It has two separate
rule-based engines. Each one scores every course of a catalog against a user
profile. It keeps the courses above a threshold, sorts them by fit score
(high first, stable), truncates the list, and explains each pick in one
sentence.

- **AlternativeMatchingEngine** (`matching_engine.py`).
  - It blends a TF-IDF similarity (50%), a level match (25%) and a
    prerequisite match (25%).
  - The blend gets a ×1.2 bonus when the target domain matches.
  - Fit score: `min(100, int(100·blend))`. Threshold: above 20. Default
    `top_k`: 10.
  - It also splits recommendations into a short-term plan (at most 3
    courses) and a long-term plan (at most 5).
  - Catalog list columns are parsed from strings such as `"['html', 'css']"`.
- **SimpleCareerRecommender** (`app.py`).
  - It blends keyword overlap (60%) with a fixed 3×3 level table (40%).
  - Bonuses: ×1.5 when the target domain matches and ×1.2 when an interest
    matches.
  - Threshold: above 15. Default `top_k`: 8.
  - Its rationale has a fallback phrase for when no skill matches.

The two engines are modelled separately, as written. They share the records
(`Catalog`), the ASCII string operations (`Text`) and generic ranking
machinery (`Ranking`):

- `text.dfy`: `lower`, substring `in`, `split`, `strip`, `replace`, `join`
  and `title` on ASCII strings.
- `list_field.dfy`: the catalog's list-column parser.
- `catalog.dfy`: courses, profiles, Python truthiness, `int()` truncation and
  the fit-score cap.
- `ranking.dfy`:
  - a stable insertion sort in descending key order;
  - filters and prefixes;
  - what it means for a sort to be stable;
  - counting.
- `matching_engine.dfy`: `AlternativeMatchingEngine`.
- `simple_recommender.dfy`: `SimpleCareerRecommender`.

Where the Python code builds a result step by step (counter loops, lists
built by appending, the sort), the model is a `method` with loops. Each such
method is proved equal to a specification function, and the promised
properties are lemmas about that function. Pure helpers (similarity, level
match, text builders, the parser) are functions. The sort is the stable
insertion sort `Ranking.SortDesc`. `Ranking.StableSortUnique` proves that
every stable descending sort gives the same list. So Python's `list.sort`
(Timsort) and the model produce the same recommendations.

## Model

| member | source | states |
|---|---|---|
| ListField.ParseListField | matching_engine.py:22-26 | A non-string cell gives []. A string cell gives one token more than it has commas. No token contains `,` or `'`, and none has leading or trailing whitespace. |
| ListField.EmptyListIsOneEmptyToken | matching_engine.py:24 | The cell `"[]"` parses to `[""]`, not to `[]`. |
| Text.SplitOnJoin | matching_engine.py:24 | Splitting on a character and joining with it gives the string back (the model of `split(',')` loses nothing). |
| MatchingEngine.CourseDocumentMentions | matching_engine.py:29-32 | The text indexed for a course contains its title, its provider, its domain and each skill tag. |
| MatchingEngine.ProfileTextMentions | matching_engine.py:38-48 | The profile text contains the education, the major and every technical skill. A null target domain or career goal appears as the text `None`. |
| MatchingEngine.SkillSimilarity | matching_engine.py:82-102 | The similarity of two skills is always in [0, 1]. |
| MatchingEngine.SkillSimilarityCases | matching_engine.py:84-102 | 1.0 when the skills are equal up to case. 0.8 when they differ and one contains the other. 0.0 exactly when neither contains the other and their word sets are disjoint. |
| MatchingEngine.SkillSimilaritySymmetric | matching_engine.py:82-102 | Swapping the two skills does not change the similarity. |
| MatchingEngine.Ordinal | matching_engine.py:52-54 | A level's ordinal is at most 2. |
| MatchingEngine.LevelMatch | matching_engine.py:50-62 | Always in [0.3, 1.0]. 1.0 when the course is at or below the user's level, 0.7 one level above, 0.3 two levels above. |
| MatchingEngine.LevelMatchMonotone | matching_engine.py:57-62 | The score never rises as the course gets farther above the user. |
| MatchingEngine.UnknownLevelIsBeginner | matching_engine.py:53-54 | A level that is none of the three names, after lowering, counts as `beginner` on either side. |
| MatchingEngine.PrerequisiteScore | matching_engine.py:64-80 | The prerequisite score is in [0, 1], and it is 1.0 for no prerequisites or exactly `['none']`. |
| MatchingEngine.CalculatePrerequisiteMatch | matching_engine.py:64-80 | The counting loop computes `PrerequisiteScore`: 1.0 for `[]` or `['none']`, otherwise the met prerequisites over their number. |
| MatchingEngine.AnySimilarIff | matching_engine.py:77 | The `any(... > 0.7)` test holds exactly when some user skill has a similarity above the threshold. |
| MatchingEngine.PrerequisiteScoreIsFraction | matching_engine.py:69-80 | Outside the two special lists, the score is the size of the set of positions whose prerequisite is met, divided by the list length. |
| MatchingEngine.AllRelatedIsFullScore | matching_engine.py:75-80 | When every prerequisite has a user skill that it contains or that contains it, the score is 1.0. |
| MatchingEngine.EmptySkillMeetsEverything | matching_engine.py:75 | An empty user skill is a substring of every prerequisite, so the score is 1.0. |
| MatchingEngine.EmptyTokenWithoutSkills | matching_engine.py:66-80 | The list `[""]` with no user skills scores 0.0. |
| MatchingEngine.EmptyTokenWithSkills | matching_engine.py:66-80 | Any non-empty skill list fully meets the list `[""]`. |
| MatchingEngine.EmptyPrerequisiteCell | matching_engine.py:64-80 | A catalog cell `"[]"` scores 0.0 for a user without skills and 1.0 otherwise. It is not treated as "no prerequisites". |
| MatchingEngine.CombinedScoreBounds | matching_engine.py:134-138 | For component scores in [0, 1] and a bonus of 1.0 or 1.2, the blend is non-negative. |
| MatchingEngine.FitFromScores | matching_engine.py:134-141 | Fit = `min(100, floor(100·(0.5s + 0.25l + 0.25p)·b))`, in [0, 100]. Without the bonus no capping happens. |
| MatchingEngine.ScoreCourse | matching_engine.py:119-158 | A course's entry carries the course, the given similarity, the level score and the prerequisite score. Its fit uses b = 1.2 exactly when the target domain is non-empty and, lowered, inside the lowered course domain. |
| MatchingEngine.ScoreAllStep | matching_engine.py:117 | Scoring one more course appends its entry. |
| MatchingEngine.RankedCandidates | matching_engine.py:143-161 | The sorted candidates are in descending fit order. They number at most the catalog size, and every fit is in (20, 100]. |
| MatchingEngine.RecommendCourses | matching_engine.py:104-163 | The loop and sort return exactly the first `top_k` entries of the stably sorted list of catalog entries with fit above 20. Every fit is in (20, 100]. The list is sorted descending and has length at most min(`top_k`, catalog size). |
| MatchingEngine.TiesKeepCatalogOrder | matching_engine.py:143-161 | The entries with any one fit score appear in catalog order. No entry with fit 20 or less appears. |
| MatchingEngine.RecommendationsFromCatalog | matching_engine.py:117-158 | Every recommendation is the scored entry of some catalog course. |
| MatchingEngine.RankingIsUnique | matching_engine.py:161-163 | Any stable descending sort of the candidates yields the same `top_k` prefix. |
| MatchingEngine.DefaultCallLength | matching_engine.py:104-163 | Called without `top_k`, the engine returns the first 10 ranked candidates, or all of them when there are fewer. |
| MatchingEngine.PythonForBeginnersScenario | matching_engine.py:104-143 | A beginner whose only skill is python, targeting software development, scores at least 60 on "Python for Beginners", whatever the TF-IDF similarity. |
| MatchingEngine.TimelinePrereqsMetIff | matching_engine.py:175-179 | The timeline's `all(any(...))` holds exactly when every prerequisite other than `'none'` has a user skill with similarity above 0.7. |
| MatchingEngine.BucketAppend | matching_engine.py:173-186 | Bucketing a concatenation is the concatenation of the buckets. |
| MatchingEngine.BucketMembers | matching_engine.py:182-186 | A course is in the short-term (long-term) bucket exactly when it is an input and passes (fails) the short-term test. |
| MatchingEngine.BucketIsSubsequence | matching_engine.py:173-186 | Each bucket preserves input order. |
| MatchingEngine.BucketsPartition | matching_engine.py:182-186 | The two buckets together hold the input, each course as often as it occurs. |
| MatchingEngine.BucketStep | matching_engine.py:173-186 | One more course examined appends it to exactly the bucket its test selects. |
| MatchingEngine.TruncatedBuckets | matching_engine.py:182-190 | A capped bucket has at most the cap, preserves input order, and never holds an advanced course (short term) or a beginner course (long term). |
| MatchingEngine.GenerateLearningTimeline | matching_engine.py:165-191 | The loop returns the first 3 of the short-term bucket and the first 5 of the long-term bucket. Both are order-preserving subsequences of the input. No advanced course is short-term and no beginner course is long-term. |
| MatchingEngine.TimelineBucketsPartition | matching_engine.py:173-186 | Before truncation every input course lands in exactly one of the two buckets. |
| MatchingEngine.Distinct | matching_engine.py:216 | The de-duplicated matched tags have the same members as the list, each listed once, and are no more numerous. |
| MatchingEngine.TagsMatchingAppend | matching_engine.py:201-203 | Matching tags over a concatenation concatenates the matches. |
| MatchingEngine.MatchedTagsAppend | matching_engine.py:199-203 | The matches of a concatenation of user skills concatenate the matches. |
| MatchingEngine.MissingPrereqsAppend | matching_engine.py:206-211 | The missing prerequisites of a concatenation concatenate the missing ones. |
| MatchingEngine.TagsMatchingStep | matching_engine.py:201-203 | The inner loop step appends a tag exactly when its similarity to the skill is above 0.6. |
| MatchingEngine.MatchedTagsStep | matching_engine.py:200-203 | The outer loop step appends that skill's matching tags. |
| MatchingEngine.MissingPrereqsStep | matching_engine.py:208-211 | The prerequisite loop step appends a prerequisite exactly when it is not `'none'` and no lowered user skill matches it above 0.7. |
| MatchingEngine.GenerateRationale | matching_engine.py:193-227 | The loops return the parts built from the matched tags and the missing prerequisites, joined by `". "` and ended with `"."`. |
| MatchingEngine.RationaleNames | matching_engine.py:215-219 | At most two missing prerequisites are named. Each is a prerequisite of the course, is not `'none'`, and has no user skill matching it. At most two matched tags are named, each once. Each is a course tag that some user skill matches above 0.6. |
| MatchingEngine.MissingMembers | matching_engine.py:206-211 | A name is missing exactly when it is a prerequisite, is not `'none'`, and no user skill matches it above 0.7. |
| MatchingEngine.TagsMatchingMembers | matching_engine.py:201-203 | A tag matches a skill exactly when it is a course tag with similarity above 0.6. |
| MatchingEngine.MatchedMembers | matching_engine.py:199-203 | A tag is in `matching_skills` exactly when it is a course tag that some user skill matches above 0.6. |
| MatchingEngine.RationalePartsShape | matching_engine.py:213-225 | Five parts when some tag matched, four otherwise. The last three are level (title-cased), duration and cost (title-cased). "Builds directly on your current skills" is a part exactly when nothing is missing. |
| MatchingEngine.RationaleText | matching_engine.py:227 | The rationale ends with `"."`. It contains "Builds directly on your current skills" when nothing is missing. |
| SimpleRecommender.GeneratedCoursesHaveKnownLevels | app.py:42-92 | The built-in catalog has ten courses, each at one of the three level names. |
| SimpleRecommender.KeywordSimilarity | app.py:94-106 | The keyword similarity is in [0, 1], and 0 with no user skills. |
| SimpleRecommender.CalculateSimilarity | app.py:94-106 | The nested loops with `break` compute `KeywordSimilarity`: the user skills related to some tag, each counted once, over the number of user skills. |
| SimpleRecommender.KeywordSimilarityCountsSkills | app.py:99-106 | The score is the number of positions whose user skill matches some tag, over the number of user skills. Many matching tags still count once. |
| SimpleRecommender.KeywordSimilarityExtremes | app.py:99-106 | With skills, the score is 1.0 exactly when every user skill relates to a tag. It is 0.0 exactly when none does. |
| Text.AnyRelatedSnoc | app.py:100-104 | The inner loop examines one more tag: a match is found so far exactly when one was found before or this tag relates. |
| SimpleRecommender.LevelMatch | app.py:108-115 | Always in [0.3, 1.0]. 1.0 on the diagonal of the three levels. 0.5 when either level is not an exact, case-sensitive key. |
| SimpleRecommender.LevelTableShape | app.py:110-114 | Over the three levels, a user's own level scores highest, beginner→advanced scores lowest, and only the diagonal reaches 1.0. |
| SimpleRecommender.CombinedScoreBounds | app.py:142 | For scores in [0, 1] and the allowed bonuses, the blend is non-negative. |
| SimpleRecommender.FitFromScores | app.py:142-143 | Fit = `min(100, floor(100·(0.6s + 0.4l)·d·i))`, in [0, 100]. Without bonuses no capping happens. |
| SimpleRecommender.FitWithBonuses | app.py:135-143 | The fit formula with d = 1.5 or 1.0 and i = 1.2 or 1.0 chosen by the two tests. |
| SimpleRecommender.ScoreCourse | app.py:125-157 | A course's entry copies the course's fields. Its fit uses d = 1.5 exactly when the target domain is non-empty and inside the domain (both lowered). It uses i = 1.2 exactly when some lowered interest is inside the lowered domain. The fit is in [0, 100]. |
| SimpleRecommender.ScoreAllStep | app.py:126 | Scoring one more course appends its entry. |
| SimpleRecommender.RankedCandidates | app.py:145-159 | The sorted candidates are descending, at most the catalog size, and every fit is in (15, 100]. |
| SimpleRecommender.RecommendCourses | app.py:117-160 | The loop and sort return exactly the first `top_k` entries of the stably sorted list of catalog entries with fit above 15. Every fit is in (15, 100]. The list is sorted descending and has length at most min(`top_k`, catalog size). |
| SimpleRecommender.TiesKeepCatalogOrder | app.py:145-159 | Entries with equal fit appear in catalog order, and none has fit 15 or less. |
| SimpleRecommender.RecommendationsFromCatalog | app.py:126-157 | Every recommendation is the scored entry of some catalog course. |
| SimpleRecommender.RankingIsUnique | app.py:159-160 | Any stable descending sort of the candidates yields the same `top_k` prefix. |
| SimpleRecommender.DefaultCallLength | app.py:117-160 | Called without `top_k`, the app returns the first 8 ranked candidates, or all of them when there are fewer. |
| SimpleRecommender.PythonForBeginnersScenario | app.py:117-143 | A beginner who knows python and targets software development gets fit 100 on the first built-in course. |
| SimpleRecommender.MatchingSkillsMembers | app.py:167-169 | A user skill is in `matching_skills` exactly when, lowered, it is inside some lowered tag. |
| SimpleRecommender.MatchingSkillsIsSubsequence | app.py:166-169 | `matching_skills` keeps profile order. |
| SimpleRecommender.GenerateRationale | app.py:162-182 | The loop returns the four parts built from the matching skills, joined by `". "` and ended with `"."`. |
| SimpleRecommender.RationaleShape | app.py:171-182 | Always four parts, ending with `"."`. "Great starting point for your interests" exactly when no user skill lies inside a tag. Otherwise the first part names the first at most two matching skills, in profile order. |
| Catalog.FitScore | matching_engine.py:141 | `min(100, int(combined·100))` is at most 100. For non-negative input it is the capped floor. From 1.0 up it is 100. |
| Catalog.TruncIsFloor | matching_engine.py:141 | Python's `int()` on a non-negative score is its floor. |
| Ranking.SortDescCorrect | matching_engine.py:161 | The model sort returns a permutation that is sorted descending and keeps each tie group in input order. |
| Ranking.StableSortUnique | app.py:159 | Two descending lists with the same tie groups are equal, so every stable sort agrees with the model. |
| Ranking.KeepAboveMembers | app.py:145 | The filter keeps exactly the entries whose fit exceeds the threshold. |

## Left out

- TF-IDF vectorising and cosine similarity (matching_engine.py:12, 35-36,
  110-113) are foreign floating-point library calls. The per-course
  similarity is an input, one value in [0, 1] per catalog course.
- Catalog I/O and lazy loading (`pd.read_csv`, the `load_courses` call inside
  `recommend_courses`, the DataFrame and matrix fields) are not modelled. The
  catalog is a parameter of both `RecommendCourses` methods.
  `SimpleRecommender.GeneratedCourses` transcribes the built-in catalog of
  app.py as data.
- The `eval` of stringified skill tags (app.py:128) is dynamic code
  evaluation. In the model the tags are already sequences.
- The Streamlit UI is not modelled: page setup, forms, session state and HTML
  (app.py:2-36, 184-320). backend.py, the HTTP wrapper, is not part of this
  model. course_data.py only writes a CSV and is not part of this model.
- MatchingEngine.Distinct: `set(matching_skills[:2])` iterates in hash order.
  The model lists the names in first-occurrence order. Which names appear,
  and that each appears once, is proved; their order is not.
- Floating point: scores are exact reals, so IEEE rounding at the `int()`
  boundary is not modelled.
- Case mapping and `title()` follow ASCII rules only. Unicode case mapping is
  not modelled.
- Whitespace for `strip()` and `split()` is the ASCII set Python treats as
  whitespace. Non-ASCII whitespace is not modelled.
- Profiles are records with every field present. The `.get(key, default)`
  fallbacks for missing keys are not modelled, nor the crash on a null level.
  A present null target domain or career goal is the `None` option, rendered
  as the text `None` in the profile text.
- `generate_learning_timeline` reads `user_level` (matching_engine.py:170)
  and never uses it, so the model has no such value.
- `generate_learning_timeline` builds `user_skills` as a set. The model uses
  the list of lowered skills, because the `any` test only asks whether some
  skill qualifies, so order and duplicates do not matter.
- MatchingEngine.SkillSimilarity: its own contract gives only the [0, 1]
  bound. The fixed outcomes are in `SkillSimilarityCases`. The shared-word
  ratio between 0 and 1 is stated only through its bound.
- The in-place `list.sort` is modelled as a pure stable insertion sort on a
  sequence. `RecommendCourses` sorts the list it built, not an array in
  place. Stability makes every stable sort agree with it.
- The app's `calculate_similarity` returns the integer 0 for no skills, which
  the model writes as 0.0. Python blends the two the same way.
