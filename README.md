# Resume relevance pipeline in Dafny

This project models the scoring core of a resume screener and proves
properties about it: how a resume is scored against a job description,
cut into a verdict and ranked. It also covers the bookkeeping and the
text handling that feed the scores:

- **Hard match** (`Matching`): fuzzy skill coverage (70 points for required
  skills, 30 for optional ones), experience band, education substrings and
  certification coverage, combined with the fixed 0.5/0.3/0.15/0.05
  weights.
- **Soft match** (`Matching`): TF-IDF, embedding similarity and keyword
  density.
- **Evaluation** (`Scoring`): the blend of hard match and embedding
  similarity, clamped to [0, 100], rounded, given a HIGH/MEDIUM/LOW
  verdict and templated feedback. A stable descending sort ranks a batch
  of evaluations.
- **Embedding store** (`Embedding`): the 60-bit id derived from an MD5
  digest, zero vectors for empty text, and the zero-norm-safe similarity.
  The store itself is a class whose resume and job indexes and metadata
  maps are updated in place. The nearest-neighbour results are
  post-processed here too.
- **Parser** (`Parser`): text normalisation, skill de-duplication, the
  length filters on section pieces, education context windows, the name
  line heuristic, file-type dispatch and the job-description defaults.
- **Quiz** (`Quiz`): grading of a multiple-choice attempt, reading the
  `answers[i]` query parameters, and the public view of a quiz without its
  answer key.
- **Job-creation helpers** (`CreateJob`): removing the code fence around
  the model's JSON reply, coercing the decoded object to the expected
  fields, and joining list values for display.

Foreign code is passed in as parameters:

- rapidfuzz's ratios (`Matching.Fuzzy`);
- the square root behind `numpy.linalg.norm`;
- `round(x, 2)`;
- the sentence encoder (`Embedding.Encoder`);
- the MD5 hex digest;
- the FAISS search;
- the TF-IDF cosine, as an optional real;
- every regular-expression search, replaced by its results (`ExperienceHits`,
  `Extraction`, `JobExtraction`, split section pieces, degree spans);
- the LLM's parsed reply.

Python floats are modelled as reals and Python ints as unbounded integers.

Shared helpers live in `Base` (Option, Result) and `Text` (Python's
`strip`, `split()`, `join`, `lower`, substring search, decimal
printing, first-seen de-duplication). `Vectors` holds the dot product,
squared norm and guarded cosine.

The code sometimes differs from its own comments, and the model follows
the code:

- `evaluate_resume` uses the embedding similarity itself as the soft
  score, not `calculate_soft_match`.
- The weights from `config.py` are not normalised, although a comment there
  says they are.
- `parse_resume` reports a missing name as None rather than "Unknown": the
  contact record always has a `name` key, so the default of
  `dict.get` never applies.
- One might expect the index size to equal the metadata size. The code
  does not keep that: storing the same record id
  twice appends a second index row but keeps one metadata key. The model
  keeps the invariant that does hold: the set of indexed ids equals the
  set of metadata keys. `MetaNoLargerThanIndex` proves the size
  inequality that follows from it.

## Model

| member | source | states |
|---|---|---|
| Matching.FuzzySkillMatch | backend/services/matching.py:183-190 | true exactly when some pool entry reaches the threshold by `ratio` or by `partial_ratio` |
| Matching.PartitionSpec | backend/services/matching.py:42-51 | matched and missing skills together are a permutation of the input; every matched skill matches the pool, no missing one does |
| Matching.PartitionCounts | backend/services/matching.py:42-51 | every skill goes to exactly one of the two lists: their multisets add up to the input's |
| Matching.PartitionClasses | backend/services/matching.py:42-51 | every matched skill matches the pool and no missing skill does |
| Matching.PartitionSkills | backend/services/matching.py:42-51 | the two loops produce the matched and missing lists in input order, with lengths adding up to the input's |
| Matching.Coverage | backend/services/matching.py:53-61 | matched/total×weight lies in [0, weight]; full weight with nothing to match or everything matched; below the weight when something is missing; 0 when nothing matches |
| Matching.SkillsScore | backend/services/matching.py:53-61 | the 70 + 30 skill score lies in [0, 100] and is exactly 100 for two empty lists |
| Matching.SkillsScoreFull | backend/services/matching.py:53-65 | the skill score is 100 exactly when no required and no optional skill is missing |
| Matching.FirstHit | backend/services/matching.py:199-202 | None iff no phrase pattern matched; otherwise the number of the first pattern that did |
| Matching.YearSpan | backend/services/matching.py:204-208 | 0 with fewer than two year mentions, otherwise latest minus earliest, never negative |
| Matching.YearSpanBound | backend/services/matching.py:204-208 | mentions of the form 20dd span at most 99 years |
| Matching.ExtractExperienceYears | backend/services/matching.py:192-208 | the first phrase hit wins; failing that the year span; 0 with fewer than two mentions |
| Matching.DefaultMaxExperience | backend/services/matching.py:68-69 | a missing maximum experience defaults to the minimum plus 10 |
| Matching.ExperienceScore | backend/services/matching.py:73-82 | 100 inside the band, 80 above it, years/min×100 (below 100) under it; always in [0, 100] |
| Matching.CountIn | backend/services/matching.py:218-226 | the education match count is at most the number of requirements and equals it iff every requirement occurs |
| Matching.EducationFraction | backend/services/matching.py:210-227 | matches/requirements lies in [0, 1] and is 1 iff every lowercased requirement occurs in the joined degree and context text |
| Matching.MatchEducation | backend/services/matching.py:210-227 | the counting loops compute that fraction |
| Matching.EducationScore | backend/services/matching.py:87-95 | 100 when either the job's or the resume's education list is empty, otherwise the fraction ×100; in [0, 100] |
| Matching.Weighted | backend/services/matching.py:118-133 | 0.5/0.3/0.15/0.05 weighting of components in [0, 100] stays in [0, 100] and keeps a common value |
| Matching.HardMatchBounds | backend/services/matching.py:20-135 | every sub-score and the overall hard match lie in [0, 100]; no requirements plus an in-band experience give 100 |
| Matching.HardMatchLists | backend/services/matching.py:42-116 | `matched_skills` is the matched required skills followed by the matched optional skills, in order; `missing_skills` is exactly the unmatched required skills; every matched skill matches the resume's skills at threshold 80 and no missing one does; the certification lists partition the required certifications, the matched ones matching at threshold 70 and the missing ones not |
| Matching.CalculateHardMatch | backend/services/matching.py:20-135 | the imperative scorer equals the functional hard match and its overall score is in [0, 100] |
| Matching.KeywordCandidates | backend/services/matching.py:236-239 | only words longer than 3 characters outside the stop-word set survive |
| Matching.KeywordsSpec | backend/services/matching.py:229-241 | at most `top_n` keywords, each a candidate keyword, no duplicates, in first-seen order |
| Matching.KeywordsComplete | backend/services/matching.py:229-241 | there are min(`top_n`, number of distinct candidates) keywords; with fewer than `top_n` keywords every candidate word is one |
| Matching.ExtractKeywords | backend/services/matching.py:229-241 | the loop computes those keywords |
| Matching.KeywordDensity | backend/services/matching.py:162-166 | in [0, 100]; 0 without keywords; 100 iff every keyword occurs in the lowercased resume text |
| Matching.SoftMatchBounds | backend/services/matching.py:168-179 | 0.3/0.5/0.2 weighting of TF-IDF, embedding cosine and density stays in [-50, 100], and is non-negative when the cosine is |
| Matching.CalculateSoftMatch | backend/services/matching.py:137-181 | no TF-IDF value gives 0 for it; a missing embedding gives embedding similarity 0 |
| Vectors.Cosine | backend/services/matching.py:243-251 | 0 when either norm is 0 |
| Vectors.NormSqOfZero | backend/services/matching.py:243-251 | the zero vector has squared norm 0 |
| Vectors.CosineOfZero | backend/services/matching.py:243-251 | the cosine with a zero vector is 0 |
| Embedding.StrToId | backend/services/embedding.py:13-16 | the id is a function of the digest, in [0, 16^15) and below 2^63 |
| Embedding.IdBoundIsPow16 | backend/services/embedding.py:16 | the bound is exactly 16^15 |
| Embedding.HexValueInjective | backend/services/embedding.py:16 | reading hex digits is injective on strings of equal length |
| Embedding.StrToIdCollision | backend/services/embedding.py:13-16 | two strings get the same id iff their digests share the first 15 hex digits |
| Embedding.GenerateEmbeddings | backend/services/embedding.py:70-74 | empty text gives `dim` zeros; other text the encoder's vector |
| Embedding.CalculateSimilarity | backend/services/embedding.py:76-82 | 0 when either norm is 0, otherwise dot/(norm1·norm2)×100 |
| Embedding.EmptyTextSimilarity | backend/services/embedding.py:70-82 | the similarity with the embedding of empty text is 0 |
| Embedding.MetaNoLargerThanIndex | backend/services/embedding.py:84-113 | when the indexed ids are the metadata keys, there are no more metadata entries than index rows |
| Embedding.NonSentinel | backend/services/embedding.py:131-134 | every kept slot is a search slot with id other than -1 |
| Embedding.NonSentinelSnoc | backend/services/embedding.py:131-134 | one more search slot is appended to the kept slots iff its id is not -1, so the kept slots keep search order |
| Embedding.NonSentinelComplete | backend/services/embedding.py:131-134 | every search slot with id other than -1 is kept |
| Embedding.ResultsOf | backend/services/embedding.py:131-141 | one result per non-sentinel slot, carrying the stored record id and metadata and distance×100 |
| Embedding.EmbeddingStore.RebuildIndexFromMeta | backend/services/embedding.py:115-117 | neither index nor metadata changes |
| Embedding.EmbeddingStore.StoreResumeEmbedding | backend/services/embedding.py:84-98 | on success the resume index gains the (id, vector) row and `resume_meta[id]` becomes {resume_id, metadata or {}}, other keys unchanged; the job side never changes; the id/metadata invariant is kept |
| Embedding.EmbeddingStore.StoreJobEmbedding | backend/services/embedding.py:100-113 | the same update on the job side, leaving the resume side untouched |
| Embedding.EmbeddingStore.FindSimilarResumes | backend/services/embedding.py:119-141 | [] for empty metadata or a failed search, otherwise one result per non-sentinel slot in search order; every result has a record id when the search only reports indexed ids |
| Scoring.Clamp | backend/services/scoring.py:38-42 | the score is forced into [0, 100] and values inside are kept |
| Scoring.RelevanceOf | backend/services/scoring.py:31-42 | the blended score is clamped to [0, 100] whatever the weights |
| Scoring.VerdictTiers | backend/services/scoring.py:59-65 | HIGH iff score ≥ high threshold, MEDIUM iff between the thresholds, LOW otherwise |
| Scoring.VerdictMonotone | backend/services/scoring.py:59-65 | a higher score never gets a lower verdict |
| Scoring.DefaultBoundaries | backend/config.py:32-33 | with the defaults 75 and 50 a score exactly at a threshold gets the higher tier |
| Scoring.FeedbackSpec | backend/services/scoring.py:72-91 | one strength iff some skill matched, mentioning each of the first six; one improvement and one suggestion iff some skill is missing, each of the first six mentioned |
| Scoring.GenerateFeedback | backend/services/scoring.py:72-91 | the appending code produces exactly that feedback |
| Scoring.EvaluateResume | backend/services/scoring.py:20-70 | the relevance score is round2 of the clamped blend; the verdict is taken on the unrounded clamped score; the analysis copies the hard match's lists and details |
| Scoring.InsertSorted | backend/services/scoring.py:98 | inserting after all scores not below it keeps a stable descending order |
| Scoring.SortElements | backend/services/scoring.py:98 | the sorted positions are exactly the input positions, as many as there are results |
| Scoring.SortSorted | backend/services/scoring.py:98 | the sorted positions are in non-increasing order of score |
| Scoring.SortDistinct | backend/services/scoring.py:98 | no position appears twice in the sorted order |
| Scoring.SortComplete | backend/services/scoring.py:98 | every input position appears in the sorted order |
| Scoring.StableSortPositions | backend/services/scoring.py:98 | the sort is a permutation of the positions, descending by score, ties in input order |
| Scoring.StableSortSpec | backend/services/scoring.py:98 | the same for a tagged list of evaluations |
| Scoring.EvaluateAll | backend/services/scoring.py:95-97 | one evaluation per resume, in input order |
| Scoring.BatchEvaluate | backend/services/scoring.py:93-99 | one evaluation per resume, sorted stably by non-increasing relevance score |
| Parser.CleanChars | backend/services/parser.py:231 | every character other than an ASCII letter, digit or whitespace becomes a space |
| Parser.PreprocessText | backend/services/parser.py:229-233 | the output's words are exactly the words of the lowercased text once each character other than a letter, digit or whitespace is a space, in order; it holds only lowercase letters, digits and single inner spaces, with no space at either end |
| Parser.PreprocessIdempotent | backend/services/parser.py:229-233 | normalising normalised text changes nothing |
| Parser.SplitOnJoin | backend/services/parser.py:74 | splitting on newlines and joining back gives the text |
| Parser.NonBlankLines | backend/services/parser.py:74 | the kept lines are stripped and non-empty |
| Parser.NonBlankLinesComplete | backend/services/parser.py:74 | every line that is not blank once stripped is kept, stripped |
| Parser.FirstNameLine | backend/services/parser.py:75-78 | the index of the first line that qualifies as a name, or the number of lines when none does |
| Parser.FirstNameIndex | backend/services/parser.py:75-78 | the index of the first candidate line that qualifies as a name, or the number of lines when none does |
| Parser.FirstNameIndexUnique | backend/services/parser.py:75-78 | any index with no qualifying line before it and a qualifying line at it (or at the end) is that first index |
| Parser.NameOfSpec | backend/services/parser.py:74-78 | the name is None iff none of the first eight non-blank lines qualifies; otherwise it is the first qualifying one, stripped and non-empty |
| Parser.ExtractName | backend/services/parser.py:74-78 | the loop finds that name: the first of the first eight non-blank stripped lines with at most four words, no digit and no '@'; None iff none qualifies |
| Parser.ExtractContactInfo | backend/services/parser.py:57-80 | email as found, phone stripped, name the first qualifying line (None iff none qualifies), no location |
| Parser.FindSkills | backend/services/parser.py:92-95 | the listed skills whose lowercase form occurs in the lowercased text, in list order |
| Parser.KeptPieces | backend/services/parser.py:103-107 | at most one piece per input piece; every kept piece is stripped, non-empty and shorter than the limit |
| Parser.KeptPiecesComplete | backend/services/parser.py:103-107 | every piece that is non-empty once stripped and shorter than the limit is kept, stripped |
| Parser.KeepPieces | backend/services/parser.py:103-107 | the loop keeps exactly those pieces, in order |
| Parser.SkillsSpec | backend/services/parser.py:82-115 | no two skills equal ignoring case; each is the first candidate with its lowercase form; order of first occurrence; no lowercase form lost; each is a listed skill found in the text or a stripped section piece of 1 to 59 characters |
| Parser.DedupIgnoringCase | backend/services/parser.py:109-115 | the `seen`-set loop keeps the first skill of each lowercase form |
| Parser.ExtractSkills | backend/services/parser.py:82-115 | the three loops compute the de-duplicated skills, with no two equal ignoring case |
| Parser.ExtractCertifications | backend/services/parser.py:144-157 | the certifications are exactly the kept section pieces: every one is stripped, non-empty and shorter than 100 characters, and every piece that qualifies once stripped is among them; none without a section |
| Parser.Window | backend/services/parser.py:135-136 | the window lies within the text and around the match, at most 50 characters before and 100 after |
| Parser.EntryOfSpec | backend/services/parser.py:135-141 | the degree is the matched text inside the section; the context is stripped and no longer than the section |
| Parser.EntriesOf | backend/services/parser.py:134-141 | one entry per degree match, the k-th built from the k-th match |
| Parser.ExtractEducation | backend/services/parser.py:117-142 | one entry per degree match, in order; none without an education section |
| Parser.KindOf | backend/services/parser.py:174-179 | 'pdf' selects the PDF extractor, 'docx' or 'doc' the DOCX one, compared lowercased |
| Parser.ParseResume | backend/services/parser.py:173-200 | fails with "Unsupported file type: …" iff the lowercased type is none of pdf/docx/doc; otherwise raw and processed text, skills, certifications from the chosen extraction; the k-th education entry built from the k-th degree match; email as found, phone stripped, name the first qualifying line; one stripped project per title; empty experience, no location |
| Parser.ParseJobDescription | backend/services/parser.py:202-227 | minimum experience 0 without a years match; required skills fall back to the first 12 skills of the whole text; empty education, certification and project lists |
| Quiz.CountCorrectSpec | backend/quiz_endpoints.py:155-160 | the raw score is at most the number of questions, equal to it iff all answers are correct, 0 iff none is |
| Quiz.CountCorrectIsSize | backend/quiz_endpoints.py:155-160 | the raw score is the number of correctly answered questions |
| Quiz.ScoreCountsCorrect | backend/quiz_endpoints.py:155-169 | the raw score is the number of per-question results marked correct |
| Quiz.MissingKeyAcceptsMinusOne | backend/quiz_endpoints.py:156-158 | a question without a correct index counts the answer -1 as correct |
| Quiz.ScorePct | backend/quiz_endpoints.py:202 | the percentage is in [0, 100], 0 without questions or correct answers, 100 iff all are correct, and the floor of raw×100/max |
| Quiz.PercentBounds | backend/quiz_endpoints.py:202 | floor(raw×100/max) is at most 100 and is 100 iff raw = max |
| Quiz.AttachFeedback | backend/quiz_endpoints.py:189-200 | one result per entry; explanation and tip come from the reply or default to "" when it is short or unparsable |
| Quiz.GradeAll | backend/quiz_endpoints.py:155-169 | the first loop scores one point per correct choice and builds one entry per question, in order |
| Quiz.EvaluateAnswers | backend/quiz_endpoints.py:141-209 | max score is the question count; a question scores iff the chosen index equals the key (or -1); a missing answer scores 0; per-question results copy index, choice, key and verdict in order |
| Quiz.AnswerKeyInjective | backend/quiz_endpoints.py:306 | different indices give different `answers[i]` keys |
| Quiz.ParseInt | backend/quiz_endpoints.py:309-311 | `int()` of a parameter gives a value only for a non-blank string with none of the separators U+001C–U+001F, which `int()` does not skip; a failed parse is None, the caught exception |
| Quiz.ParseIntRoundTrip | backend/quiz_endpoints.py:309 | a printed natural number parses back to itself |
| Quiz.ParseIntNegativeRoundTrip | backend/quiz_endpoints.py:309 | a printed negative number parses back to itself |
| Quiz.KeysBelowCount | backend/quiz_endpoints.py:305-306 | the keys `answers[0]` … `answers[n-1]` are n different strings |
| Quiz.KeysBelowFresh | backend/quiz_endpoints.py:305-306 | the key of answer n is not among the keys of the earlier answers |
| Quiz.ParseNegative | backend/quiz_endpoints.py:309 | a minus sign followed by decimal digits parses to minus their value |
| Quiz.ReadAnswers | backend/quiz_endpoints.py:303-314 | reads `answers[0]`, `answers[1]`, … up to the first missing key, each parsed or None; no more answers than parameters |
| Quiz.GetQuiz | backend/quiz_endpoints.py:270-287 | 404 iff the quiz is unknown; otherwise the same questions in order with only text and options |
| Quiz.SubmitQuiz | backend/quiz_endpoints.py:289-333 | 404 iff the quiz is unknown; otherwise question k is correct iff `answers[0..k]` are all present and `answers[k]` parses to its key; the raw score is the number of questions marked correct and the percentage is `ScorePct` of it |
| CreateJob.Str | frontend/ui/create_job.py:105 | `str` of a string is the string |
| CreateJob.Piece | frontend/ui/create_job.py:109-114 | a list item contributes one string per element, any other item one string |
| CreateJob.FlattenLength | frontend/ui/create_job.py:108-114 | flattening keeps every element of one nesting level |
| CreateJob.FlattenStrings | frontend/ui/create_job.py:108-114 | a flat list of strings flattens to itself |
| CreateJob.FlattenItems | frontend/ui/create_job.py:108-114 | the loop computes the one-level flattening |
| CreateJob.SafeJoinList | frontend/ui/create_job.py:98-116 | "" for falsy data, `str` of a non-list, and the flattened items joined by the separator in order |
| CreateJob.SafeJoinOfStrings | frontend/ui/create_job.py:98-116 | a list of strings is joined as it stands; a non-empty string is returned unchanged |
| CreateJob.CleanedShape | frontend/ui/create_job.py:182-212 | exactly the ten string fields and the four list fields, strings and lists of strings; a missing or falsy string field becomes "" |
| CreateJob.CleanedIdempotent | frontend/ui/create_job.py:182-212 | validating validated data changes nothing |
| CreateJob.AddStringFields | frontend/ui/create_job.py:191-193 | each string field becomes `str(value)` if truthy, else "", other keys untouched |
| CreateJob.StringItem | frontend/ui/create_job.py:192-193 | one string field's value: `str` of a truthy value, "" for a missing or falsy one |
| CreateJob.ArrayItems | frontend/ui/create_job.py:199-210 | one list field's value: the flattened list, `[str(value)]` for a truthy non-list, else [] |
| CreateJob.CleanedFieldStable | frontend/ui/create_job.py:182-212 | each expected field keeps its value when cleaned data is cleaned again |
| CreateJob.AddArrayFields | frontend/ui/create_job.py:198-210 | each list field becomes the flattened list, `[str(value)]` for a truthy non-list, else [], other keys untouched |
| CreateJob.ValidateParsedData | frontend/ui/create_job.py:182-212 | the two loops build exactly the cleaned object |
| CreateJob.StripFence | frontend/ui/create_job.py:158-166 | the result has no surrounding whitespace and is no longer than the reply |
| CreateJob.StripFenceOfFenced | frontend/ui/create_job.py:158-166 | a body wrapped in ```json … ``` comes out as the stripped body |
| CreateJob.StripFenceOfPlain | frontend/ui/create_job.py:158-166 | a trimmed reply without either fence comes out unchanged |
| Text.DedupFromFresh | backend/services/parser.py:109-115 | with a `seen` set, no kept item has a key already seen, and nothing is added |
| Text.DedupFromFirst | backend/services/parser.py:109-115 | each kept item is the first item of the input with its key |
| Text.DedupFromOrder | backend/services/parser.py:109-115 | kept items appear in the order of their keys' first occurrences |
| Text.DedupFromComplete | backend/services/parser.py:109-115 | every input key was seen before or is the key of a kept item |
| Text.DedupFromSpec | backend/services/parser.py:109-115 | the four facts above together, for any starting `seen` set |
| Text.KeySetSize | backend/services/matching.py:229-241 | a list with pairwise different keys has as many keys as elements |
| Text.DedupBySpec | backend/services/parser.py:109-115 | first-seen de-duplication under a key: distinct keys, first occurrences, original order, no key lost |

## Left out

- FAISS internals (index types, search, reading and writing the index files) are left out. The index is a sequence of (id, vector) rows and the search is a parameter. The bound of at most `top_k` results therefore rests on the search returning at most `top_k` rows; it is not proved.
- The sentence encoder, MD5, rapidfuzz and scikit-learn's TF-IDF are foreign libraries, passed in as uninterpreted parameters.
- Regular expressions are replaced by their results. This covers the section searches, `re.split`, the degree patterns, the experience phrases, the `20\d{2}` year mentions, and the email and phone patterns.
- Floating point is not modelled; all arithmetic is on reals. `round(x, 2)` and the square root are parameters.
- Quiz.ScorePct: computed as the exact floor of raw×100/max. For some counts the float expression `int(total / max_total * 100)` is one lower (29 of 100 gives 28).
- Vectors.Cosine, Embedding.CalculateSimilarity, Matching.SameDimension, Scoring.DimensionsAgree: these require vectors of equal length. In `calculate_similarity` (backend/services/embedding.py:79-81) a zero norm returns 0.0 whatever the lengths, and otherwise `np.dot` raises ValueError on unequal lengths; `_cosine_similarity` (backend/services/matching.py:245) calls `np.dot` before its norm test, so it raises even with a zero vector. Those error paths are not modelled.
- Quiz.SubmitQuiz, Quiz.EvaluateAnswers: only a successful `call_gemini` is modelled. It is called outside the `try` (backend/quiz_endpoints.py:181), so without an API key (RuntimeError, line 50) or on an HTTP error (HTTPException 502, line 70) `evaluate_answers_with_gemini` and `submit_quiz` raise, whereas the model always succeeds for a known quiz.
- Vectors.Cosine: the cosine is not proved to lie in [-1, 1] (Cauchy–Schwarz). The converse of the zero-norm guard, that a non-zero vector has a non-zero norm, is not proved either. Both are nonlinear real arithmetic. SoftMatchBounds takes the cosine's range as a hypothesis.
- Embedding.CalculateSimilarity: its value can be negative for opposite vectors, as in the source. Nothing here clamps it.
- Persistence is left out: `_save_meta`/`_save_index`, loading at start-up, MongoDB, the local JSON job store. A new `EmbeddingStore` starts empty.
- Metadata maps are keyed by the integer id rather than `str(id)`. Printing integers is injective, so nothing is lost.
- HTTP and FastAPI plumbing is left out, along with `apply_and_create_quiz`, quiz generation, `call_gemini`, the JSON extraction from the LLM's evaluation reply, and `parse_with_gemini` beyond the fence stripping. The LLM's parsed reply is an input.
- `json.loads` on the stripped reply is left out: `validate_parsed_data` receives the decoded object. Non-object JSON and JSON floats are not modelled.
- CreateJob.Str: `str()` of a list or dict is a parameter, not Python's `repr`.
- `Lower`, `isdigit`, `\w` and the `[^a-zA-Z0-9\s]` class are ASCII-only here. Unicode case mappings (such as the Kelvin sign lowering to `k`) and non-ASCII digits are not modelled. Whitespace is exactly the set of characters for which Python's `str.isspace` holds.
- Quiz.ParseInt: underscores between digits and non-ASCII digits, both accepted by Python's `int()`, are not modelled.
- `extract_projects` keeps the project titles found by its regex, stripped, as plain strings rather than `{'title': …}` dictionaries.
- Parser.EntryOf: a degree span that does not lie inside the section text gives an empty entry. Spans from a regex match always lie inside it, and EntryOfSpec describes the entry only for those.
- PDF and DOCX text extraction and their exceptions are left out. A `ParseResume` call receives what each extractor yields.
- `parse_job_description` keeps the minimum experience as a number. The `required_experience` display string is not built.
- A job whose `max_experience` or `min_experience` key is present with value None is not modelled. In the source either one is a TypeError: `min_exp >= 0` in the default expression (backend/services/matching.py:69) fails for a None minimum, and `resume_exp <= max_exp` (line 74) fails for a None maximum once the years reach the minimum. Non-dict education entries are not modelled either.
- Scoring.BatchEvaluate: the in-place `list.sort` is modelled as a functional stable insertion sort proved to be a permutation sorted descending with ties in input order. Aliasing of the list is not captured. As in the source, the sort key is the rounded score.
- The weights in `config.py` are read from the environment; the model uses the defaults 0.4 and 0.6, and 75 and 50 for the thresholds. `Config` keeps them as parameters, with `Defaults` holding those values.
- Logging and the generic exception handlers that only print are not modelled.
