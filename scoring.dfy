/** The scoring engine: hard match and embedding similarity blended with
    the configured weights, clamped to [0, 100], given a three-tier verdict
    and templated feedback; a batch is ranked by relevance, highest first,
    keeping the input order of ties. */
module Scoring {
  import opened Base
  import opened Text
  import opened Vectors
  import opened Matching
  import opened Embedding

  // ---------------------------------------------------------------------
  // Configuration and verdict

  datatype Config = Config(hardWeight: real, softWeight: real, highThreshold: real, mediumThreshold: real)

  /** The default weights and thresholds; the weights are used as given,
      never normalised. */
  const Defaults := Config(0.4, 0.6, 75.0, 50.0)

  /** The two clamping steps: above 100 becomes 100, then below 0 becomes
      0. */
  function Clamp(x: real): (r: real)
    ensures 0.0 <= r <= 100.0
    ensures 0.0 <= x <= 100.0 ==> r == x
    ensures x > 100.0 ==> r == 100.0
    ensures x < 0.0 ==> r == 0.0
  {
    var y := if x > 100.0 then 100.0 else x;
    if y < 0.0 then 0.0 else y
  }

  datatype Verdict = High | Medium | Low

  function VerdictOf(score: real, cfg: Config): Verdict {
    if score >= cfg.highThreshold then High
    else if score >= cfg.mediumThreshold then Medium
    else Low
  }

  function Rank(v: Verdict): nat {
    match v
    case Low => 0
    case Medium => 1
    case High => 2
  }

  /** The tiers: HIGH exactly from the high threshold up, MEDIUM exactly
      from the medium threshold up to below the high one, LOW below both. */
  lemma VerdictTiers(score: real, cfg: Config)
    ensures VerdictOf(score, cfg) == High <==> score >= cfg.highThreshold
    ensures VerdictOf(score, cfg) == Medium <==> cfg.mediumThreshold <= score < cfg.highThreshold
    ensures VerdictOf(score, cfg) == Low <==> score < cfg.mediumThreshold && score < cfg.highThreshold
  {
  }

  /** With ordered thresholds a higher score never gets a lower tier. */
  lemma VerdictMonotone(s1: real, s2: real, cfg: Config)
    requires cfg.mediumThreshold <= cfg.highThreshold
    requires s1 <= s2
    ensures Rank(VerdictOf(s1, cfg)) <= Rank(VerdictOf(s2, cfg))
  {
  }

  /** A score exactly at a default threshold gets the higher tier. */
  lemma DefaultBoundaries()
    ensures VerdictOf(75.0, Defaults) == High && VerdictOf(74.99, Defaults) == Medium
    ensures VerdictOf(50.0, Defaults) == Medium && VerdictOf(49.99, Defaults) == Low
  {
  }

  // ---------------------------------------------------------------------
  // Feedback

  datatype Analysis = Analysis(matchedSkills: seq<string>, missingSkills: seq<string>, experienceDetails: ExperienceDetails)

  datatype Feedback = Feedback(strengths: seq<string>, improvements: seq<string>, suggestions: seq<string>)

  /** How many skills a feedback line lists. */
  const FeedbackLimit := 6

  const Suggestion := "Consider projects or a micro-course to demonstrate these skills."

  function FeedbackOf(a: Analysis): Feedback {
    Feedback(
      if a.matchedSkills != [] then ["Matched skills: " + Join(", ", Take(a.matchedSkills, FeedbackLimit))] else [],
      if a.missingSkills != [] then ["Missing key skills: " + Join(", ", Take(a.missingSkills, FeedbackLimit))] else [],
      if a.missingSkills != [] then [Suggestion] else [])
  }

  /** Strengths has one line exactly when some skill matched, naming each of
      the first six matched skills; improvements and suggestions have one
      line each exactly when some skill is missing, the improvement naming
      each of the first six missing skills. */
  lemma FeedbackSpec(a: Analysis)
    ensures var f := FeedbackOf(a);
      && |f.strengths| == (if a.matchedSkills != [] then 1 else 0)
      && |f.improvements| == |f.suggestions| == (if a.missingSkills != [] then 1 else 0)
      && (a.matchedSkills != [] ==> forall k :: 0 <= k < Min(FeedbackLimit, |a.matchedSkills|) ==>
            IsSubstring(a.matchedSkills[k], f.strengths[0]))
      && (a.missingSkills != [] ==> forall k :: 0 <= k < Min(FeedbackLimit, |a.missingSkills|) ==>
            IsSubstring(a.missingSkills[k], f.improvements[0]))
  {
    var f := FeedbackOf(a);
    forall k | 0 <= k < Min(FeedbackLimit, |a.matchedSkills|) && a.matchedSkills != []
      ensures IsSubstring(a.matchedSkills[k], f.strengths[0])
    {
      var shown := Take(a.matchedSkills, FeedbackLimit);
      assert shown[k] == a.matchedSkills[k];
      PartOfJoin(", ", shown, k);
      SubstringAfterPrefix(shown[k], "Matched skills: ", Join(", ", shown));
    }
    forall k | 0 <= k < Min(FeedbackLimit, |a.missingSkills|) && a.missingSkills != []
      ensures IsSubstring(a.missingSkills[k], f.improvements[0])
    {
      var shown := Take(a.missingSkills, FeedbackLimit);
      assert shown[k] == a.missingSkills[k];
      PartOfJoin(", ", shown, k);
      SubstringAfterPrefix(shown[k], "Missing key skills: ", Join(", ", shown));
    }
  }

  /** `generate_feedback`: the three lists, appended to as the analysis
      warrants. */
  method GenerateFeedback(a: Analysis) returns (f: Feedback)
    ensures f == FeedbackOf(a)
    ensures f.strengths != [] <==> a.matchedSkills != []
    ensures f.improvements != [] <==> a.missingSkills != []
    ensures f.suggestions != [] <==> a.missingSkills != []
  {
    var strengths, improvements, suggestions := [], [], [];
    if a.matchedSkills != [] {
      strengths := strengths + ["Matched skills: " + Join(", ", Take(a.matchedSkills, FeedbackLimit))];
    }
    if a.missingSkills != [] {
      improvements := improvements + ["Missing key skills: " + Join(", ", Take(a.missingSkills, FeedbackLimit))];
      suggestions := suggestions + [Suggestion];
    }
    f := Feedback(strengths, improvements, suggestions);
  }

  // ---------------------------------------------------------------------
  // evaluate_resume

  /** The foreign services an evaluation uses: fuzzy scores, the
      experience regexes, the encoder, the square root of the norm, and
      `round(x, 2)`. */
  datatype Services = Services(
    fz: Fuzzy,
    scan: string -> ExperienceHits,
    encoder: Encoder,
    sqrt: real -> real,
    round2: real -> real)

  datatype Evaluation = Evaluation(
    resumeId: string,
    jobId: string,
    relevanceScore: real,
    hardMatchScore: real,
    softMatchScore: real,
    analysis: Analysis,
    verdict: Verdict,
    feedback: Feedback)

  /** `record.get('embeddings') or generate_embeddings(processed_text)`: an
      absent or empty stored embedding is recomputed. */
  function EmbeddingFor(stored: Option<Vector>, processedText: string, encoder: Encoder): Vector
  {
    if stored.Some? && stored.value != [] then stored.value else GenerateEmbeddings(encoder, processedText)
  }

  /** numpy needs the two embeddings to have the same length. */
  predicate DimensionsAgree(resume: ResumeRecord, job: JobRecord, encoder: Encoder) {
    |EmbeddingFor(resume.embeddings, resume.processedText, encoder)|
    == |EmbeddingFor(job.embeddings, job.processedText, encoder)|
  }

  function SoftScore(resume: ResumeRecord, job: JobRecord, s: Services): real
    requires DimensionsAgree(resume, job, s.encoder)
  {
    CalculateSimilarity(EmbeddingFor(resume.embeddings, resume.processedText, s.encoder),
                        EmbeddingFor(job.embeddings, job.processedText, s.encoder), s.sqrt)
  }

  /** The weighted sum, before clamping. */
  function Blend(hard: real, soft: real, cfg: Config): real {
    hard * cfg.hardWeight + soft * cfg.softWeight
  }

  /** The clamped blend of the hard-match score and the similarity. */
  function RelevanceOf(resume: ResumeRecord, job: JobRecord, cfg: Config, s: Services): (r: real)
    requires DimensionsAgree(resume, job, s.encoder)
    ensures 0.0 <= r <= 100.0
  {
    Clamp(Blend(HardMatchOf(resume, job, s.fz, s.scan).overall, SoftScore(resume, job, s), cfg))
  }

  /** The result of `evaluate_resume`. */
  function EvaluationOf(resume: ResumeRecord, job: JobRecord, cfg: Config, s: Services): Evaluation
    requires DimensionsAgree(resume, job, s.encoder)
  {
    var h := HardMatchOf(resume, job, s.fz, s.scan);
    var score := RelevanceOf(resume, job, cfg, s);
    var analysis := Analysis(h.matchedSkills, h.missingSkills, h.details);
    Evaluation(resume.id, job.id, s.round2(score), s.round2(h.overall), s.round2(SoftScore(resume, job, s)),
               analysis, VerdictOf(score, cfg), FeedbackOf(analysis))
  }

  /** Rounding to two decimals keeps a value in [0, 100] there. */
  ghost predicate RoundingInRange(round2: real -> real) {
    forall x :: 0.0 <= x <= 100.0 ==> 0.0 <= round2(x) <= 100.0
  }

  /** `evaluate_resume`. The verdict is taken from the clamped score before
      rounding; the analysis is the hard match's lists and details. */
  method EvaluateResume(resume: ResumeRecord, job: JobRecord, cfg: Config, s: Services) returns (e: Evaluation)
    requires DimensionsAgree(resume, job, s.encoder)
    ensures e == EvaluationOf(resume, job, cfg, s)
    ensures var raw := Blend(HardMatchOf(resume, job, s.fz, s.scan).overall, SoftScore(resume, job, s), cfg);
      && e.relevanceScore == s.round2(Clamp(raw))
      && (e.verdict == High <==> Clamp(raw) >= cfg.highThreshold)
      && (raw > 100.0 ==> e.relevanceScore == s.round2(100.0))
      && (raw < 0.0 ==> e.relevanceScore == s.round2(0.0))
    ensures var h := HardMatchOf(resume, job, s.fz, s.scan);
      e.analysis == Analysis(h.matchedSkills, h.missingSkills, h.details)
    ensures RoundingInRange(s.round2) ==> 0.0 <= e.relevanceScore <= 100.0
  {
    var h := CalculateHardMatch(resume, job, s.fz, s.scan);
    var resumeEmbedding := EmbeddingFor(resume.embeddings, resume.processedText, s.encoder);
    var jobEmbedding := EmbeddingFor(job.embeddings, job.processedText, s.encoder);
    var soft := CalculateSimilarity(resumeEmbedding, jobEmbedding, s.sqrt);
    var hard := h.overall;
    var score := Blend(hard, soft, cfg);
    ghost var raw := score;
    if score > 100.0 {
      score := 100.0;
    }
    if score < 0.0 {
      score := 0.0;
    }
    var analysis := Analysis(h.matchedSkills, h.missingSkills, h.details);
    var verdict := if score >= cfg.highThreshold then High
                   else if score >= cfg.mediumThreshold then Medium
                   else Low;
    assert score == Clamp(raw) == RelevanceOf(resume, job, cfg, s);
    var feedback := GenerateFeedback(analysis);
    e := Evaluation(resume.id, job.id, s.round2(score), s.round2(hard), s.round2(soft), analysis, verdict, feedback);
  }

  // ---------------------------------------------------------------------
  // batch_evaluate: a stable sort by relevance, highest first

  /** An evaluation with its position in the batch. */
  datatype Ranked = Ranked(pos: nat, eval: Evaluation)

  /** The order of the sorted batch: higher score first, and between equal
      scores the earlier submission first. */
  predicate Before(a: Ranked, b: Ranked) {
    a.eval.relevanceScore > b.eval.relevanceScore
    || (a.eval.relevanceScore == b.eval.relevanceScore && a.pos < b.pos)
  }

  predicate SortedDesc(rs: seq<Ranked>) {
    forall i, j :: 0 <= i < j < |rs| ==> Before(rs[i], rs[j])
  }

  function Tag(xs: seq<Evaluation>): (r: seq<Ranked>)
    ensures |r| == |xs| && forall k :: 0 <= k < |xs| ==> r[k] == Ranked(k, xs[k])
  {
    seq(|xs|, k requires 0 <= k < |xs| => Ranked(k, xs[k]))
  }

  function Untag(rs: seq<Ranked>): (r: seq<Evaluation>)
    ensures |r| == |rs| && forall k :: 0 <= k < |rs| ==> r[k] == rs[k].eval
  {
    seq(|rs|, k requires 0 <= k < |rs| => rs[k].eval)
  }

  /** Where a later element goes: after every element scoring at least as
      much. */
  function InsertionPoint(x: Ranked, rs: seq<Ranked>): (p: nat)
    ensures p <= |rs|
    ensures forall k :: 0 <= k < p ==> rs[k].eval.relevanceScore >= x.eval.relevanceScore
    ensures p < |rs| ==> rs[p].eval.relevanceScore < x.eval.relevanceScore
  {
    if rs == [] || rs[0].eval.relevanceScore < x.eval.relevanceScore then 0
    else 1 + InsertionPoint(x, rs[1..])
  }

  function Insert(x: Ranked, rs: seq<Ranked>): seq<Ranked> {
    var p := InsertionPoint(x, rs);
    rs[..p] + [x] + rs[p..]
  }

  /** Insertion sort, taking the elements in input order. */
  function StableSort(rs: seq<Ranked>): seq<Ranked> {
    if rs == [] then [] else Insert(rs[|rs| - 1], StableSort(rs[..|rs| - 1]))
  }

  /** Where each element ends up after an insertion. */
  lemma InsertShape(x: Ranked, rs: seq<Ranked>)
    ensures var p, r := InsertionPoint(x, rs), Insert(x, rs);
      && |r| == |rs| + 1 && r[p] == x
      && (forall k :: 0 <= k < p ==> r[k] == rs[k])
      && (forall k :: p < k < |r| ==> r[k] == rs[k - 1])
  {
  }

  /** Inserting an element later than all others into a sorted list keeps
      it sorted. */
  lemma InsertSorted(x: Ranked, rs: seq<Ranked>)
    requires SortedDesc(rs)
    requires forall k :: 0 <= k < |rs| ==> rs[k].pos < x.pos
    ensures SortedDesc(Insert(x, rs))
  {
    var p := InsertionPoint(x, rs);
    var r := Insert(x, rs);
    InsertShape(x, rs);
    forall i, j | 0 <= i < j < |r| ensures Before(r[i], r[j]) {
      if j < p || (i > p) {
      } else if i < p && j == p {
      } else if i < p {
        assert Before(rs[i], rs[j - 1]);
      } else {
        assert i == p;
        assert rs[j - 1].eval.relevanceScore <= rs[p].eval.relevanceScore by {
          if j - 1 > p { assert Before(rs[p], rs[j - 1]); }
        }
      }
    }
  }

  predicate HasPos(rs: seq<Ranked>, p: nat) {
    exists k :: 0 <= k < |rs| && rs[k].pos == p
  }

  /** Positions 0..n-1, each element at its own position. */
  predicate Numbered(rs: seq<Ranked>) {
    forall k :: 0 <= k < |rs| ==> rs[k].pos == k
  }

  /** Sorting a numbered list yields a sorted list in which every position
      occurs exactly once, each element unchanged. */
  lemma StableSortPositions(rs: seq<Ranked>)
    requires Numbered(rs)
    ensures var r := StableSort(rs);
      && |r| == |rs|
      && SortedDesc(r)
      && (forall k :: 0 <= k < |r| ==> r[k].pos < |rs| && r[k] == rs[r[k].pos])
      && (forall i, j :: 0 <= i < j < |r| ==> r[i].pos != r[j].pos)
      && (forall q :: 0 <= q < |rs| ==> HasPos(r, q))
  {
    SortElements(rs);
    SortSorted(rs);
    SortDistinct(rs);
    SortComplete(rs);
  }

  /** Each sorted element is the input element at its position. */
  lemma {:induction false} SortElements(rs: seq<Ranked>)
    requires Numbered(rs)
    ensures var r := StableSort(rs);
      && |r| == |rs|
      && forall k :: 0 <= k < |r| ==> r[k].pos < |rs| && r[k] == rs[r[k].pos]
  {
    if rs != [] {
      var n := |rs| - 1;
      var init, x := rs[..n], rs[n];
      SortElements(init);
      var s := StableSort(init);
      InsertShape(x, s);
      var p := InsertionPoint(x, s);
      var r := Insert(x, s);
      assert r == StableSort(rs);
      forall k | 0 <= k < |r| ensures r[k].pos < |rs| && r[k] == rs[r[k].pos] {
        if k != p {
          var m := if k < p then k else k - 1;
          assert r[k] == s[m];
          assert init[s[m].pos] == rs[s[m].pos];
        }
      }
    }
  }

  /** The sorted list is in `Before` order. */
  lemma {:induction false} SortSorted(rs: seq<Ranked>)
    requires Numbered(rs)
    ensures SortedDesc(StableSort(rs))
  {
    if rs != [] {
      var n := |rs| - 1;
      var init, x := rs[..n], rs[n];
      SortSorted(init);
      SortElements(init);
      InsertSorted(x, StableSort(init));
    }
  }

  /** No position occurs twice. */
  lemma {:induction false} SortDistinct(rs: seq<Ranked>)
    requires Numbered(rs)
    ensures var r := StableSort(rs);
      forall i, j :: 0 <= i < j < |r| ==> r[i].pos != r[j].pos
  {
    if rs != [] {
      var n := |rs| - 1;
      var init, x := rs[..n], rs[n];
      SortDistinct(init);
      SortElements(init);
      var s := StableSort(init);
      InsertShape(x, s);
      var p := InsertionPoint(x, s);
      var r := Insert(x, s);
      assert r == StableSort(rs);
      forall i, j | 0 <= i < j < |r| ensures r[i].pos != r[j].pos {
        if i != p && j != p {
          var mi, mj := if i < p then i else i - 1, if j < p then j else j - 1;
          assert r[i] == s[mi] && r[j] == s[mj] && mi < mj;
        } else if i == p {
          assert r[j] == s[j - 1];
        } else {
          assert r[i] == s[i];
        }
      }
    }
  }

  /** Every position occurs. */
  lemma {:induction false} SortComplete(rs: seq<Ranked>)
    requires Numbered(rs)
    ensures var r := StableSort(rs);
      |r| == |rs| && forall q :: 0 <= q < |rs| ==> HasPos(r, q)
  {
    if rs != [] {
      var n := |rs| - 1;
      var init, x := rs[..n], rs[n];
      SortComplete(init);
      var s := StableSort(init);
      InsertShape(x, s);
      forall q | 0 <= q < |rs| ensures HasPos(Insert(x, s), q) {
        if q == n {
          assert Insert(x, s)[InsertionPoint(x, s)].pos == q;
        } else {
          InsertKeepsPos(x, s, q);
        }
      }
    }
  }

  /** Inserting keeps every position already present. */
  lemma InsertKeepsPos(x: Ranked, s: seq<Ranked>, q: nat)
    requires HasPos(s, q)
    ensures HasPos(Insert(x, s), q)
  {
    InsertShape(x, s);
    var p := InsertionPoint(x, s);
    var m :| 0 <= m < |s| && s[m].pos == q;
    var k := if m < p then m else m + 1;
    assert Insert(x, s)[k] == s[m];
  }

  /** The sorted batch is ordered by `Before`, has one entry per input in
      which each input position occurs exactly once, and each entry is the
      evaluation submitted at its position. */
  lemma StableSortSpec(xs: seq<Evaluation>)
    ensures var r := StableSort(Tag(xs));
      && |r| == |xs|
      && SortedDesc(r)
      && (forall k :: 0 <= k < |r| ==> r[k].pos < |xs| && r[k].eval == xs[r[k].pos])
      && (forall i, j :: 0 <= i < j < |r| ==> r[i].pos != r[j].pos)
      && (forall q :: 0 <= q < |xs| ==> HasPos(r, q))
  {
    StableSortPositions(Tag(xs));
  }

  predicate AllAgree(resumes: seq<ResumeRecord>, job: JobRecord, encoder: Encoder) {
    forall k :: 0 <= k < |resumes| ==> DimensionsAgree(resumes[k], job, encoder)
  }

  /** The evaluations of a batch, in submission order. */
  function EvaluationsOf(resumes: seq<ResumeRecord>, job: JobRecord, cfg: Config, s: Services): (es: seq<Evaluation>)
    requires AllAgree(resumes, job, s.encoder)
    ensures |es| == |resumes|
  {
    if resumes == [] then []
    else EvaluationsOf(resumes[..|resumes| - 1], job, cfg, s) + [EvaluationOf(resumes[|resumes| - 1], job, cfg, s)]
  }

  /** The loop of `batch_evaluate`: one evaluation per resume, in order. */
  method EvaluateAll(resumes: seq<ResumeRecord>, job: JobRecord, cfg: Config, s: Services)
    returns (evaluations: seq<Evaluation>)
    requires AllAgree(resumes, job, s.encoder)
    ensures evaluations == EvaluationsOf(resumes, job, cfg, s)
  {
    evaluations := [];
    for i := 0 to |resumes|
      invariant evaluations == EvaluationsOf(resumes[..i], job, cfg, s)
    {
      PrefixStep(resumes, i);
      var e := EvaluateResume(resumes[i], job, cfg, s);
      evaluations := evaluations + [e];
    }
    WholePrefix(resumes);
  }

  /** `batch_evaluate`: the evaluations, then the stable sort by relevance
      score in reverse. */
  method BatchEvaluate(resumes: seq<ResumeRecord>, job: JobRecord, cfg: Config, s: Services)
    returns (ranked: seq<Evaluation>)
    requires AllAgree(resumes, job, s.encoder)
    ensures ranked == Untag(StableSort(Tag(EvaluationsOf(resumes, job, cfg, s))))
    ensures |ranked| == |resumes|
    ensures forall i, j :: 0 <= i < j < |ranked| ==> ranked[i].relevanceScore >= ranked[j].relevanceScore
  {
    var evaluations := EvaluateAll(resumes, job, cfg, s);
    var sorted := StableSort(Tag(evaluations));
    StableSortSpec(evaluations);
    ranked := Untag(sorted);
    forall i, j | 0 <= i < j < |ranked| ensures ranked[i].relevanceScore >= ranked[j].relevanceScore {
      assert Before(sorted[i], sorted[j]);
    }
  }
}
