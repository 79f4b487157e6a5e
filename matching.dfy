/** The rule-based half of resume screening: skill, experience, education and
    certification coverage combined into a hard-match score, and the
    TF-IDF / embedding / keyword-density blend of the soft match.

    rapidfuzz's `fuzz.ratio` and `fuzz.partial_ratio` are uninterpreted
    functions, the TF-IDF cosine is an abstract value, and the regular
    expressions that find experience phrases and year mentions are replaced
    by their results (an `ExperienceHits` value per text). */
module Matching {
  import opened Base
  import opened Text
  import opened Vectors

  // ---------------------------------------------------------------------
  // Records as the matcher reads them (a missing key reads as empty)

  datatype EducationEntry = EducationEntry(degree: string, context: string)

  datatype ResumeRecord = ResumeRecord(
    id: string,
    skills: seq<string>,
    education: seq<EducationEntry>,
    certifications: seq<string>,
    rawText: string,
    processedText: string,
    embeddings: Option<Vector>)

  /** `minExperience`/`maxExperience` are None when the key is absent. */
  datatype JobRecord = JobRecord(
    id: string,
    requiredSkills: seq<string>,
    optionalSkills: seq<string>,
    minExperience: Option<int>,
    maxExperience: Option<int>,
    educationRequirements: seq<string>,
    certificationsRequired: seq<string>,
    rawText: string,
    processedText: string,
    embeddings: Option<Vector>)

  // ---------------------------------------------------------------------
  // Fuzzy comparison

  /** rapidfuzz's two similarity scores, left uninterpreted. */
  datatype Fuzzy = Fuzzy(ratio: (string, string) -> int, partialRatio: (string, string) -> int)

  /** Default threshold of `_fuzzy_skill_match`, used for skills. */
  const SkillThreshold := 80

  /** Threshold passed for certifications. */
  const CertThreshold := 70

  predicate Close(skill: string, other: string, threshold: int, fz: Fuzzy) {
    fz.ratio(skill, other) >= threshold || fz.partialRatio(skill, other) >= threshold
  }

  predicate MatchesAny(skill: string, pool: seq<string>, threshold: int, fz: Fuzzy) {
    exists j | 0 <= j < |pool| :: Close(skill, pool[j], threshold, fz)
  }

  /** `_fuzzy_skill_match`: true exactly when some pool entry is close by
      either score. */
  method FuzzySkillMatch(skill: string, pool: seq<string>, threshold: int, fz: Fuzzy) returns (found: bool)
    ensures found <==> MatchesAny(skill, pool, threshold, fz)
  {
    for i := 0 to |pool|
      invariant forall j :: 0 <= j < i ==> !Close(skill, pool[j], threshold, fz)
    {
      if fz.ratio(skill, pool[i]) >= threshold {
        return true;
      }
      if fz.partialRatio(skill, pool[i]) >= threshold {
        return true;
      }
    }
    return false;
  }

  /** The skills that match the pool, in input order. */
  function MatchedOf(skills: seq<string>, pool: seq<string>, threshold: int, fz: Fuzzy): seq<string> {
    if skills == [] then []
    else
      var last := skills[|skills| - 1];
      MatchedOf(skills[..|skills| - 1], pool, threshold, fz)
      + (if MatchesAny(last, pool, threshold, fz) then [last] else [])
  }

  /** The skills that do not match the pool, in input order. */
  function MissingOf(skills: seq<string>, pool: seq<string>, threshold: int, fz: Fuzzy): seq<string> {
    if skills == [] then []
    else
      var last := skills[|skills| - 1];
      MissingOf(skills[..|skills| - 1], pool, threshold, fz)
      + (if MatchesAny(last, pool, threshold, fz) then [] else [last])
  }

  /** Every skill lands in exactly one of the two lists: together they are a
      permutation of the input, the first holds only matching skills and
      the second only non-matching ones. */
  lemma PartitionSpec(skills: seq<string>, pool: seq<string>, threshold: int, fz: Fuzzy)
    ensures var m, x := MatchedOf(skills, pool, threshold, fz), MissingOf(skills, pool, threshold, fz);
      && |m| + |x| == |skills|
      && multiset(m) + multiset(x) == multiset(skills)
      && (forall k :: 0 <= k < |m| ==> MatchesAny(m[k], pool, threshold, fz))
      && (forall k :: 0 <= k < |x| ==> !MatchesAny(x[k], pool, threshold, fz))
  {
    PartitionCounts(skills, pool, threshold, fz);
    PartitionClasses(skills, pool, threshold, fz);
  }

  lemma {:induction false} PartitionCounts(skills: seq<string>, pool: seq<string>, threshold: int, fz: Fuzzy)
    ensures var m, x := MatchedOf(skills, pool, threshold, fz), MissingOf(skills, pool, threshold, fz);
      multiset(m) + multiset(x) == multiset(skills)
  {
    if skills != [] {
      var init, last := skills[..|skills| - 1], skills[|skills| - 1];
      PartitionCounts(init, pool, threshold, fz);
      var m0, x0 := MatchedOf(init, pool, threshold, fz), MissingOf(init, pool, threshold, fz);
      assert skills == init + [last];
      assert multiset(skills) == multiset(init) + multiset{last};
      var hit := if MatchesAny(last, pool, threshold, fz) then [last] else [];
      var miss := if MatchesAny(last, pool, threshold, fz) then [] else [last];
      assert MatchedOf(skills, pool, threshold, fz) == m0 + hit;
      assert MissingOf(skills, pool, threshold, fz) == x0 + miss;
      SplitStep(m0, x0, hit, miss, last);
    }
  }

  /** One more element, sent to one side or the other, adds it to the
      combined multiset. */
  lemma SplitStep(m0: seq<string>, x0: seq<string>, hit: seq<string>, miss: seq<string>, last: string)
    requires (hit == [last] && miss == []) || (hit == [] && miss == [last])
    ensures multiset(m0 + hit) + multiset(x0 + miss) == multiset(m0) + multiset(x0) + multiset{last}
  {
    assert multiset(m0 + hit) == multiset(m0) + multiset(hit);
    assert multiset(x0 + miss) == multiset(x0) + multiset(miss);
  }

  predicate AllMatch(s: seq<string>, pool: seq<string>, threshold: int, fz: Fuzzy) {
    forall k :: 0 <= k < |s| ==> MatchesAny(s[k], pool, threshold, fz)
  }

  predicate NoneMatch(s: seq<string>, pool: seq<string>, threshold: int, fz: Fuzzy) {
    forall k :: 0 <= k < |s| ==> !MatchesAny(s[k], pool, threshold, fz)
  }

  lemma {:induction false} PartitionClasses(skills: seq<string>, pool: seq<string>, threshold: int, fz: Fuzzy)
    ensures AllMatch(MatchedOf(skills, pool, threshold, fz), pool, threshold, fz)
    ensures NoneMatch(MissingOf(skills, pool, threshold, fz), pool, threshold, fz)
  {
    if skills != [] {
      var init, last := skills[..|skills| - 1], skills[|skills| - 1];
      PartitionClasses(init, pool, threshold, fz);
      var m0, x0 := MatchedOf(init, pool, threshold, fz), MissingOf(init, pool, threshold, fz);
      var m, x := MatchedOf(skills, pool, threshold, fz), MissingOf(skills, pool, threshold, fz);
      forall k | 0 <= k < |m| ensures MatchesAny(m[k], pool, threshold, fz) {
        if k < |m0| { assert m[k] == m0[k]; }
      }
      forall k | 0 <= k < |x| ensures !MatchesAny(x[k], pool, threshold, fz) {
        if k < |x0| { assert x[k] == x0[k]; }
      }
    }
  }

  /** The two loops of `calculate_hard_match` that split a lowercased list
      into matched and missing entries. */
  method PartitionSkills(skills: seq<string>, pool: seq<string>, threshold: int, fz: Fuzzy)
    returns (matched: seq<string>, missing: seq<string>)
    ensures matched == MatchedOf(skills, pool, threshold, fz)
    ensures missing == MissingOf(skills, pool, threshold, fz)
    ensures |matched| + |missing| == |skills|
  {
    matched, missing := [], [];
    for i := 0 to |skills|
      invariant matched == MatchedOf(skills[..i], pool, threshold, fz)
      invariant missing == MissingOf(skills[..i], pool, threshold, fz)
    {
      assert skills[..i + 1][..i] == skills[..i];
      var ok := FuzzySkillMatch(skills[i], pool, threshold, fz);
      if ok {
        matched := matched + [skills[i]];
      } else {
        missing := missing + [skills[i]];
      }
    }
    assert skills[..|skills|] == skills;
    PartitionSpec(skills, pool, threshold, fz);
  }

  // ---------------------------------------------------------------------
  // Coverage scores

  /** `(matched / total) * weight`, or the full weight for an empty list. */
  function Coverage(matched: nat, total: nat, weight: real): (r: real)
    requires matched <= total && weight >= 0.0
    ensures 0.0 <= r <= weight
    ensures total == 0 || matched == total ==> r == weight
    ensures total > 0 && matched < total && weight > 0.0 ==> r < weight
    ensures total > 0 && matched == 0 ==> r == 0.0
  {
    if total == 0 then weight else (matched as real / total as real) * weight
  }

  /** `skills_match`: 70 points for required skills plus 30 for optional
      ones, each scaled by the matched fraction. */
  function SkillsScore(required: seq<string>, optional: seq<string>, pool: seq<string>, fz: Fuzzy): (r: real)
    ensures 0.0 <= r <= 100.0
    ensures required == [] && optional == [] ==> r == 100.0
  {
    PartitionSpec(required, pool, SkillThreshold, fz);
    PartitionSpec(optional, pool, SkillThreshold, fz);
    Coverage(|MatchedOf(required, pool, SkillThreshold, fz)|, |required|, 70.0)
    + Coverage(|MatchedOf(optional, pool, SkillThreshold, fz)|, |optional|, 30.0)
  }

  /** A full score needs every required and every optional skill matched,
      and then it is reached. */
  lemma SkillsScoreFull(required: seq<string>, optional: seq<string>, pool: seq<string>, fz: Fuzzy)
    ensures SkillsScore(required, optional, pool, fz) == 100.0 <==>
      (MissingOf(required, pool, SkillThreshold, fz) == [] && MissingOf(optional, pool, SkillThreshold, fz) == [])
  {
    PartitionSpec(required, pool, SkillThreshold, fz);
    PartitionSpec(optional, pool, SkillThreshold, fz);
  }

  // ---------------------------------------------------------------------
  // Experience

  /** The results of the experience regexes on one text: for each of the
      three phrase patterns, in order, the number captured by its first
      match (None when it does not match), and every `20\d{2}` year
      mention. */
  datatype ExperienceHits = ExperienceHits(phraseHits: seq<Option<nat>>, yearMentions: seq<nat>)

  /** The first pattern that matched, if any. */
  function FirstHit(hits: seq<Option<nat>>): (r: Option<nat>)
    ensures r.None? <==> forall k :: 0 <= k < |hits| ==> hits[k].None?
    ensures r.Some? ==> exists k :: 0 <= k < |hits| && hits[k] == r && forall j :: 0 <= j < k ==> hits[j].None?
  {
    if hits == [] then None
    else if hits[0].Some? then hits[0]
    else
      var r := FirstHit(hits[1..]);
      assert forall k :: 1 <= k < |hits| ==> hits[k] == hits[1..][k - 1];
      r
  }

  function SeqMax(s: seq<nat>): (m: nat)
    requires s != []
    ensures m in s && forall k :: 0 <= k < |s| ==> s[k] <= m
  {
    if |s| == 1 then s[0] else Max(s[0], SeqMax(s[1..])) as nat
  }

  function SeqMin(s: seq<nat>): (m: nat)
    requires s != []
    ensures m in s && forall k :: 0 <= k < |s| ==> m <= s[k]
  {
    if |s| == 1 then s[0] else Min(s[0], SeqMin(s[1..])) as nat
  }

  /** Latest minus earliest year mention (the ends of the sorted list), or 0
      with fewer than two mentions. */
  function YearSpan(years: seq<nat>): (r: nat)
    ensures |years| < 2 ==> r == 0
    ensures |years| >= 2 ==> r == SeqMax(years) - SeqMin(years)
  {
    if |years| >= 2 then SeqMax(years) - SeqMin(years) else 0
  }

  /** Year mentions match `20\d{2}`, so they lie in 2000..2099 and the
      fallback span is at most 99 years. */
  lemma YearSpanBound(years: seq<nat>)
    requires forall k :: 0 <= k < |years| ==> 2000 <= years[k] <= 2099
    ensures YearSpan(years) <= 99
  {
    if |years| >= 2 {
      var hi, lo := SeqMax(years), SeqMin(years);
      assert hi <= 2099 && lo >= 2000;
    }
  }

  function ExperienceYears(hits: ExperienceHits): nat {
    match FirstHit(hits.phraseHits)
    case Some(n) => n
    case None => YearSpan(hits.yearMentions)
  }

  /** `_extract_experience_years`: the number of the first matching phrase
      pattern; failing that, the span of the year mentions. */
  method ExtractExperienceYears(hits: ExperienceHits) returns (years: nat)
    ensures years == ExperienceYears(hits)
    ensures FirstHit(hits.phraseHits).Some? ==> years == FirstHit(hits.phraseHits).value
    ensures FirstHit(hits.phraseHits).None? && |hits.yearMentions| < 2 ==> years == 0
  {
    var hs := hits.phraseHits;
    for i := 0 to |hs|
      invariant FirstHit(hs[i..]) == FirstHit(hs)
    {
      assert hs[i..][1..] == hs[i + 1..];
      if hs[i].Some? {
        return hs[i].value;
      }
    }
    var ys := hits.yearMentions;
    if |ys| >= 2 {
      years := SeqMax(ys) - SeqMin(ys);
    } else {
      years := 0;
    }
  }

  /** `job_desc.get('max_experience', min_exp + 10 if min_exp >= 0 else 10)`
      when the key is absent. */
  function DefaultMaxExperience(minExp: int): (m: int)
    ensures minExp >= 0 ==> m == minExp + 10 && m >= minExp
    ensures minExp < 0 ==> m == 10
  {
    if minExp >= 0 then minExp + 10 else 10
  }

  /** `experience_match`: 100 inside the band, 80 above it, proportional
      below it. */
  function ExperienceScore(years: nat, minExp: int, maxExp: int): (r: real)
    ensures 0.0 <= r <= 100.0
    ensures minExp <= years <= maxExp ==> r == 100.0
    ensures years >= minExp && years > maxExp ==> r == 80.0
    ensures years < minExp ==> r == (years as real / minExp as real) * 100.0 && r < 100.0
  {
    if years >= minExp then
      if years <= maxExp then 100.0 else 80.0
    else if minExp > 0 then
      Coverage(years, minExp, 100.0)
    else
      100.0
  }

  // ---------------------------------------------------------------------
  // Education

  /** Lowercased degree and context of each entry, in order. */
  function DegreeStrings(entries: seq<EducationEntry>): seq<string> {
    if entries == [] then []
    else
      var last := entries[|entries| - 1];
      DegreeStrings(entries[..|entries| - 1]) + [Lower(last.degree), Lower(last.context)]
  }

  /** How many needles occur in the haystack. */
  function CountIn(needles: seq<string>, hay: string): (n: nat)
    ensures n <= |needles|
    ensures n == |needles| <==> forall k :: 0 <= k < |needles| ==> IsSubstring(needles[k], hay)
  {
    if needles == [] then 0
    else
      var init := needles[..|needles| - 1];
      var n := CountIn(init, hay) + if IsSubstring(needles[|needles| - 1], hay) then 1 else 0;
      assert forall k :: 0 <= k < |init| ==> init[k] == needles[k];
      n
  }

  /** What `_match_education` returns: the fraction of requirements that
      occur, lowercased, in the joined degree/context text. */
  function EducationFraction(entries: seq<EducationEntry>, requirements: seq<string>): (f: real)
    ensures 0.0 <= f <= 1.0
    ensures requirements != [] ==>
      (f == 1.0 <==> forall k :: 0 <= k < |requirements| ==>
         IsSubstring(Lower(requirements[k]), Join(" ", DegreeStrings(entries))))
  {
    if requirements == [] then 1.0
    else
      var n := CountIn(LowerAll(requirements), Join(" ", DegreeStrings(entries)));
      Coverage(n, |requirements|, 1.0)
  }

  /** `_match_education`, with its two loops. */
  method MatchEducation(entries: seq<EducationEntry>, requirements: seq<string>) returns (f: real)
    ensures f == EducationFraction(entries, requirements)
    ensures 0.0 <= f <= 1.0
  {
    if requirements == [] {
      return 1.0;
    }
    var degrees := [];
    for i := 0 to |entries|
      invariant degrees == DegreeStrings(entries[..i])
    {
      assert entries[..i + 1][..i] == entries[..i];
      degrees := degrees + [Lower(entries[i].degree), Lower(entries[i].context)];
    }
    assert entries[..|entries|] == entries;
    var text := Join(" ", degrees);
    var matches := 0;
    ghost var lowered := LowerAll(requirements);
    for i := 0 to |requirements|
      invariant matches == CountIn(lowered[..i], text)
    {
      assert lowered[..i + 1][..i] == lowered[..i];
      if IsSubstring(Lower(requirements[i]), text) {
        matches := matches + 1;
      }
    }
    assert lowered[..|requirements|] == lowered;
    f := matches as real / |requirements| as real;
  }

  // ---------------------------------------------------------------------
  // Hard match

  datatype ExperienceDetails = ExperienceDetails(resumeExperience: nat, minExperience: int, maxExperience: int)

  datatype HardMatch = HardMatch(
    skillsMatch: real,
    experienceMatch: real,
    educationMatch: real,
    certificationMatch: real,
    matchedSkills: seq<string>,
    missingSkills: seq<string>,
    matchedCertifications: seq<string>,
    missingCertifications: seq<string>,
    details: ExperienceDetails,
    overall: real)

  /** The fixed 0.5 / 0.3 / 0.15 / 0.05 blend; the weights sum to 1. */
  function Weighted(skills: real, experience: real, education: real, certs: real): (r: real)
    ensures (0.0 <= skills <= 100.0 && 0.0 <= experience <= 100.0 && 0.0 <= education <= 100.0
             && 0.0 <= certs <= 100.0) ==> 0.0 <= r <= 100.0
    ensures skills == experience == education == certs ==> r == skills
  {
    skills * 0.5 + experience * 0.3 + education * 0.15 + certs * 0.05
  }

  /** `education_match`: 100 unless both the job's requirements and the
      resume's entries are present. */
  function EducationScore(entries: seq<EducationEntry>, requirements: seq<string>): (r: real)
    ensures 0.0 <= r <= 100.0
    ensures requirements == [] || entries == [] ==> r == 100.0
  {
    if requirements != [] && entries != [] then EducationFraction(entries, requirements) * 100.0 else 100.0
  }

  /** The result of `calculate_hard_match`, as a function of its inputs. */
  function HardMatchOf(resume: ResumeRecord, job: JobRecord, fz: Fuzzy, scan: string -> ExperienceHits): HardMatch {
    var pool := LowerAll(resume.skills);
    var required := LowerAll(job.requiredSkills);
    var optional := LowerAll(job.optionalSkills);
    var skills := SkillsScore(required, optional, pool, fz);
    var minExp := job.minExperience.GetOr(0);
    var maxExp := job.maxExperience.GetOr(DefaultMaxExperience(minExp));
    var years := ExperienceYears(scan(resume.rawText));
    var experience := ExperienceScore(years, minExp, maxExp);
    var education := EducationScore(resume.education, job.educationRequirements);
    var certPool := LowerAll(resume.certifications);
    var certReq := LowerAll(job.certificationsRequired);
    var matchedCerts := MatchedOf(certReq, certPool, CertThreshold, fz);
    PartitionSpec(certReq, certPool, CertThreshold, fz);
    var certs := Coverage(|matchedCerts|, |certReq|, 100.0);
    HardMatch(
      skills, experience, education, certs,
      MatchedOf(required, pool, SkillThreshold, fz) + MatchedOf(optional, pool, SkillThreshold, fz),
      MissingOf(required, pool, SkillThreshold, fz),
      matchedCerts, MissingOf(certReq, certPool, CertThreshold, fz),
      ExperienceDetails(years, minExp, maxExp),
      Weighted(skills, experience, education, certs))
  }

  /** Every sub-score and the overall hard match lie in [0, 100]; with no
      requirements at all, and experience in band, it is exactly 100. */
  lemma HardMatchBounds(resume: ResumeRecord, job: JobRecord, fz: Fuzzy, scan: string -> ExperienceHits)
    ensures var h := HardMatchOf(resume, job, fz, scan);
      && 0.0 <= h.skillsMatch <= 100.0 && 0.0 <= h.experienceMatch <= 100.0
      && 0.0 <= h.educationMatch <= 100.0 && 0.0 <= h.certificationMatch <= 100.0
      && 0.0 <= h.overall <= 100.0
    ensures var h := HardMatchOf(resume, job, fz, scan);
      (job.requiredSkills == [] && job.optionalSkills == [] && job.educationRequirements == []
       && job.certificationsRequired == [] && h.experienceMatch == 100.0) ==> h.overall == 100.0
  {
  }

  /** Each required skill lands in exactly one of the matched and missing
      lists; `missing_skills` has only required skills and
      `matched_skills` lists the matched required skills before the matched
      optional ones. Certifications split the same way at threshold 70. */
  lemma HardMatchLists(resume: ResumeRecord, job: JobRecord, fz: Fuzzy, scan: string -> ExperienceHits)
    ensures var h, pool := HardMatchOf(resume, job, fz, scan), LowerAll(resume.skills);
      var required := LowerAll(job.requiredSkills);
      var matchedReq := MatchedOf(required, pool, SkillThreshold, fz);
      && h.missingSkills == MissingOf(required, pool, SkillThreshold, fz)
      && multiset(matchedReq) + multiset(h.missingSkills) == multiset(required)
      && h.matchedSkills[..|matchedReq|] == matchedReq
      && h.matchedSkills[|matchedReq|..] == MatchedOf(LowerAll(job.optionalSkills), pool, SkillThreshold, fz)
      && (forall k :: 0 <= k < |h.matchedSkills| ==> MatchesAny(h.matchedSkills[k], pool, SkillThreshold, fz))
      && (forall k :: 0 <= k < |h.missingSkills| ==> !MatchesAny(h.missingSkills[k], pool, SkillThreshold, fz))
    ensures var h := HardMatchOf(resume, job, fz, scan);
      var certPool, certReq := LowerAll(resume.certifications), LowerAll(job.certificationsRequired);
      && multiset(h.matchedCertifications) + multiset(h.missingCertifications) == multiset(certReq)
      && (forall k :: 0 <= k < |h.matchedCertifications| ==>
            MatchesAny(h.matchedCertifications[k], certPool, CertThreshold, fz))
      && (forall k :: 0 <= k < |h.missingCertifications| ==>
            !MatchesAny(h.missingCertifications[k], certPool, CertThreshold, fz))
  {
    var pool := LowerAll(resume.skills);
    var required, optional := LowerAll(job.requiredSkills), LowerAll(job.optionalSkills);
    PartitionSpec(required, pool, SkillThreshold, fz);
    PartitionSpec(optional, pool, SkillThreshold, fz);
    PartitionSpec(LowerAll(job.certificationsRequired), LowerAll(resume.certifications), CertThreshold, fz);
    var m1, m2 := MatchedOf(required, pool, SkillThreshold, fz), MatchedOf(optional, pool, SkillThreshold, fz);
    assert (m1 + m2)[..|m1|] == m1;
    assert (m1 + m2)[|m1|..] == m2;
    forall k | 0 <= k < |m1 + m2| ensures MatchesAny((m1 + m2)[k], pool, SkillThreshold, fz) {
      if k >= |m1| { assert (m1 + m2)[k] == m2[k - |m1|]; }
    }
  }

  /** `calculate_hard_match`: the lowercasing comprehensions, the
      partition loops and the education loop, then the weighted blend. */
  method CalculateHardMatch(resume: ResumeRecord, job: JobRecord, fz: Fuzzy, scan: string -> ExperienceHits)
    returns (h: HardMatch)
    ensures h == HardMatchOf(resume, job, fz, scan)
    ensures 0.0 <= h.overall <= 100.0
  {
    var pool := LowerAll(resume.skills);
    var required := LowerAll(job.requiredSkills);
    var optional := LowerAll(job.optionalSkills);
    var matchedReq, missingReq := PartitionSkills(required, pool, SkillThreshold, fz);
    var matchedOpt, _ := PartitionSkills(optional, pool, SkillThreshold, fz);
    var skills := Coverage(|matchedReq|, |required|, 70.0) + Coverage(|matchedOpt|, |optional|, 30.0);
    assert skills == SkillsScore(required, optional, pool, fz);

    var minExp := job.minExperience.GetOr(0);
    var maxExp := job.maxExperience.GetOr(DefaultMaxExperience(minExp));
    var years := ExtractExperienceYears(scan(resume.rawText));
    var experience := ExperienceScore(years, minExp, maxExp);

    var education := 100.0;
    if job.educationRequirements != [] && resume.education != [] {
      var fraction := MatchEducation(resume.education, job.educationRequirements);
      education := fraction * 100.0;
    }
    assert education == EducationScore(resume.education, job.educationRequirements);

    var certPool := LowerAll(resume.certifications);
    var certReq := LowerAll(job.certificationsRequired);
    var matchedCerts, missingCerts := PartitionSkills(certReq, certPool, CertThreshold, fz);
    var certs := Coverage(|matchedCerts|, |certReq|, 100.0);

    h := HardMatch(skills, experience, education, certs, matchedReq + matchedOpt, missingReq,
                   matchedCerts, missingCerts, ExperienceDetails(years, minExp, maxExp),
                   Weighted(skills, experience, education, certs));
    HardMatchBounds(resume, job, fz, scan);
  }

  // ---------------------------------------------------------------------
  // Keywords

  /** The stop words of `_extract_keywords`. */
  const StopWords: set<string> := {
    "the", "is", "at", "which", "on", "and", "a", "an", "as", "are",
    "was", "were", "be", "been", "being", "have", "has", "had", "do",
    "does", "did", "will", "would", "could", "should", "may", "might"}

  /** Default `top_n`. */
  const KeywordLimit := 20

  /** `\w` restricted to ASCII: letters, digits and underscore. */
  predicate IsWordChar(c: char) { IsAlnum(c) || c == '_' }

  /** `re.sub(r'[^\w\s]', '', word)` on a word without whitespace. */
  function WordChars(w: string): (r: string)
    ensures |r| <= |w|
    ensures forall k :: 0 <= k < |r| ==> IsWordChar(r[k])
  {
    if w == [] then []
    else (if IsWordChar(w[0]) then [w[0]] else []) + WordChars(w[1..])
  }

  predicate IsKeyword(w: string) { |w| > 3 && w !in StopWords }

  /** The cleaned words that pass the length and stop-word filter, in
      order. */
  function KeywordCandidates(words: seq<string>): (r: seq<string>)
    ensures forall k :: 0 <= k < |r| ==> IsKeyword(r[k])
  {
    if words == [] then []
    else
      var init, w := words[..|words| - 1], WordChars(words[|words| - 1]);
      var r := KeywordCandidates(init) + (if IsKeyword(w) then [w] else []);
      r
  }

  /** The result of `_extract_keywords`. */
  function KeywordsOf(text: string, topN: nat): seq<string> {
    Take(DedupBy(KeywordCandidates(Words(Lower(text))), Identity), topN)
  }

  /** The keywords are at most `topN` filtered words, without repetition, in
      the order in which they first appear. */
  lemma KeywordsSpec(text: string, topN: nat)
    ensures var cands, kws := KeywordCandidates(Words(Lower(text))), KeywordsOf(text, topN);
      && |kws| <= topN
      && (forall k :: 0 <= k < |kws| ==> IsKeyword(kws[k]) && kws[k] in cands)
      && (forall i, j :: 0 <= i < j < |kws| ==> kws[i] != kws[j])
      && (forall i, j :: 0 <= i < j < |kws| ==>
            FirstIndexOfKey(cands, Identity, kws[i]) < FirstIndexOfKey(cands, Identity, kws[j]))
  {
    var cands := KeywordCandidates(Words(Lower(text)));
    var d := DedupBy(cands, Identity);
    DedupBySpec(cands, Identity);
    var kws := KeywordsOf(text, topN);
    assert kws == d[..|kws|];
    forall k | 0 <= k < |kws| ensures IsKeyword(kws[k]) && kws[k] in cands {
      assert kws[k] == d[k];
      var i := FirstIndexOfKey(cands, Identity, Identity(d[k]));
      assert cands[i] == d[k];
    }
    forall i, j | 0 <= i < j < |kws| ensures kws[i] != kws[j] {
      assert kws[i] == d[i] && kws[j] == d[j];
      assert Identity(d[i]) != Identity(d[j]);
    }
    forall i, j | 0 <= i < j < |kws|
      ensures FirstIndexOfKey(cands, Identity, kws[i]) < FirstIndexOfKey(cands, Identity, kws[j])
    {
      assert kws[i] == Identity(d[i]) && kws[j] == Identity(d[j]);
    }
  }

  /** The keywords are the first `topN` distinct candidates: as many as
      `topN` allows, and every candidate when there are fewer. */
  lemma KeywordsComplete(text: string, topN: nat)
    ensures var cands, kws := KeywordCandidates(Words(Lower(text))), KeywordsOf(text, topN);
      && |kws| == Min(topN, |KeySet(cands, Identity)|)
      && (|kws| < topN ==> forall w :: w in cands ==> w in kws)
  {
    var cands := KeywordCandidates(Words(Lower(text)));
    var d := DedupBy(cands, Identity);
    DedupBySpec(cands, Identity);
    KeySetSize(d, Identity);
    var kws := KeywordsOf(text, topN);
    if |kws| < topN {
      assert kws == d;
      forall w | w in cands ensures w in kws {
        var i :| 0 <= i < |cands| && cands[i] == w;
        assert Identity(cands[i]) in KeySet(cands, Identity);
        var k :| 0 <= k < |d| && Identity(d[k]) == w;
      }
    }
  }

  /** `_extract_keywords`, with its filtering loop. */
  method ExtractKeywords(text: string, topN: nat) returns (kws: seq<string>)
    ensures kws == KeywordsOf(text, topN)
    ensures |kws| <= topN
    ensures forall k :: 0 <= k < |kws| ==> IsKeyword(kws[k])
  {
    var words := Words(Lower(text));
    var keywords := [];
    for i := 0 to |words|
      invariant keywords == KeywordCandidates(words[..i])
    {
      assert words[..i + 1][..i] == words[..i];
      var word := WordChars(words[i]);
      if |word| > 3 && word !in StopWords {
        keywords := keywords + [word];
      }
    }
    assert words[..|words|] == words;
    kws := Take(DedupBy(keywords, Identity), topN);
    KeywordsSpec(text, topN);
  }

  // ---------------------------------------------------------------------
  // Soft match

  datatype SoftMatch = SoftMatch(
    tfidfSimilarity: real,
    embeddingSimilarity: real,
    keywordDensity: real,
    overall: real)

  /** Percentage of job keywords found in the lowercased resume text, 0 when
      there are no keywords. */
  function KeywordDensity(keywords: seq<string>, resumeText: string): (r: real)
    ensures 0.0 <= r <= 100.0
    ensures keywords == [] ==> r == 0.0
    ensures keywords != [] ==>
      (r == 100.0 <==> forall k :: 0 <= k < |keywords| ==> IsSubstring(keywords[k], Lower(resumeText)))
  {
    if keywords == [] then 0.0
    else Coverage(CountIn(keywords, Lower(resumeText)), |keywords|, 100.0)
  }

  predicate SameDimension(a: Option<Vector>, b: Option<Vector>) {
    a.Some? && b.Some? ==> |a.value| == |b.value|
  }

  /** The result of `calculate_soft_match`. `tfidf` is the TF-IDF cosine,
      or None when computing it raised. */
  function SoftMatchOf(resumeText: string, jobText: string, resumeEmbedding: Option<Vector>,
                       jobEmbedding: Option<Vector>, tfidf: Option<real>, sqrt: real -> real): SoftMatch
    requires SameDimension(resumeEmbedding, jobEmbedding)
  {
    var t := if tfidf.Some? then tfidf.value * 100.0 else 0.0;
    var e := if resumeEmbedding.Some? && jobEmbedding.Some?
             then Cosine(resumeEmbedding.value, jobEmbedding.value, sqrt) * 100.0 else 0.0;
    var k := KeywordDensity(KeywordsOf(jobText, KeywordLimit), resumeText);
    SoftMatch(t, e, k, t * 0.3 + e * 0.5 + k * 0.2)
  }

  /** With a TF-IDF value in [0, 1] and an embedding cosine in [-1, 1] the
      soft match lies in [-50, 100], and it is non-negative when the
      embeddings are missing or not opposed. */
  lemma SoftMatchBounds(resumeText: string, jobText: string, resumeEmbedding: Option<Vector>,
                        jobEmbedding: Option<Vector>, tfidf: Option<real>, sqrt: real -> real)
    requires SameDimension(resumeEmbedding, jobEmbedding)
    requires tfidf.Some? ==> 0.0 <= tfidf.value <= 1.0
    requires resumeEmbedding.Some? && jobEmbedding.Some? ==>
      -1.0 <= Cosine(resumeEmbedding.value, jobEmbedding.value, sqrt) <= 1.0
    ensures var s := SoftMatchOf(resumeText, jobText, resumeEmbedding, jobEmbedding, tfidf, sqrt);
      && -50.0 <= s.overall <= 100.0
      && (s.embeddingSimilarity >= 0.0 ==> s.overall >= 0.0)
      && 0.0 <= s.keywordDensity <= 100.0
  {
  }

  /** `calculate_soft_match`. */
  method CalculateSoftMatch(resumeText: string, jobText: string, resumeEmbedding: Option<Vector>,
                            jobEmbedding: Option<Vector>, tfidf: Option<real>, sqrt: real -> real)
    returns (s: SoftMatch)
    requires SameDimension(resumeEmbedding, jobEmbedding)
    ensures s == SoftMatchOf(resumeText, jobText, resumeEmbedding, jobEmbedding, tfidf, sqrt)
    ensures tfidf.None? ==> s.tfidfSimilarity == 0.0
    ensures resumeEmbedding.None? || jobEmbedding.None? ==> s.embeddingSimilarity == 0.0
  {
    var t := 0.0;
    if tfidf.Some? {
      t := tfidf.value * 100.0;
    }
    var e := 0.0;
    if resumeEmbedding.Some? && jobEmbedding.Some? {
      e := Cosine(resumeEmbedding.value, jobEmbedding.value, sqrt) * 100.0;
    }
    var keywords := ExtractKeywords(jobText, KeywordLimit);
    var k := 0.0;
    if keywords != [] {
      k := (CountIn(keywords, Lower(resumeText)) as real / |keywords| as real) * 100.0;
    }
    assert k == KeywordDensity(KeywordsOf(jobText, KeywordLimit), resumeText);
    s := SoftMatch(t, e, k, t * 0.3 + e * 0.5 + k * 0.2);
  }
}
