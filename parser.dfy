/** The document parser after text extraction: normalisation of the text,
    the post-processing of what its regular expressions find (skills,
    certifications, education windows, the name line), and the assembly of
    parsed resumes and job descriptions.

    PDF/DOCX text extraction and the regular expressions themselves are not
    modelled: their results are inputs. */
module Parser {
  import opened Base
  import opened Text
  import opened Matching

  // ---------------------------------------------------------------------
  // preprocess_text

  /** `re.sub(r'[^a-zA-Z0-9\s]', ' ', s)`. */
  function CleanChars(s: string): (r: string)
    ensures |r| == |s|
    ensures forall k :: 0 <= k < |s| ==> r[k] == if IsAlnum(s[k]) || IsSpace(s[k]) then s[k] else ' '
  {
    seq(|s|, k requires 0 <= k < |s| => if IsAlnum(s[k]) || IsSpace(s[k]) then s[k] else ' ')
  }

  predicate IsNormalChar(c: char) { IsLowerLetter(c) || IsDigit(c) || c == ' ' }

  /** Every character of every word of s is a non-whitespace character of s. */
  lemma {:induction false} WordsChars(s: string, P: char -> bool)
    requires forall k :: 0 <= k < |s| && !IsSpace(s[k]) ==> P(s[k])
    ensures forall w, k :: w in Words(s) && 0 <= k < |w| ==> P(w[k])
    decreases |s|
  {
    if s == [] {
    } else if IsSpace(s[0]) {
      WordsChars(s[1..], P);
    } else {
      var n := WordLen(s);
      WordsChars(s[n..], P);
      forall w, k | w in Words(s) && 0 <= k < |w| ensures P(w[k]) {
        if w == s[..n] {
          assert w[k] == s[k];
        } else {
          assert w in Words(s[n..]);
        }
      }
    }
  }

  /** `preprocess_text`: lowercase, every character other than an ASCII
      letter, digit or whitespace replaced by a space, runs of whitespace
      collapsed to single spaces and the ends trimmed. The result holds
      only lowercase letters, digits and single inner spaces, and its words
      are exactly those of the lowercased, cleaned text, in order. */
  function PreprocessText(text: string): (r: string)
    ensures forall k :: 0 <= k < |r| ==> IsNormalChar(r[k])
    ensures Trimmed(r)
    ensures forall k :: 0 <= k < |r| - 1 ==> !(r[k] == ' ' && r[k + 1] == ' ')
    ensures Words(r) == Words(CleanChars(Lower(text)))
  {
    var cleaned := CleanChars(Lower(text));
    var ws := Words(cleaned);
    var P := (c: char) => IsNormalChar(c);
    WordsChars(cleaned, c => IsLowerLetter(c) || IsDigit(c));
    JoinChars(" ", ws, P);
    JoinWordsShape(ws);
    WordsOfJoin(ws);
    Join(" ", ws)
  }

  /** Normalising normalised text changes nothing. */
  lemma PreprocessIdempotent(text: string)
    ensures PreprocessText(PreprocessText(text)) == PreprocessText(text)
  {
    var o := PreprocessText(text);
    var ws := Words(CleanChars(Lower(text)));
    assert Lower(o) == o;
    assert CleanChars(o) == o;
    WordsOfJoin(ws);
  }

  // ---------------------------------------------------------------------
  // Lines

  /** Index of the first occurrence of c, or |s|. */
  function IndexOf(s: string, c: char): (i: nat)
    ensures i <= |s| && (i < |s| ==> s[i] == c)
    ensures forall j :: 0 <= j < i ==> s[j] != c
  {
    if s == [] || s[0] == c then 0 else 1 + IndexOf(s[1..], c)
  }

  /** `s.split(sep)` for a one-character separator. */
  function SplitOn(s: string, sep: char): (r: seq<string>)
    ensures |r| >= 1
    ensures forall k :: 0 <= k < |r| ==> sep !in r[k]
    decreases |s|
  {
    var i := IndexOf(s, sep);
    if i == |s| then [s]
    else
      var rest := SplitOn(s[i + 1..], sep);
      assert forall k :: 1 <= k < |rest| + 1 ==> ([s[..i]] + rest)[k] == rest[k - 1];
      [s[..i]] + rest
  }

  /** Joining the pieces with the separator gives the text back. */
  lemma {:induction false} SplitOnJoin(s: string, sep: char)
    ensures Join([sep], SplitOn(s, sep)) == s
    decreases |s|
  {
    var i := IndexOf(s, sep);
    if i < |s| {
      SplitOnJoin(s[i + 1..], sep);
      var rest := SplitOn(s[i + 1..], sep);
      assert SplitOn(s, sep)[1..] == rest;
      assert s == s[..i] + [sep] + s[i + 1..];
    }
  }

  /** `[l.strip() for l in lines if l.strip()]`. */
  function NonBlankLines(lines: seq<string>): (r: seq<string>)
    ensures |r| <= |lines|
    ensures forall k :: 0 <= k < |r| ==> r[k] != [] && Trimmed(r[k])
  {
    if lines == [] then []
    else
      var l := Strip(lines[|lines| - 1]);
      NonBlankLines(lines[..|lines| - 1]) + (if l != [] then [l] else [])
  }

  /** Every line that is not blank once stripped is kept. */
  lemma {:induction false} NonBlankLinesComplete(lines: seq<string>, i: nat)
    requires i < |lines| && Strip(lines[i]) != []
    ensures Strip(lines[i]) in NonBlankLines(lines)
  {
    var init := lines[..|lines| - 1];
    if i < |lines| - 1 {
      assert init[i] == lines[i];
      NonBlankLinesComplete(init, i);
    }
  }

  /** The lines considered for the name: the first eight non-blank ones. */
  function NameCandidates(text: string): seq<string> {
    Take(NonBlankLines(SplitOn(text, '\n')), 8)
  }

  /** At most four words, no digit and no '@'. */
  predicate IsNameLine(line: string) {
    |Words(line)| <= 4 && (forall k :: 0 <= k < |line| ==> !IsDigit(line[k])) && '@' !in line
  }

  /** The index of the first name line, or the number of lines when there
      is none. */
  function FirstNameIndex(lines: seq<string>): (i: nat)
    ensures i <= |lines| && (i < |lines| ==> IsNameLine(lines[i]))
    ensures forall j :: 0 <= j < i ==> !IsNameLine(lines[j])
  {
    if lines == [] then 0
    else if IsNameLine(lines[0]) then 0
    else 1 + FirstNameIndex(lines[1..])
  }

  /** Any index that is a name line with no name line before it, or the end
      of the lines with no name line at all, is the first name index. */
  lemma FirstNameIndexUnique(lines: seq<string>, i: nat)
    requires i <= |lines| && (i < |lines| ==> IsNameLine(lines[i]))
    requires forall j :: 0 <= j < i ==> !IsNameLine(lines[j])
    ensures i == FirstNameIndex(lines)
  {
  }

  /** The name `extract_contact_info` picks from a text. */
  function NameOf(text: string): Option<string> {
    var cs := NameCandidates(text);
    var i := FirstNameIndex(cs);
    if i < |cs| then Some(cs[i]) else None
  }

  /** The picked name is the first of the first eight non-blank stripped
      lines with at most four words, no digit and no '@'; there is none
      exactly when no such line exists. */
  lemma NameOfSpec(text: string)
    ensures var cs, name := NameCandidates(text), NameOf(text);
      && (name.None? <==> forall k :: 0 <= k < |cs| ==> !IsNameLine(cs[k]))
      && (name.Some? ==> exists k :: 0 <= k < |cs| && cs[k] == name.value
                          && forall j :: 0 <= j < k ==> !IsNameLine(cs[j]))
      && (name.Some? ==> IsNameLine(name.value) && name.value != [] && Trimmed(name.value))
  {
    var lines := NonBlankLines(SplitOn(text, '\n'));
    var cs := NameCandidates(text);
    var i := FirstNameIndex(cs);
    if i < |cs| {
      assert cs[i] == lines[i];
    }
  }

  /** The name pick of `extract_contact_info`: the first qualifying line
      among the first eight non-blank stripped lines, or None. */
  method ExtractName(text: string) returns (name: Option<string>)
    ensures name == NameOf(text)
    ensures var cs := NameCandidates(text);
      && (name.None? <==> forall k :: 0 <= k < |cs| ==> !IsNameLine(cs[k]))
      && (name.Some? ==> exists k :: 0 <= k < |cs| && cs[k] == name.value
                          && forall j :: 0 <= j < k ==> !IsNameLine(cs[j]))
    ensures name.Some? ==> IsNameLine(name.value) && name.value != [] && Trimmed(name.value)
  {
    var lines := NonBlankLines(SplitOn(text, '\n'));
    var candidates := Take(lines, 8);
    assert candidates == NameCandidates(text);
    var i := FirstNameLine(candidates);
    NameOfSpec(text);
    if i == |candidates| {
      return None;
    }
    return Some(candidates[i]);
  }

  /** The loop over the candidate lines: the index of the first name line,
      or the number of lines when there is none. */
  method FirstNameLine(lines: seq<string>) returns (i: nat)
    ensures i == FirstNameIndex(lines)
    ensures i <= |lines| && (i < |lines| ==> IsNameLine(lines[i]))
    ensures forall j :: 0 <= j < i ==> !IsNameLine(lines[j])
  {
    i := 0;
    while i < |lines| && !IsNameLine(lines[i])
      invariant i <= |lines|
      invariant forall j :: 0 <= j < i ==> !IsNameLine(lines[j])
    {
      i := i + 1;
    }
    FirstNameIndexUnique(lines, i);
  }

  datatype Contact = Contact(email: Option<string>, phone: Option<string>, name: Option<string>, location: Option<string>)

  /** `extract_contact_info`. `email` and `phone` are the first matches of
      the two patterns; the location is never filled in. */
  method ExtractContactInfo(text: string, email: Option<string>, phone: Option<string>) returns (c: Contact)
    ensures c.email == email && c.location.None?
    ensures c.phone == if phone.Some? then Some(Strip(phone.value)) else None
    ensures c.name == NameOf(text)
    ensures c.name.None? <==> forall k :: 0 <= k < |NameCandidates(text)| ==> !IsNameLine(NameCandidates(text)[k])
  {
    var name := ExtractName(text);
    c := Contact(email, if phone.Some? then Some(Strip(phone.value)) else None, name, None);
  }

  // ---------------------------------------------------------------------
  // Skills and certifications

  /** The fixed list of technical skills looked for in every text. */
  const TechSkills: seq<string> := [
    "Python", "Java", "JavaScript", "C++", "C#", "SQL", "NoSQL",
    "React", "Angular", "Vue", "Node.js", "Django", "Flask", "FastAPI",
    "MongoDB", "PostgreSQL", "MySQL", "Redis", "Docker", "Kubernetes",
    "AWS", "Azure", "GCP", "Machine Learning", "Deep Learning",
    "NLP", "Computer Vision", "TensorFlow", "PyTorch", "Scikit-learn",
    "Git", "CI/CD", "Agile", "Scrum", "REST API", "GraphQL"]

  /** The listed skills whose lowercase form occurs in the lowercased text,
      in list order. */
  function FoundSkills(skills: seq<string>, textLower: string): (r: seq<string>)
    ensures forall k :: 0 <= k < |r| ==> r[k] in skills && IsSubstring(Lower(r[k]), textLower)
  {
    if skills == [] then []
    else
      var init, s := skills[..|skills| - 1], skills[|skills| - 1];
      assert forall x :: x in init ==> x in skills;
      FoundSkills(init, textLower) + (if IsSubstring(Lower(s), textLower) then [s] else [])
  }

  /** The loop over the skill list. */
  method FindSkills(skills: seq<string>, textLower: string) returns (found: seq<string>)
    ensures found == FoundSkills(skills, textLower)
    ensures forall k :: 0 <= k < |found| ==> found[k] in skills && IsSubstring(Lower(found[k]), textLower)
  {
    found := [];
    for i := 0 to |skills|
      invariant found == FoundSkills(skills[..i], textLower)
    {
      assert skills[..i + 1][..i] == skills[..i];
      if IsSubstring(Lower(skills[i]), textLower) {
        found := found + [skills[i]];
      }
    }
    assert skills[..|skills|] == skills;
  }

  /** The stripped pieces that are non-empty and shorter than `limit`. */
  function KeptPieces(pieces: seq<string>, limit: nat): (r: seq<string>)
    ensures |r| <= |pieces|
    ensures AllKept(r, limit)
  {
    if pieces == [] then []
    else
      var p := Strip(pieces[|pieces| - 1]);
      var init, last := KeptPieces(pieces[..|pieces| - 1], limit), if p != [] && |p| < limit then [p] else [];
      AllKeptAppend(init, last, limit);
      init + last
  }

  /** Every piece that is non-empty once stripped and shorter than `limit`
      is kept. */
  lemma {:induction false} KeptPiecesComplete(pieces: seq<string>, limit: nat, i: nat)
    requires i < |pieces| && Strip(pieces[i]) != [] && |Strip(pieces[i])| < limit
    ensures Strip(pieces[i]) in KeptPieces(pieces, limit)
  {
    var init := pieces[..|pieces| - 1];
    if i < |pieces| - 1 {
      assert init[i] == pieces[i];
      KeptPiecesComplete(init, limit, i);
    }
  }

  /** Every piece is non-empty, stripped and shorter than `limit`. */
  predicate AllKept(r: seq<string>, limit: nat) {
    forall k :: 0 <= k < |r| ==> r[k] != [] && |r[k]| < limit && Trimmed(r[k])
  }

  lemma AllKeptAppend(a: seq<string>, b: seq<string>, limit: nat)
    requires AllKept(a, limit) && AllKept(b, limit)
    ensures AllKept(a + b, limit)
  {
    forall k | 0 <= k < |a + b|
      ensures (a + b)[k] != [] && |(a + b)[k]| < limit && Trimmed((a + b)[k])
    {
      if k < |a| { assert (a + b)[k] == a[k]; } else { assert (a + b)[k] == b[k - |a|]; }
    }
  }

  /** The loop over the split section: strip, then keep short non-empty
      pieces. */
  method KeepPieces(pieces: seq<string>, limit: nat) returns (kept: seq<string>)
    ensures kept == KeptPieces(pieces, limit)
  {
    kept := [];
    for i := 0 to |pieces|
      invariant kept == KeptPieces(pieces[..i], limit)
    {
      PrefixStep(pieces, i);
      var piece := Strip(pieces[i]);
      if piece != [] && |piece| < limit {
        kept := kept + [piece];
      }
    }
    WholePrefix(pieces);
  }

  /** Pieces from the skills section must be shorter than this. */
  const SkillPieceLimit := 60

  /** Certifications must be shorter than this. */
  const CertificationLimit := 100

  /** Every skill found before de-duplication: the listed skills in the
      text, then the pieces of the skills section (`section` is the result
      of splitting the section's text, None when there is no section). */
  function SkillCandidates(text: string, section: Option<seq<string>>): seq<string> {
    FoundSkills(TechSkills, Lower(text)) + (if section.Some? then KeptPieces(section.value, SkillPieceLimit) else [])
  }

  /** The result of `extract_skills`. */
  function SkillsOf(text: string, section: Option<seq<string>>): seq<string> {
    DedupBy(SkillCandidates(text, section), Lower)
  }

  /** No two skills are equal ignoring case; each kept skill is the first
      candidate with its lowercase form, in the order of first occurrence;
      no lowercase form is lost; and each skill is a listed skill found in
      the text or a stripped section piece of 1 to 59 characters. */
  lemma SkillsSpec(text: string, section: Option<seq<string>>)
    ensures var cands, r := SkillCandidates(text, section), SkillsOf(text, section);
      && (forall i, j :: 0 <= i < j < |r| ==> Lower(r[i]) != Lower(r[j]))
      && (forall k :: 0 <= k < |r| ==>
            FirstIndexOfKey(cands, Lower, Lower(r[k])) < |cands| && cands[FirstIndexOfKey(cands, Lower, Lower(r[k]))] == r[k])
      && (forall i, j :: 0 <= i < j < |r| ==>
            FirstIndexOfKey(cands, Lower, Lower(r[i])) < FirstIndexOfKey(cands, Lower, Lower(r[j])))
      && KeySet(r, Lower) == KeySet(cands, Lower)
      && (forall x :: x in r ==>
            (x in TechSkills && IsSubstring(Lower(x), Lower(text)))
            || (x != [] && |x| < SkillPieceLimit && Trimmed(x)))
  {
    var cands := SkillCandidates(text, section);
    DedupBySpec(cands, Lower);
    var r := SkillsOf(text, section);
    forall x | x in r
      ensures (x in TechSkills && IsSubstring(Lower(x), Lower(text)))
              || (x != [] && |x| < SkillPieceLimit && Trimmed(x))
    {
      var k :| 0 <= k < |r| && r[k] == x;
      var i := FirstIndexOfKey(cands, Lower, Lower(r[k]));
      assert x in cands by { assert cands[i] == x; }
      CandidateShape(text, section, x);
    }
  }

  lemma CandidateShape(text: string, section: Option<seq<string>>, x: string)
    requires x in SkillCandidates(text, section)
    ensures (x in TechSkills && IsSubstring(Lower(x), Lower(text)))
            || (x != [] && |x| < SkillPieceLimit && Trimmed(x))
  {
    var found := FoundSkills(TechSkills, Lower(text));
    var kept := if section.Some? then KeptPieces(section.value, SkillPieceLimit) else [];
    assert x in found || x in kept;
  }

  lemma TechSkillsNonEmpty()
    ensures forall s :: s in TechSkills ==> s != []
  {
  }

  /** The `seen`-set loop of `extract_skills`, on non-empty skills. */
  method DedupIgnoringCase(skills: seq<string>) returns (unique: seq<string>)
    requires forall k :: 0 <= k < |skills| ==> skills[k] != []
    ensures unique == DedupBy(skills, Lower)
  {
    var seen: set<string> := {};
    unique := [];
    for i := 0 to |skills|
      invariant unique + DedupFrom(skills[i..], Lower, seen) == DedupBy(skills, Lower)
    {
      assert skills[i..] == [skills[i]] + skills[i + 1..];
      if skills[i] != [] && Lower(skills[i]) !in seen {
        seen := seen + {Lower(skills[i])};
        unique := unique + [skills[i]];
      }
    }
    assert skills[|skills|..] == [];
  }

  /** `extract_skills`: the listed-skill loop, the section loop, then the
      case-insensitive first-seen de-duplication with a `seen` set. */
  method ExtractSkills(text: string, section: Option<seq<string>>) returns (unique: seq<string>)
    ensures unique == SkillsOf(text, section)
    ensures forall i, j :: 0 <= i < j < |unique| ==> Lower(unique[i]) != Lower(unique[j])
  {
    var skills := FindSkills(TechSkills, Lower(text));
    TechSkillsNonEmpty();
    if section.Some? {
      var additional := KeepPieces(section.value, SkillPieceLimit);
      skills := skills + additional;
    }
    assert skills == SkillCandidates(text, section);
    assert forall k :: 0 <= k < |skills| ==> skills[k] != [];
    unique := DedupIgnoringCase(skills);
    SkillsSpec(text, section);
  }

  /** `extract_certifications`: the stripped, non-empty pieces of the
      certification section shorter than 100 characters. */
  method ExtractCertifications(section: Option<seq<string>>) returns (certifications: seq<string>)
    ensures section.None? ==> certifications == []
    ensures section.Some? ==> certifications == KeptPieces(section.value, CertificationLimit)
    ensures forall k :: 0 <= k < |certifications| ==>
      certifications[k] != [] && |certifications[k]| < CertificationLimit && Trimmed(certifications[k])
    ensures section.Some? ==> forall i :: 0 <= i < |section.value| ==>
      (Strip(section.value[i]) != [] && |Strip(section.value[i])| < CertificationLimit ==>
         Strip(section.value[i]) in certifications)
  {
    certifications := [];
    if section.Some? {
      certifications := KeepPieces(section.value, CertificationLimit);
      forall i | 0 <= i < |section.value| && Strip(section.value[i]) != [] && |Strip(section.value[i])| < CertificationLimit
        ensures Strip(section.value[i]) in certifications
      {
        KeptPiecesComplete(section.value, CertificationLimit, i);
      }
    }
  }

  // ---------------------------------------------------------------------
  // Education

  /** Where a degree pattern matched in the education section. */
  datatype Span = Span(start: nat, end: nat)

  /** The text of the education section and the matches of the degree
      patterns in it, pattern by pattern. */
  datatype EducationSection = EducationSection(text: string, spans: seq<Span>)

  /** The context window of a match: 50 characters before it and 100 after
      it, cut at the ends of the text. It always lies within the text and
      around the match. */
  function Window(span: Span, n: nat): (w: (nat, nat))
    requires span.start <= span.end <= n
    ensures 0 <= w.0 <= span.start && span.end <= w.1 <= n
    ensures span.start - w.0 <= 50 && w.1 - span.end <= 100
    ensures span.start >= 50 ==> w.0 == span.start - 50
    ensures span.end + 100 <= n ==> w.1 == span.end + 100
  {
    (Max(0, span.start - 50) as nat, Min(n, span.end + 100) as nat)
  }

  /** The entry for one match: the matched text and the stripped window. A
      match always lies inside the text; a span outside it gives empty
      strings. */
  function EntryOf(text: string, span: Span): EducationEntry {
    if span.start <= span.end <= |text| then
      var w := Window(span, |text|);
      EducationEntry(text[span.start..span.end], Strip(text[w.0..w.1]))
    else EducationEntry([], [])
  }

  /** The degree of an entry occurs in the section where the match is, and
      its context is no longer than the section and holds no surrounding
      whitespace. */
  lemma EntryOfSpec(text: string, span: Span)
    requires span.start <= span.end <= |text|
    ensures var e := EntryOf(text, span);
      && OccursAt(e.degree, text, span.start) && IsSubstring(e.degree, text)
      && |e.context| <= |text| && Trimmed(e.context)
  {
    var w := Window(span, |text|);
    var d := text[span.start..span.end];
    assert text[span.start..span.start + |d|] == d;
    assert OccursAt(d, text, span.start);
    assert |Strip(text[w.0..w.1])| <= |text|;
  }

  /** `extract_education`: one entry per degree match, with the matched text
      as degree and the stripped window as context; none without an
      education section. */
  method ExtractEducation(section: Option<EducationSection>) returns (education: seq<EducationEntry>)
    ensures section.None? ==> education == []
    ensures section.Some? ==>
      && |education| == |section.value.spans|
      && forall k :: 0 <= k < |education| ==> education[k] == EntryOf(section.value.text, section.value.spans[k])
  {
    education := [];
    if section.Some? {
      var text, spans := section.value.text, section.value.spans;
      education := EntriesOf(spans, span => EntryOf(text, span));
    }
  }

  /** The loop over the degree matches: one entry per match, in order. */
  method EntriesOf(spans: seq<Span>, entry: Span -> EducationEntry) returns (education: seq<EducationEntry>)
    ensures |education| == |spans|
    ensures forall k :: 0 <= k < |spans| ==> education[k] == entry(spans[k])
  {
    education := [];
    for i := 0 to |spans|
      invariant |education| == i
      invariant forall k :: 0 <= k < i ==> education[k] == entry(spans[k])
    {
      education := education + [entry(spans[i])];
    }
  }

  // ---------------------------------------------------------------------
  // parse_resume

  datatype ParsedResume = ParsedResume(
    rawText: string,
    processedText: string,
    candidateName: Option<string>,
    candidateEmail: Option<string>,
    phone: Option<string>,
    location: Option<string>,
    skills: seq<string>,
    education: seq<EducationEntry>,
    experience: seq<string>,
    projects: seq<string>,
    certifications: seq<string>)

  /** What the extractor and the regular expressions yield for one file:
      the raw text, the first email and phone matches, the split skills and
      certification sections, the education section with its degree
      matches, and the project titles. */
  datatype Extraction = Extraction(
    rawText: string,
    email: Option<string>,
    phone: Option<string>,
    skillsSection: Option<seq<string>>,
    education: Option<EducationSection>,
    certificationsSection: Option<seq<string>>,
    projectTitles: seq<string>)

  datatype FileKind = Pdf | Docx

  /** The supported file types, compared lowercased. */
  function KindOf(fileType: string): (k: Option<FileKind>)
    ensures k == Some(Pdf) <==> Lower(fileType) == "pdf"
    ensures k == Some(Docx) <==> Lower(fileType) == "docx" || Lower(fileType) == "doc"
  {
    var t := Lower(fileType);
    if t == "pdf" then Some(Pdf)
    else if t == "docx" || t == "doc" then Some(Docx)
    else None
  }

  /** `parse_resume`. `pdf` and `docx` are what the PDF and DOCX extractors
      yield for the file; an unsupported type is the ValueError. The name
      is None, not "Unknown", when no line qualifies, because the contact
      record always has a `name` key. */
  method ParseResume(fileType: string, pdf: Extraction, docx: Extraction) returns (r: Result<ParsedResume, string>)
    ensures r.Failure? <==> KindOf(fileType).None?
    ensures r.Failure? ==> r.error == "Unsupported file type: " + fileType
    ensures r.Success? ==>
      var x := if KindOf(fileType) == Some(Pdf) then pdf else docx;
      && r.value.rawText == x.rawText
      && r.value.processedText == PreprocessText(x.rawText)
      && r.value.skills == SkillsOf(x.rawText, x.skillsSection)
      && r.value.certifications == (if x.certificationsSection.Some? then KeptPieces(x.certificationsSection.value, CertificationLimit) else [])
      && |r.value.education| == (if x.education.Some? then |x.education.value.spans| else 0)
      && (x.education.Some? ==> forall k :: 0 <= k < |r.value.education| ==>
            r.value.education[k] == EntryOf(x.education.value.text, x.education.value.spans[k]))
      && r.value.candidateEmail == x.email
      && r.value.phone == (if x.phone.Some? then Some(Strip(x.phone.value)) else None)
      && r.value.candidateName == NameOf(x.rawText)
      && |r.value.projects| == |x.projectTitles|
      && (forall k :: 0 <= k < |x.projectTitles| ==> r.value.projects[k] == Strip(x.projectTitles[k]))
      && r.value.experience == [] && r.value.location.None?
  {
    var kind := KindOf(fileType);
    if kind.None? {
      return Failure("Unsupported file type: " + fileType);
    }
    var x := if kind.value == Pdf then pdf else docx;
    var contact := ExtractContactInfo(x.rawText, x.email, x.phone);
    var skills := ExtractSkills(x.rawText, x.skillsSection);
    var education := ExtractEducation(x.education);
    var certifications := ExtractCertifications(x.certificationsSection);
    var projects := seq(|x.projectTitles|, k requires 0 <= k < |x.projectTitles| => Strip(x.projectTitles[k]));
    var processed := PreprocessText(x.rawText);
    r := Success(ParsedResume(x.rawText, processed, contact.name, contact.email, contact.phone, contact.location,
                              skills, education, [], projects, certifications));
  }

  // ---------------------------------------------------------------------
  // parse_job_description

  /** What the job-description regexes yield: the text after the
      required-skills and preferred-skills headings, and the number before
      the first "years"/"yrs". */
  datatype JobExtraction = JobExtraction(required: Option<string>, optional: Option<string>, years: Option<nat>)

  datatype ParsedJob = ParsedJob(
    rawText: string,
    processedText: string,
    requiredSkills: seq<string>,
    optionalSkills: seq<string>,
    minExperience: nat,
    educationRequirements: seq<string>,
    certificationsRequired: seq<string>,
    projectsRequired: seq<string>)

  /** Skills of a section text, None when the heading was not found. */
  function SectionSkills(section: Option<string>, sectionsOf: string -> Option<seq<string>>): seq<string> {
    if section.Some? then SkillsOf(section.value, sectionsOf(section.value)) else []
  }

  /** `parse_job_description`. `sectionsOf` gives, for any text, the split
      skills section that `extract_skills` finds in it. */
  method ParseJobDescription(text: string, x: JobExtraction, sectionsOf: string -> Option<seq<string>>)
    returns (job: ParsedJob)
    ensures job.rawText == text && job.processedText == PreprocessText(text)
    ensures job.minExperience == x.years.GetOr(0)
    ensures job.optionalSkills == SectionSkills(x.optional, sectionsOf)
    ensures SectionSkills(x.required, sectionsOf) != [] ==> job.requiredSkills == SectionSkills(x.required, sectionsOf)
    ensures SectionSkills(x.required, sectionsOf) == [] ==>
      job.requiredSkills == Take(SkillsOf(text, sectionsOf(text)), 12)
    ensures |job.requiredSkills| <= 12 || job.requiredSkills == SectionSkills(x.required, sectionsOf)
    ensures job.educationRequirements == [] && job.certificationsRequired == [] && job.projectsRequired == []
  {
    var required: seq<string> := [];
    var optional: seq<string> := [];
    if x.required.Some? {
      required := ExtractSkills(x.required.value, sectionsOf(x.required.value));
    }
    if x.optional.Some? {
      optional := ExtractSkills(x.optional.value, sectionsOf(x.optional.value));
    }
    var minExperience := if x.years.Some? then x.years.value else 0;
    var processed := PreprocessText(text);
    if required == [] {
      var all := ExtractSkills(text, sectionsOf(text));
      required := Take(all, 12);
    }
    job := ParsedJob(text, processed, required, optional, minExperience, [], [], []);
  }
}
