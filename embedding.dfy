/** The embedding service: deterministic index ids from record ids, the
    zero vector for empty text, the zero-norm-safe similarity, and the
    bookkeeping of the two FAISS indexes and their metadata maps.

    The sentence encoder, MD5 and the FAISS index search are parameters;
    each FAISS index is modelled as the sequence of (id, vector) entries
    added to it, in order. */
module Embedding {
  import opened Base
  import opened Vectors

  // ---------------------------------------------------------------------
  // _str_to_id

  predicate IsHexChar(c: char) { '0' <= c <= '9' || 'a' <= c <= 'f' }

  /** What `hashlib.md5(...).hexdigest()` returns: 32 lowercase hex digits. */
  type HexDigest = s: string | |s| == 32 && forall k :: 0 <= k < |s| ==> IsHexChar(s[k])
    witness "00000000000000000000000000000000"

  function HexCharValue(c: char): (v: nat)
    requires IsHexChar(c)
    ensures v < 16
  {
    if c <= '9' then c as int - '0' as int else c as int - 'a' as int + 10
  }

  function Pow16(n: nat): (p: nat)
    ensures p >= 1
  {
    if n == 0 then 1 else 16 * Pow16(n - 1)
  }

  predicate AllHex(s: string) { forall k :: 0 <= k < |s| ==> IsHexChar(s[k]) }

  /** `int(s, 16)` for a string of lowercase hex digits. */
  function HexValue(s: string): (v: nat)
    requires AllHex(s)
    ensures v < Pow16(|s|)
  {
    if s == [] then 0
    else 16 * HexValue(s[..|s| - 1]) + HexCharValue(s[|s| - 1])
  }

  /** Two hex strings of the same length with the same value are equal. */
  lemma {:induction false} HexValueInjective(s: string, t: string)
    requires AllHex(s) && AllHex(t) && |s| == |t|
    requires HexValue(s) == HexValue(t)
    ensures s == t
  {
    if s != [] {
      var n := |s| - 1;
      var a, b := HexValue(s[..n]), HexValue(t[..n]);
      var d, e := HexCharValue(s[n]), HexCharValue(t[n]);
      assert 16 * a + d == 16 * b + e;
      assert a == b && d == e;
      HexValueInjective(s[..n], t[..n]);
      assert s[n] == t[n];
      assert s == s[..n] + [s[n]] && t == t[..n] + [t[n]];
    }
  }

  /** 16^15 = 2^60. */
  const IdBound: nat := 1152921504606846976

  lemma IdBoundIsPow16()
    ensures Pow16(15) == IdBound
  {
    assert Pow16(5) == 1048576;
    assert Pow16(10) == 1099511627776;
  }

  /** `_str_to_id`: the first 15 hex digits of the MD5 digest read as a
      number, which lies in [0, 2^60) and so fits a signed 64-bit id. */
  function StrToId(s: string, md5: string -> HexDigest): (id: int)
    ensures 0 <= id < IdBound && id < 0x7FFF_FFFF_FFFF_FFFF
  {
    IdBoundIsPow16();
    HexValue(md5(s)[..15])
  }

  /** Two record ids collide exactly when their digests share the first 15
      hex digits. */
  lemma StrToIdCollision(a: string, b: string, md5: string -> HexDigest)
    ensures StrToId(a, md5) == StrToId(b, md5) <==> md5(a)[..15] == md5(b)[..15]
  {
    if StrToId(a, md5) == StrToId(b, md5) {
      HexValueInjective(md5(a)[..15], md5(b)[..15]);
    }
  }

  // ---------------------------------------------------------------------
  // Embeddings and similarity

  /** The sentence encoder: its output dimension and the (normalised)
      vector it produces for a non-empty text. */
  datatype Encoder = Encoder(dim: nat, encode: string -> Vector)

  ghost predicate EncoderValid(e: Encoder) {
    forall t :: |e.encode(t)| == e.dim
  }

  /** `generate_embeddings`: `dim` zeros for the empty text. */
  function GenerateEmbeddings(e: Encoder, text: string): (v: Vector)
    ensures text == [] ==> |v| == e.dim && IsZero(v)
    ensures text != [] ==> v == e.encode(text)
    ensures EncoderValid(e) ==> |v| == e.dim
  {
    if text == [] then Zeros(e.dim) else e.encode(text)
  }

  /** `calculate_similarity`: the cosine scaled to percent, 0 when either
      vector has norm 0. */
  function CalculateSimilarity(v1: Vector, v2: Vector, sqrt: real -> real): (r: real)
    requires |v1| == |v2|
    ensures sqrt(NormSq(v1)) == 0.0 || sqrt(NormSq(v2)) == 0.0 ==> r == 0.0
    ensures sqrt(NormSq(v1)) != 0.0 && sqrt(NormSq(v2)) != 0.0 ==>
      r == Dot(v1, v2) / (sqrt(NormSq(v1)) * sqrt(NormSq(v2))) * 100.0
  {
    Cosine(v1, v2, sqrt) * 100.0
  }

  /** The embedding of an empty text is similar to nothing. */
  lemma EmptyTextSimilarity(e: Encoder, v: Vector, sqrt: real -> real)
    requires |v| == e.dim && sqrt(0.0) == 0.0
    ensures CalculateSimilarity(GenerateEmbeddings(e, []), v, sqrt) == 0.0
    ensures CalculateSimilarity(v, GenerateEmbeddings(e, []), sqrt) == 0.0
  {
    CosineOfZero(GenerateEmbeddings(e, []), v, sqrt);
    CosineOfZero(v, GenerateEmbeddings(e, []), sqrt);
  }

  // ---------------------------------------------------------------------
  // Index bookkeeping

  datatype IndexEntry = IndexEntry(id: int, vector: Vector)

  /** The value stored under `str(id_int)`: the record id (`resume_id` or
      `job_id`) and its metadata. */
  datatype MetaEntry = MetaEntry(recordId: string, metadata: map<string, string>)

  function IdsOf(index: seq<IndexEntry>): set<int> {
    set k | 0 <= k < |index| :: index[k].id
  }

  /** `metadata or {}`. */
  function MetadataOr(metadata: Option<map<string, string>>): (m: map<string, string>)
    ensures metadata.None? ==> m == map[]
    ensures metadata.Some? ==> m == metadata.value
  {
    if metadata.Some? then metadata.value else map[]
  }

  /** Adding an entry adds its id to the id set. */
  lemma IdsOfAppend(index: seq<IndexEntry>, e: IndexEntry)
    ensures IdsOf(index + [e]) == IdsOf(index) + {e.id}
  {
    var s := index + [e];
    forall x | x in IdsOf(index) ensures x in IdsOf(s) {
      var k :| 0 <= k < |index| && index[k].id == x;
      assert s[k] == index[k];
    }
    assert s[|index|] == e;
  }

  /** A metadata map keyed by the ids of an index has at most one key per
      index entry (re-storing an id adds a second entry but no key). */
  lemma {:induction false} MetaNoLargerThanIndex(index: seq<IndexEntry>, meta: map<int, MetaEntry>)
    requires IdsOf(index) == meta.Keys
    ensures |meta| <= |index|
  {
    IdsCardinality(index);
    assert |meta| == |meta.Keys|;
  }

  lemma {:induction false} IdsCardinality(index: seq<IndexEntry>)
    ensures |IdsOf(index)| <= |index|
  {
    if index != [] {
      var init := index[..|index| - 1];
      IdsCardinality(init);
      assert index == init + [index[|index| - 1]];
      IdsOfAppend(init, index[|index| - 1]);
    }
  }

  /** One row of the FAISS search answer: an inner-product distance and an
      id, -1 for an empty slot. */
  datatype Slot = Slot(distance: real, id: int)

  datatype SearchOutcome = SearchFailed | Slots(slots: seq<Slot>)

  /** A query is either a text to embed or an embedding. */
  datatype Query = TextQuery(text: string) | VectorQuery(vector: Vector)

  /** One result of `find_similar_resumes`; `resumeId` is None when the id
      has no metadata. */
  datatype SimilarResume = SimilarResume(resumeId: Option<string>, similarityScore: real, metadata: map<string, string>)

  /** The non-sentinel slots, in search order. */
  function NonSentinel(slots: seq<Slot>): (r: seq<Slot>)
    ensures |r| <= |slots|
    ensures forall k :: 0 <= k < |r| ==> r[k].id != -1 && r[k] in slots
  {
    if slots == [] then []
    else
      var init, last := slots[..|slots| - 1], slots[|slots| - 1];
      assert forall s :: s in init ==> s in slots;
      NonSentinel(init) + (if last.id == -1 then [] else [last])
  }

  /** Filtering one more slot keeps the earlier ones in order and appends
      the new one unless it is the sentinel. */
  lemma NonSentinelSnoc(slots: seq<Slot>, s: Slot)
    ensures NonSentinel(slots + [s]) == NonSentinel(slots) + (if s.id == -1 then [] else [s])
  {
    assert (slots + [s])[..|slots|] == slots;
  }

  /** No non-sentinel slot is dropped. */
  lemma {:induction false} NonSentinelComplete(slots: seq<Slot>)
    ensures forall s :: s in slots && s.id != -1 ==> s in NonSentinel(slots)
  {
    if slots != [] {
      var init, last := slots[..|slots| - 1], slots[|slots| - 1];
      NonSentinelComplete(init);
      assert slots == init + [last];
      NonSentinelSnoc(init, last);
    }
  }

  /** What one slot becomes: `meta.get(str(id), {})` read for the record id
      and metadata, and the distance scaled to percent. */
  function ResultOf(slot: Slot, meta: map<int, MetaEntry>): SimilarResume {
    if slot.id in meta then SimilarResume(Some(meta[slot.id].recordId), slot.distance * 100.0, meta[slot.id].metadata)
    else SimilarResume(None, slot.distance * 100.0, map[])
  }

  /** The results for a successful search, one per non-sentinel slot. */
  function ResultsOf(slots: seq<Slot>, meta: map<int, MetaEntry>): (r: seq<SimilarResume>)
    ensures |r| == |NonSentinel(slots)|
    ensures forall k :: 0 <= k < |r| ==> r[k] == ResultOf(NonSentinel(slots)[k], meta)
  {
    var ns := NonSentinel(slots);
    seq(|ns|, k requires 0 <= k < |ns| => ResultOf(ns[k], meta))
  }

  lemma ResultsOfSnoc(slots: seq<Slot>, s: Slot, meta: map<int, MetaEntry>)
    ensures ResultsOf(slots + [s], meta)
         == ResultsOf(slots, meta) + (if s.id == -1 then [] else [ResultOf(s, meta)])
  {
    assert (slots + [s])[..|slots|] == slots;
  }

  /** The search only reports ids that are in the index, or the sentinel. */
  predicate SlotsFromIndex(slots: seq<Slot>, index: seq<IndexEntry>) {
    forall k :: 0 <= k < |slots| ==> slots[k].id == -1 || slots[k].id in IdsOf(index)
  }

  /** The two indexes with their metadata maps. Loading them from disk and
      saving them after each store are not modelled: a new store starts
      empty. */
  class EmbeddingStore {
    const encoder: Encoder
    const md5: string -> HexDigest
    var resumeIndex: seq<IndexEntry>
    var jobIndex: seq<IndexEntry>
    var resumeMeta: map<int, MetaEntry>
    var jobMeta: map<int, MetaEntry>

    /** Every indexed id has metadata and every metadata key is indexed. */
    ghost predicate Valid()
      reads this
    {
      IdsOf(resumeIndex) == resumeMeta.Keys && IdsOf(jobIndex) == jobMeta.Keys
    }

    constructor (encoder: Encoder, md5: string -> HexDigest)
      ensures Valid()
      ensures this.encoder == encoder && this.md5 == md5
      ensures resumeIndex == [] && jobIndex == [] && resumeMeta == map[] && jobMeta == map[]
    {
      this.encoder := encoder;
      this.md5 := md5;
      resumeIndex, jobIndex := [], [];
      resumeMeta, jobMeta := map[], map[];
    }

    /** `_rebuild_index_from_meta`: currently a no-op. */
    method RebuildIndexFromMeta()
      requires Valid()
      modifies this
      ensures Valid()
      ensures resumeIndex == old(resumeIndex) && jobIndex == old(jobIndex)
      ensures resumeMeta == old(resumeMeta) && jobMeta == old(jobMeta)
    {
    }

    /** `store_resume_embedding`. `firstAddOk` and `retryOk` say whether
        FAISS accepted the first add and the add retried after the rebuild;
        when both fail the exception propagates and nothing changes. */
    method StoreResumeEmbedding(resumeId: string, text: string, metadata: Option<map<string, string>>,
                                firstAddOk: bool, retryOk: bool)
      returns (r: Result<Vector, string>)
      requires Valid()
      modifies this
      ensures Valid()
      ensures jobIndex == old(jobIndex) && jobMeta == old(jobMeta)
      ensures r.Success? <==> firstAddOk || retryOk
      ensures r.Success? ==>
        && r.value == GenerateEmbeddings(encoder, text)
        && resumeIndex == old(resumeIndex) + [IndexEntry(StrToId(resumeId, md5), r.value)]
        && resumeMeta == old(resumeMeta)[StrToId(resumeId, md5) := MetaEntry(resumeId, MetadataOr(metadata))]
      ensures r.Failure? ==> resumeIndex == old(resumeIndex) && resumeMeta == old(resumeMeta)
    {
      var embedding := GenerateEmbeddings(encoder, text);
      var id := StrToId(resumeId, md5);
      if !firstAddOk {
        RebuildIndexFromMeta();
        if !retryOk {
          return Failure("Could not add id to the resume index");
        }
      }
      IdsOfAppend(resumeIndex, IndexEntry(id, embedding));
      resumeIndex := resumeIndex + [IndexEntry(id, embedding)];
      resumeMeta := resumeMeta[id := MetaEntry(resumeId, MetadataOr(metadata))];
      return Success(embedding);
    }

    /** `store_job_embedding`: the same update on the job side; the resume
        side is untouched. */
    method StoreJobEmbedding(jobId: string, text: string, metadata: Option<map<string, string>>,
                             firstAddOk: bool, retryOk: bool)
      returns (r: Result<Vector, string>)
      requires Valid()
      modifies this
      ensures Valid()
      ensures resumeIndex == old(resumeIndex) && resumeMeta == old(resumeMeta)
      ensures r.Success? <==> firstAddOk || retryOk
      ensures r.Success? ==>
        && r.value == GenerateEmbeddings(encoder, text)
        && jobIndex == old(jobIndex) + [IndexEntry(StrToId(jobId, md5), r.value)]
        && jobMeta == old(jobMeta)[StrToId(jobId, md5) := MetaEntry(jobId, MetadataOr(metadata))]
      ensures r.Failure? ==> jobIndex == old(jobIndex) && jobMeta == old(jobMeta)
    {
      var embedding := GenerateEmbeddings(encoder, text);
      var id := StrToId(jobId, md5);
      if !firstAddOk {
        RebuildIndexFromMeta();
        if !retryOk {
          return Failure("Could not add id to the job index");
        }
      }
      IdsOfAppend(jobIndex, IndexEntry(id, embedding));
      jobIndex := jobIndex + [IndexEntry(id, embedding)];
      jobMeta := jobMeta[id := MetaEntry(jobId, MetadataOr(metadata))];
      return Success(embedding);
    }

    /** `find_similar_resumes`. `search` stands for the FAISS search of the
        resume index for the query's `top_k` nearest entries. */
    method FindSimilarResumes(query: Query, topK: int, search: (seq<IndexEntry>, Vector, int) -> SearchOutcome)
      returns (results: seq<SimilarResume>)
      ensures |resumeMeta| == 0 ==> results == []
      ensures |resumeMeta| > 0 ==>
        var q := if query.TextQuery? then GenerateEmbeddings(encoder, query.text) else query.vector;
        match search(resumeIndex, q, topK)
        case SearchFailed => results == []
        case Slots(slots) => results == ResultsOf(slots, resumeMeta) && |results| <= |slots|
      ensures Valid() ==> forall k :: 0 <= k < |results| ==>
        var q := if query.TextQuery? then GenerateEmbeddings(encoder, query.text) else query.vector;
        var outcome := search(resumeIndex, q, topK);
        outcome.Slots? && SlotsFromIndex(outcome.slots, resumeIndex) ==> results[k].resumeId.Some?
    {
      if |resumeMeta| == 0 {
        return [];
      }
      var q := if query.TextQuery? then GenerateEmbeddings(encoder, query.text) else query.vector;
      var outcome := search(resumeIndex, q, topK);
      if outcome.SearchFailed? {
        return [];
      }
      var slots := outcome.slots;
      results := [];
      for i := 0 to |slots|
        invariant results == ResultsOf(slots[..i], resumeMeta)
      {
        ResultsOfSnoc(slots[..i], slots[i], resumeMeta);
        assert slots[..i + 1] == slots[..i] + [slots[i]];
        if slots[i].id == -1 {
          continue;
        }
        var id := slots[i].id;
        var entry := if id in resumeMeta then SimilarResume(Some(resumeMeta[id].recordId), slots[i].distance * 100.0, resumeMeta[id].metadata)
                     else SimilarResume(None, slots[i].distance * 100.0, map[]);
        results := results + [entry];
      }
      assert slots[..|slots|] == slots;
    }
  }
}
