/**
 * The FAQ cache: a table of curated (question, answer) pairs with one
 * embedding vector per question, consulted before any retrieval.  A user
 * question is accepted as a cache hit only when its best cosine score
 * against the table reaches a fixed threshold.
 *
 * The embedder and `numpy.linalg.norm` are oracles: `embed` maps a text to
 * a vector or raises, `norm` gives a vector's Euclidean length.
 */
module Faq {
  import opened Outcomes
  import opened PyText

  type Vector = seq<real>

  /** One record of the FAQ table file. */
  datatype FaqEntry = FaqEntry(question: string, answer: string)

  /** What `check` returns on a hit: the answer and its score. */
  datatype Hit = Hit(answer: string, score: real)

  /** `FAQ_THRESHOLD`: the least score accepted as a hit. */
  const FaqThreshold: real := 0.80

  /** Questions with more words than this are never looked up. */
  const MaxQuestionWords: nat := 12

  /** What `numpy.dot` raises for vectors of different lengths. */
  const ShapeMismatch: Exception := Exception("shapes not aligned")

  function Min(a: nat, b: nat): nat { if a <= b then a else b }

  // ---------------------------------------------------------------------------
  // Cosine similarity

  function Dot(a: Vector, b: Vector): real
    requires |a| == |b|
  {
    if a == [] then 0.0 else a[0] * b[0] + Dot(a[1..], b[1..])
  }

  predicate IsZero(v: Vector)
  {
    forall k :: 0 <= k < |v| ==> v[k] == 0.0
  }

  /**
   * What `numpy.linalg.norm` guarantees of the vectors it measures: the
   * length is never negative, and it is 0 exactly for a zero vector.
   */
  ghost predicate IsNorm(norm: Vector -> real)
  {
    forall v :: norm(v) >= 0.0 && (norm(v) == 0.0 <==> IsZero(v))
  }

  /** `_cosine_similarity(a, b)`; 0.0 when the product of the norms is 0. */
  function Cosine(a: Vector, b: Vector, norm: Vector -> real): Result<real>
  {
    var denom := norm(a) * norm(b);
    if denom == 0.0 then Ok(0.0)
    else if |a| != |b| then Err(ShapeMismatch)
    else Ok(Dot(a, b) / denom)
  }

  /**
   * With a true norm, a zero vector on either side scores exactly 0.0 and
   * never raises, whatever the other vector's length: the guard on the norm
   * product answers before `numpy.dot` is reached.
   */
  lemma CosineZeroVector(a: Vector, b: Vector, norm: Vector -> real)
    requires IsNorm(norm) && (IsZero(a) || IsZero(b))
    ensures Cosine(a, b, norm) == Ok(0.0)
  {
    assert norm(a) == 0.0 || norm(b) == 0.0;
  }

  /**
   * With a true norm, scoring raises exactly when both vectors are non-zero
   * and their lengths differ.
   */
  lemma CosineRaises(a: Vector, b: Vector, norm: Vector -> real)
    requires IsNorm(norm)
    ensures Cosine(a, b, norm).Err? <==> !IsZero(a) && !IsZero(b) && |a| != |b|
    ensures Cosine(a, b, norm).Err? ==> Cosine(a, b, norm).error == ShapeMismatch
  {
    if !IsZero(a) && !IsZero(b) {
      assert norm(a) > 0.0 && norm(b) > 0.0;
      assert norm(a) * norm(b) > 0.0;
    } else {
      CosineZeroVector(a, b, norm);
    }
  }

  // ---------------------------------------------------------------------------
  // Scanning the table

  /** Scores of `u` against each of `vecs`, in order; the first score that raises stops the scan. */
  function ScoreAll(u: Vector, vecs: seq<Vector>, norm: Vector -> real): (r: Result<seq<real>>)
    ensures r.Ok? ==> |r.value| == |vecs|
  {
    if vecs == [] then Ok([])
    else
      match ScoreAll(u, vecs[..|vecs| - 1], norm)
      case Err(e) => Err(e)
      case Ok(scores) =>
        match Cosine(u, vecs[|vecs| - 1], norm)
        case Err(e) => Err(e)
        case Ok(x) => Ok(scores + [x])
  }

  /**
   * A finished scan holds each entry's score at that entry's position; a
   * failed one raises the exception of the first entry whose score raises.
   */
  lemma {:induction false} ScoreAllScores(u: Vector, vecs: seq<Vector>, norm: Vector -> real)
    ensures var r := ScoreAll(u, vecs, norm);
            && (r.Ok? ==> forall i :: 0 <= i < |vecs| ==> Cosine(u, vecs[i], norm) == Ok(r.value[i]))
            && (r.Err? ==> exists i :: 0 <= i < |vecs| && Cosine(u, vecs[i], norm) == Err(r.error)
                                       && forall j :: 0 <= j < i ==> Cosine(u, vecs[j], norm).Ok?)
  {
    if vecs != [] {
      var n := |vecs| - 1;
      var front := vecs[..n];
      assert forall j :: 0 <= j < n ==> front[j] == vecs[j];
      ScoreAllScores(u, front, norm);
      var r := ScoreAll(u, vecs, norm);
      if ScoreAll(u, front, norm).Err? {
        var i :| 0 <= i < n && Cosine(u, front[i], norm) == Err(r.error)
                 && forall j :: 0 <= j < i ==> Cosine(u, front[j], norm).Ok?;
        assert Cosine(u, vecs[i], norm) == Err(r.error);
      } else if r.Err? {
        assert Cosine(u, vecs[n], norm) == Err(r.error);
      } else {
        assert r.value == ScoreAll(u, front, norm).value + [r.value[n]];
      }
    }
  }

  /** The running best of the scan: its score and, once one was taken, the entry's index. */
  datatype Best = Best(score: real, index: Option<nat>)

  /** Index `i` holds a positive score that no entry exceeds and no earlier entry reaches. */
  predicate IsFirstBest(scores: seq<real>, i: nat)
  {
    && i < |scores|
    && scores[i] > 0.0
    && (forall j :: 0 <= j < |scores| ==> scores[j] <= scores[i])
    && (forall j :: 0 <= j < i ==> scores[j] < scores[i])
  }

  /**
   * The scan of `check`: start from score 0.0 and no entry, take an entry
   * whenever its score is strictly greater than the best so far.
   */
  function BestOf(scores: seq<real>): (b: Best)
    ensures b.score >= 0.0
    ensures b.index.None? ==> b.score == 0.0 && forall j :: 0 <= j < |scores| ==> scores[j] <= 0.0
    ensures b.index.Some? ==> IsFirstBest(scores, b.index.value) && b.score == scores[b.index.value]
  {
    if scores == [] then Best(0.0, None)
    else
      var front := scores[..|scores| - 1];
      assert forall j :: 0 <= j < |front| ==> front[j] == scores[j];
      var b := BestOf(front);
      var x := scores[|scores| - 1];
      if x > b.score then Best(x, Some(|scores| - 1)) else b
  }

  /** Scoring one more entry of `vecs`. */
  lemma ScoreAllStep(u: Vector, vecs: seq<Vector>, i: nat, norm: Vector -> real)
    requires i < |vecs| && ScoreAll(u, vecs[..i], norm).Ok?
    ensures ScoreAll(u, vecs[..i + 1], norm)
            == match Cosine(u, vecs[i], norm)
               case Err(e) => Err(e)
               case Ok(x) => Ok(ScoreAll(u, vecs[..i], norm).value + [x])
  {
    assert vecs[..i + 1][..i] == vecs[..i];
  }

  /** Once a prefix of the scan raises, the whole scan raises the same exception. */
  lemma {:induction false} ScoreAllStops(u: Vector, vecs: seq<Vector>, i: nat, norm: Vector -> real)
    requires i <= |vecs| && ScoreAll(u, vecs[..i], norm).Err?
    ensures ScoreAll(u, vecs, norm) == ScoreAll(u, vecs[..i], norm)
    decreases |vecs| - i
  {
    if i < |vecs| {
      assert vecs[..i + 1][..i] == vecs[..i];
      ScoreAllStepFails(u, vecs[..i + 1], i, norm);
      ScoreAllStops(u, vecs, i + 1, norm);
    } else {
      assert vecs[..i] == vecs;
    }
  }

  /** Scoring one more entry after a prefix that raised: the prefix's exception stands. */
  lemma ScoreAllStepFails(u: Vector, vecs: seq<Vector>, i: nat, norm: Vector -> real)
    requires |vecs| == i + 1 && ScoreAll(u, vecs[..i], norm).Err?
    ensures ScoreAll(u, vecs, norm) == ScoreAll(u, vecs[..i], norm)
  {
  }

  /** Scanning one more score. */
  lemma BestOfStep(scores: seq<real>, x: real)
    ensures BestOf(scores + [x])
            == if x > BestOf(scores).score then Best(x, Some(|scores|)) else BestOf(scores)
  {
    assert (scores + [x])[..|scores|] == scores;
  }

  /** The answer of the entry the scan chose, if any. */
  function AnswerOf(data: seq<FaqEntry>, index: Option<nat>): Option<string>
  {
    if index.Some? && index.value < |data| then Some(data[index.value].answer) else None
  }

  /** `user_question.lower().strip()` */
  function Normalize(question: string): string
  {
    Strip(Lower(question))
  }

  /**
   * The scan and threshold of `check` once the question has been embedded
   * as `u`: the first entry with the greatest positive score over the
   * entries both lists have, accepted when that score reaches the threshold.
   */
  function Lookup(data: seq<FaqEntry>, vecs: seq<Vector>, u: Vector, norm: Vector -> real): Result<Option<Hit>>
  {
    var n := Min(|data|, |vecs|);
    match ScoreAll(u, vecs[..n], norm)
    case Err(e) => Err(e)
    case Ok(scores) =>
      var b := BestOf(scores);
      if b.score >= FaqThreshold then Ok(Some(Hit(data[b.index.value].answer, b.score)))
      else Ok(None)
  }

  /**
   * What `check(question)` returns for a table `data` with vectors `vecs`:
   * `Ok(None)` for None, `Ok(Some(hit))` for the tuple, `Err` when the
   * embedder or a score raises.
   */
  function Match(data: seq<FaqEntry>, vecs: seq<Vector>, question: string,
                 embed: string -> Result<Vector>, norm: Vector -> real): Result<Option<Hit>>
  {
    if data == [] || vecs == [] then Ok(None)
    else
      var uq := Normalize(question);
      if |Split(uq)| > MaxQuestionWords then Ok(None)
      else
        match embed(uq)
        case Err(e) => Err(e)
        case Ok(u) => Lookup(data, vecs, u, norm)
  }

  /** A question of more than twelve words, as typed, is never looked up. */
  lemma MatchRejectsLong(data: seq<FaqEntry>, vecs: seq<Vector>, question: string,
                         embed: string -> Result<Vector>, norm: Vector -> real)
    requires |Split(question)| > MaxQuestionWords
    ensures Match(data, vecs, question, embed, norm) == Ok(None)
  {
    WordCountNormalized(question);
  }

  /** A question of at most twelve words, as typed, is embedded and scanned. */
  lemma MatchShort(data: seq<FaqEntry>, vecs: seq<Vector>, question: string,
                   embed: string -> Result<Vector>, norm: Vector -> real)
    requires data != [] && vecs != [] && |Split(question)| <= MaxQuestionWords
    ensures Match(data, vecs, question, embed, norm)
            == match embed(Normalize(question))
               case Err(e) => Err(e)
               case Ok(u) => Lookup(data, vecs, u, norm)
  {
    WordCountNormalized(question);
  }

  /**
   * A scan that scores every entry gives a hit exactly when some scanned
   * entry scores at least the threshold, and then the hit is the answer and
   * score of the first entry with the greatest score.
   */
  lemma LookupScan(data: seq<FaqEntry>, vecs: seq<Vector>, u: Vector, norm: Vector -> real, scores: seq<real>)
    requires ScoreAll(u, vecs[..Min(|data|, |vecs|)], norm) == Ok(scores)
    ensures var r := Lookup(data, vecs, u, norm);
            && r.Ok?
            && (r.value.Some? <==> exists i :: 0 <= i < |scores| && scores[i] >= FaqThreshold)
            && (r.value.Some? ==> exists i :: 0 <= i < |data| && IsFirstBest(scores, i)
                                             && r.value.value == Hit(data[i].answer, scores[i]))
  {
    var n := Min(|data|, |vecs|);
    var b := BestOf(scores);
    assert |scores| == n;
    var r := Lookup(data, vecs, u, norm);
    if b.score >= FaqThreshold {
      var i := b.index.value;
      assert IsFirstBest(scores, i);
      assert r == Ok(Some(Hit(data[i].answer, scores[i])));
    } else {
      assert r == Ok(None);
      assert forall j :: 0 <= j < |scores| ==> scores[j] < FaqThreshold;
    }
  }

  /**
   * Any hit carries a score of at least the threshold that no scanned
   * entry beats, and the answer of an entry in the scanned range.
   */
  lemma LookupHit(data: seq<FaqEntry>, vecs: seq<Vector>, u: Vector, norm: Vector -> real, h: Hit)
    requires Lookup(data, vecs, u, norm) == Ok(Some(h))
    ensures h.score >= FaqThreshold
    ensures exists i :: 0 <= i < Min(|data|, |vecs|) && h.answer == data[i].answer
                        && Cosine(u, vecs[i], norm) == Ok(h.score)
                        && (forall j :: 0 <= j < i ==> Cosine(u, vecs[j], norm).Ok? && Cosine(u, vecs[j], norm).value < h.score)
                        && forall j :: 0 <= j < Min(|data|, |vecs|) ==>
                             Cosine(u, vecs[j], norm).Ok? && Cosine(u, vecs[j], norm).value <= h.score
  {
    var n := Min(|data|, |vecs|);
    var scores := ScoreAll(u, vecs[..n], norm).value;
    ScoreAllScores(u, vecs[..n], norm);
    var i := BestOf(scores).index.value;
    assert IsFirstBest(scores, i);
    assert forall j :: 0 <= j < n ==> vecs[..n][j] == vecs[j];
  }

  /** Entries past the end of the shorter of the two lists are never consulted. */
  lemma MatchZip(data: seq<FaqEntry>, vecs: seq<Vector>, question: string,
                 embed: string -> Result<Vector>, norm: Vector -> real)
    ensures var n := Min(|data|, |vecs|);
            Match(data, vecs, question, embed, norm) == Match(data[..n], vecs[..n], question, embed, norm)
  {
    var n := Min(|data|, |vecs|);
    assert vecs[..n][..n] == vecs[..n];
    assert forall u :: Lookup(data, vecs, u, norm) == Lookup(data[..n], vecs[..n], u, norm);
  }

  // ---------------------------------------------------------------------------
  // Building the vector list

  /** `[faq["question"] for faq in faq_data]` */
  function Questions(data: seq<FaqEntry>): (qs: seq<string>)
    ensures |qs| == |data| && forall i :: 0 <= i < |data| ==> qs[i] == data[i].question
  {
    seq(|data|, i requires 0 <= i < |data| => data[i].question)
  }

  /** `embed_documents(texts)`: one vector per text, in order, or the first failure. */
  function EmbedDocuments(texts: seq<string>, embed: string -> Result<Vector>): (r: Result<seq<Vector>>)
    ensures r.Ok? ==> |r.value| == |texts|
                      && forall i :: 0 <= i < |texts| ==> embed(texts[i]) == Ok(r.value[i])
    ensures r.Err? ==> exists i :: 0 <= i < |texts| && embed(texts[i]) == Err(r.error)
                                   && forall j :: 0 <= j < i ==> embed(texts[j]).Ok?
  {
    if texts == [] then Ok([])
    else
      var front := texts[..|texts| - 1];
      assert forall j :: 0 <= j < |front| ==> front[j] == texts[j];
      match EmbedDocuments(front, embed)
      case Err(e) => Err(e)
      case Ok(vs) =>
        match embed(texts[|texts| - 1])
        case Err(e) => Err(e)
        case Ok(v) => Ok(vs + [v])
  }

  /** The vectors served, and the cache file's contents afterwards. */
  datatype VectorLoad = VectorLoad(vectors: seq<Vector>, cacheFile: Option<seq<Vector>>)

  /**
   * `_load_or_create_vectors`: an existing cache file is served as it is,
   * whatever its length; otherwise the questions are embedded in table
   * order and the result written to the cache, except for an empty table,
   * which gives no vectors and writes nothing.
   */
  function LoadOrCreateVectors(data: seq<FaqEntry>, cacheFile: Option<seq<Vector>>,
                               embed: string -> Result<Vector>): (r: Result<VectorLoad>)
    ensures cacheFile.Some? ==> r == Ok(VectorLoad(cacheFile.value, cacheFile))
    ensures cacheFile.None? && data == [] ==> r == Ok(VectorLoad([], None))
    ensures cacheFile.None? && r.Ok? ==>
              && |r.value.vectors| == |data|
              && (forall i :: 0 <= i < |data| ==> embed(data[i].question) == Ok(r.value.vectors[i]))
              && r.value.cacheFile == (if data == [] then None else Some(r.value.vectors))
    ensures r.Err? ==> cacheFile.None? && exists i :: 0 <= i < |data| && embed(data[i].question) == Err(r.error)
  {
    if cacheFile.Some? then Ok(VectorLoad(cacheFile.value, cacheFile))
    else
      var questions := Questions(data);
      if questions == [] then Ok(VectorLoad([], None))
      else
        match EmbedDocuments(questions, embed)
        case Err(e) => Err(e)
        case Ok(vectors) => Ok(VectorLoad(vectors, Some(vectors)))
  }

  /** Once vectors are built, a later start serves the same vectors without embedding anything. */
  lemma CacheRoundTrip(data: seq<FaqEntry>, cacheFile: Option<seq<Vector>>,
                       embed: string -> Result<Vector>, laterEmbed: string -> Result<Vector>)
    requires LoadOrCreateVectors(data, cacheFile, embed).Ok?
    ensures var v := LoadOrCreateVectors(data, cacheFile, embed).value;
            LoadOrCreateVectors(data, v.cacheFile, laterEmbed).Ok?
            && LoadOrCreateVectors(data, v.cacheFile, laterEmbed).value.vectors == v.vectors
  {
  }

  /** `_load_faq_data`: a missing table file reads as an empty table. */
  function LoadFaqData(tableFile: Option<seq<FaqEntry>>): seq<FaqEntry>
  {
    if tableFile.Some? then tableFile.value else []
  }

  // ---------------------------------------------------------------------------
  // The service

  class FaqService {
    const embed: string -> Result<Vector>
    const norm: Vector -> real
    const faqData: seq<FaqEntry>
    const faqVectors: seq<Vector>

    constructor (embed: string -> Result<Vector>, norm: Vector -> real,
                 faqData: seq<FaqEntry>, faqVectors: seq<Vector>)
      ensures this.embed == embed && this.norm == norm
      ensures this.faqData == faqData && this.faqVectors == faqVectors
    {
      this.embed := embed;
      this.norm := norm;
      this.faqData := faqData;
      this.faqVectors := faqVectors;
    }

    /**
     * `FAQService(embeddings)`: read the table, then load or build its
     * vectors.  A failing embedder makes construction raise and leaves the
     * cache file as it was.
     */
    static method Open(embed: string -> Result<Vector>, norm: Vector -> real,
                       tableFile: Option<seq<FaqEntry>>, cacheFile: Option<seq<Vector>>)
      returns (r: Result<FaqService>, cacheAfter: Option<seq<Vector>>)
      ensures var load := LoadOrCreateVectors(LoadFaqData(tableFile), cacheFile, embed);
              && (load.Err? ==> r == Err(load.error) && cacheAfter == cacheFile)
              && (load.Ok? ==> && r.Ok?
                               && r.value.embed == embed && r.value.norm == norm
                               && r.value.faqData == LoadFaqData(tableFile)
                               && r.value.faqVectors == load.value.vectors
                               && cacheAfter == load.value.cacheFile)
    {
      var data := LoadFaqData(tableFile);
      var load := LoadOrCreateVectors(data, cacheFile, embed);
      if load.Err? {
        return Err(load.error), cacheFile;
      }
      var service := new FaqService(embed, norm, data, load.value.vectors);
      return Ok(service), load.value.cacheFile;
    }

    /** `check(user_question)` */
    method Check(question: string) returns (r: Result<Option<Hit>>)
      ensures r == Match(faqData, faqVectors, question, embed, norm)
      ensures faqData == [] || faqVectors == [] ==> r == Ok(None)
      ensures |Split(question)| > MaxQuestionWords ==> r == Ok(None)
    {
      if faqData == [] || faqVectors == [] {
        return Ok(None);
      }
      var uq := Normalize(question);
      WordCountNormalized(question);
      if |Split(uq)| > MaxQuestionWords {
        return Ok(None);
      }
      MatchShort(faqData, faqVectors, question, embed, norm);
      var query := embed(uq);
      if query.Err? {
        return Err(query.error);
      }
      var userVec := query.value;
      r := ScanTable(userVec);
    }

    /** The loop of `check`: `best_score` and `best_answer` over the zipped table. */
    method ScanTable(userVec: Vector) returns (r: Result<Option<Hit>>)
      ensures r == Lookup(faqData, faqVectors, userVec, norm)
    {
      var bestScore := 0.0;
      var bestAnswer: Option<string> := None;
      var n := Min(|faqData|, |faqVectors|);
      ghost var scores: seq<real> := [];
      var i := 0;
      assert faqVectors[..0] == [];
      while i < n
        invariant 0 <= i <= n
        invariant ScoreAll(userVec, faqVectors[..i], norm) == Ok(scores)
        invariant bestScore == BestOf(scores).score
        invariant bestAnswer == AnswerOf(faqData, BestOf(scores).index)
      {
        ScoreAllStep(userVec, faqVectors, i, norm);
        var score := Cosine(userVec, faqVectors[i], norm);
        if score.Err? {
          ScoreAllStops(userVec, faqVectors[..n], i + 1, norm);
          assert faqVectors[..n][..i + 1] == faqVectors[..i + 1];
          return Err(score.error);
        }
        BestOfStep(scores, score.value);
        if score.value > bestScore {
          bestScore := score.value;
          bestAnswer := Some(faqData[i].answer);
        }
        scores := scores + [score.value];
        i := i + 1;
      }
      if bestScore >= FaqThreshold {
        return Ok(Some(Hit(bestAnswer.value, bestScore)));
      }
      return Ok(None);
    }
  }
}
