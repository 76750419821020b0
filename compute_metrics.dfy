/** Contrast-set evaluation: per-instance exact match and F1 against gold answers, grouping of
    original and perturbed records into contrast sets, pooled means and consistency. */
module ComputeMetrics {
  import opened Results
  import opened Seqs
  import opened OrderedDict
  import opened PyStrings
  import opened Stats
  import opened Records

  /** A gold file: the nested dataset layout (a JSON object with "data") or a flat dict from
      query id to candidate answers. */
  datatype Annotations = Nested(data: seq<Article>) | Flat(gold: Dict<string, seq<string>>)

  // ----- Grouping into contrast sets -----

  /** The `original_id` values of the records, in visiting order. */
  function OriginalIds(qas: seq<QA>): seq<string>
  {
    if qas == [] then []
    else
      var rest := OriginalIds(qas[..|qas| - 1]);
      match qas[|qas| - 1].originalId
      case Some(o) => rest + [o]
      case None => rest
  }

  /** The ids of the records whose `original_id` is `k`. */
  function LinkedIds(qas: seq<QA>, k: string): set<string>
  {
    if qas == [] then {}
    else
      var last := qas[|qas| - 1];
      LinkedIds(qas[..|qas| - 1], k) + if last.originalId == Some(k) then {last.id} else {}
  }

  /** The contrast set of original `k`: `k` itself and every record that names it as its original. */
  function ContrastSet(qas: seq<QA>, k: string): set<string>
  {
    {k} + LinkedIds(qas, k)
  }

  /** `k` is an original id exactly when some record names it. */
  lemma {:induction false} OriginalIdsMembers(qas: seq<QA>, k: string)
    ensures k in OriginalIds(qas) <==> exists i :: 0 <= i < |qas| && qas[i].originalId == Some(k)
  {
    if qas != [] {
      var init := qas[..|qas| - 1];
      OriginalIdsMembers(init, k);
      assert forall i :: 0 <= i < |init| ==> init[i] == qas[i];
    }
  }

  /** The records linked to `k` are exactly those whose `original_id` is `k`. */
  lemma {:induction false} LinkedIdsMembers(qas: seq<QA>, k: string, x: string)
    ensures x in LinkedIds(qas, k) <==> exists i :: 0 <= i < |qas| && qas[i].originalId == Some(k) && qas[i].id == x
  {
    if qas != [] {
      var init := qas[..|qas| - 1];
      LinkedIdsMembers(init, k, x);
      assert forall i :: 0 <= i < |init| ==> init[i] == qas[i];
    }
  }

  /** Every visited record lies, with its original, in the contrast set of its original, and
      that set is listed. */
  lemma ContrastSetsCoverRecords(qas: seq<QA>, i: nat)
    requires i < |qas| && qas[i].originalId.Some?
    ensures qas[i].originalId.value in Dedup(OriginalIds(qas))
    ensures qas[i].id in ContrastSet(qas, qas[i].originalId.value)
    ensures qas[i].originalId.value in ContrastSet(qas, qas[i].originalId.value)
  {
    OriginalIdsMembers(qas, qas[i].originalId.value);
    LinkedIdsMembers(qas, qas[i].originalId.value, qas[i].id);
  }

  /** Every record visited so far carries an `original_id`. */
  ghost predicate AllLinked(done: seq<QA>)
  {
    forall n :: 0 <= n < |done| ==> done[n].originalId.Some?
  }

  /** An unlinked record anywhere among some paragraphs' records lies in one of the paragraphs. */
  lemma LinkedParagraph(ps: seq<Paragraph>, j: nat)
    requires j < |ps| && AllLinked(QasOfParagraphs(ps))
    ensures AllLinked(ps[j].qas)
  {
    forall k | 0 <= k < |ps[j].qas|
      ensures ps[j].qas[k].originalId.Some?
    {
      InQasOfParagraphs(ps, j, k);
    }
  }

  /** An unlinked record anywhere in the data lies in one of the articles. */
  lemma LinkedArticle(articles: seq<Article>, i: nat)
    requires i < |articles| && AllLinked(QasOfArticles(articles))
    ensures AllLinked(QasOfParagraphs(articles[i].paragraphs))
  {
    forall j, k | 0 <= j < |articles[i].paragraphs| && 0 <= k < |articles[i].paragraphs[j].qas|
      ensures articles[i].paragraphs[j].qas[k].originalId.Some?
    {
      InQasOfArticles(articles, i, j, k);
    }
    forall j | 0 <= j < |articles[i].paragraphs|
      ensures AllLinked(articles[i].paragraphs[j].qas)
    {
    }
    AllLinkedOfParagraphs(articles[i].paragraphs);
  }

  /** The records of some paragraphs are all linked when those of each paragraph are. */
  lemma {:induction false} AllLinkedOfParagraphs(ps: seq<Paragraph>)
    requires forall j :: 0 <= j < |ps| ==> AllLinked(ps[j].qas)
    ensures AllLinked(QasOfParagraphs(ps))
  {
    if ps != [] {
      AllLinkedOfParagraphs(ps[..|ps| - 1]);
      AllLinkedConcat(QasOfParagraphs(ps[..|ps| - 1]), ps[|ps| - 1].qas);
    }
  }

  lemma AllLinkedConcat(a: seq<QA>, b: seq<QA>)
    ensures AllLinked(a + b) <==> AllLinked(a) && AllLinked(b)
  {
    forall n | 0 <= n < |a| ensures (a + b)[n] == a[n] { }
    forall n | 0 <= n < |b| ensures (a + b)[|a| + n] == b[n] { }
  }

  /** `sets` lists the contrast sets of the distinct original ids of `qas`, in first-seen order;
      none of them is empty. */
  ghost predicate AreContrastSets(sets: seq<set<string>>, qas: seq<QA>)
  {
    var originals := Dedup(OriginalIds(qas));
    && |sets| == |originals|
    && forall i :: 0 <= i < |sets| ==> sets[i] == ContrastSet(qas, originals[i]) && |sets[i]| > 0
  }

  /** The state of the grouping loop after visiting `done`: one set per original id, in
      first-seen order, each the contrast set of its key. */
  ghost predicate Grouped(grouped: Dict<string, set<string>>, done: seq<QA>)
  {
    && Valid(grouped)
    && grouped.keys == Dedup(OriginalIds(done))
    && forall k :: k in grouped.entries ==> grouped.entries[k] == ContrastSet(done, k)
  }

  /** At the end of the walk the values of the grouping dict are the contrast sets. */
  lemma GroupedAreContrastSets(grouped: Dict<string, set<string>>, qas: seq<QA>)
    requires Grouped(grouped, qas)
    ensures AreContrastSets(Values(grouped), qas)
  {
    var sets := Values(grouped);
    forall i | 0 <= i < |sets|
      ensures sets[i] == ContrastSet(qas, grouped.keys[i]) && |sets[i]| > 0
    {
      assert grouped.keys[i] in sets[i];
    }
  }

  /** Appending a record adds its id to the set of its own original only. */
  lemma ContrastSetStep(done: seq<QA>, q: QA, k: string)
    ensures ContrastSet(done + [q], k) == ContrastSet(done, k) + if q.originalId == Some(k) then {q.id} else {}
  {
    assert (done + [q])[..|done|] == done;
  }

  /** An original id not seen so far has nothing linked to it. */
  lemma UnseenHasNoLinks(done: seq<QA>, o: string)
    requires o !in OriginalIds(done)
    ensures LinkedIds(done, o) == {}
  {
    if x :| x in LinkedIds(done, o) {
      LinkedIdsMembers(done, o, x);
      OriginalIdsMembers(done, o);
    }
  }

  /** A linked record adds its original to the list of originals. */
  lemma OriginalIdsStep(done: seq<QA>, q: QA)
    requires q.originalId.Some?
    ensures OriginalIds(done + [q]) == OriginalIds(done) + [q.originalId.value]
  {
    assert (done + [q])[..|done|] == done;
  }

  /** The set stored for the original of `q` after the update is its contrast set. */
  lemma GroupedEntryStep(grouped: Dict<string, set<string>>, done: seq<QA>, q: QA)
    requires Grouped(grouped, done) && q.originalId.Some?
    ensures
      var o := q.originalId.value;
      var members := if o in grouped.entries then grouped.entries[o] else {};
      members + {o} + {q.id} == ContrastSet(done + [q], o)
  {
    var o := q.originalId.value;
    if o !in grouped.entries {
      UnseenHasNoLinks(done, o);
    }
    ContrastSetStep(done, q, o);
  }

  /** One step of the grouping loop keeps `Grouped`. */
  lemma GroupedStep(grouped: Dict<string, set<string>>, done: seq<QA>, q: QA)
    requires Grouped(grouped, done) && q.originalId.Some?
    ensures
      var o := q.originalId.value;
      var members := if o in grouped.entries then grouped.entries[o] else {};
      Grouped(Put(grouped, o, members + {o} + {q.id}), done + [q])
  {
    GroupedKeysStep(grouped, done, q);
    GroupedEntriesStep(grouped, done, q);
  }

  lemma GroupedKeysStep(grouped: Dict<string, set<string>>, done: seq<QA>, q: QA)
    requires Grouped(grouped, done) && q.originalId.Some?
    ensures
      var o := q.originalId.value;
      var members := if o in grouped.entries then grouped.entries[o] else {};
      Put(grouped, o, members + {o} + {q.id}).keys == Dedup(OriginalIds(done + [q]))
  {
    OriginalIdsStep(done, q);
    DedupStep(OriginalIds(done), q.originalId.value);
  }

  lemma GroupedEntriesStep(grouped: Dict<string, set<string>>, done: seq<QA>, q: QA)
    requires Grouped(grouped, done) && q.originalId.Some?
    ensures
      var o := q.originalId.value;
      var members := if o in grouped.entries then grouped.entries[o] else {};
      var grouped' := Put(grouped, o, members + {o} + {q.id});
      forall k :: k in grouped'.entries ==> grouped'.entries[k] == ContrastSet(done + [q], k)
  {
    var o := q.originalId.value;
    var members := if o in grouped.entries then grouped.entries[o] else {};
    var grouped' := Put(grouped, o, members + {o} + {q.id});
    GroupedEntryStep(grouped, done, q);
    forall k | k in grouped'.entries
      ensures grouped'.entries[k] == ContrastSet(done + [q], k)
    {
      if k != o {
        ContrastSetStep(done, q, k);
      }
    }
  }

  /** The state of the innermost grouping loop after the first `k` records of a paragraph:
      all of them are linked and have joined their sets. */
  ghost predicate GroupedUpTo(grouped: Dict<string, set<string>>, before: seq<QA>, qas: seq<QA>, k: nat)
    requires k <= |qas|
  {
    AllLinked(qas[..k]) && Grouped(grouped, before + qas[..k])
  }

  /** Lines 19 to 22 for record `k`: it and its original join its original's set, or the walk
      stops at a record without `original_id`. */
  method GroupRecord(grouped: Dict<string, set<string>>, ghost before: seq<QA>, qas: seq<QA>, k: nat)
    returns (grouped': Dict<string, set<string>>, linked: bool)
    requires k < |qas| && GroupedUpTo(grouped, before, qas, k)
    ensures linked <==> qas[k].originalId.Some?
    ensures !linked ==> !AllLinked(qas)
    ensures linked ==> GroupedUpTo(grouped', before, qas, k + 1)
  {
    var q := qas[k];
    if q.originalId.None? {
      assert !AllLinked(qas) by {
        assert qas[k].originalId.None?;
      }
      return grouped, false;
    }
    PrefixStep(qas, k);
    JoinStep(before, qas, k);
    AllLinkedConcat(qas[..k], [q]);
    var queryId := q.id;
    var originalQueryId := q.originalId.value;
    var members := if originalQueryId in grouped.entries then grouped.entries[originalQueryId] else {};
    GroupedStep(grouped, before + qas[..k], q);
    grouped' := Put(grouped, originalQueryId, members + {originalQueryId} + {queryId});
    linked := true;
  }

  /** The innermost loop of `_get_contrast_sets`: the records of one paragraph join the sets
      of their originals; `linked` is false when one of them has no `original_id`. */
  method GroupRecords(grouped: Dict<string, set<string>>, ghost before: seq<QA>, qas: seq<QA>)
    returns (grouped': Dict<string, set<string>>, linked: bool)
    requires Grouped(grouped, before)
    ensures linked <==> AllLinked(qas)
    ensures linked ==> Grouped(grouped', before + qas)
  {
    grouped' := grouped;
    var k := 0;
    assert before + qas[..k] == before;
    while k < |qas|
      invariant 0 <= k <= |qas|
      invariant GroupedUpTo(grouped', before, qas, k)
    {
      grouped', linked := GroupRecord(grouped', before, qas, k);
      if !linked {
        return;
      }
      k := k + 1;
    }
    assert qas[..k] == qas;
    linked := true;
  }

  /** The loop of `_get_contrast_sets` over the paragraphs of one article. */
  method GroupParagraphs(grouped: Dict<string, set<string>>, ghost before: seq<QA>, paragraphs: seq<Paragraph>)
    returns (grouped': Dict<string, set<string>>, linked: bool)
    requires Grouped(grouped, before)
    ensures linked <==> AllLinked(QasOfParagraphs(paragraphs))
    ensures linked ==> Grouped(grouped', before + QasOfParagraphs(paragraphs))
  {
    grouped' := grouped;
    var j := 0;
    assert paragraphs[..j] == [];
    assert before + QasOfParagraphs(paragraphs[..j]) == before;
    while j < |paragraphs|
      invariant 0 <= j <= |paragraphs|
      invariant AllLinked(QasOfParagraphs(paragraphs[..j]))
      invariant Grouped(grouped', before + QasOfParagraphs(paragraphs[..j]))
    {
      var ok;
      grouped', ok := GroupRecords(grouped', before + QasOfParagraphs(paragraphs[..j]), paragraphs[j].qas);
      if !ok {
        if AllLinked(QasOfParagraphs(paragraphs)) {
          LinkedParagraph(paragraphs, j);
        }
        return grouped', false;
      }
      QasOfParagraphsStep(paragraphs, j);
      AllLinkedConcat(QasOfParagraphs(paragraphs[..j]), paragraphs[j].qas);
      assert before + QasOfParagraphs(paragraphs[..j + 1])
          == before + QasOfParagraphs(paragraphs[..j]) + paragraphs[j].qas;
      j := j + 1;
    }
    assert paragraphs[..j] == paragraphs;
    linked := true;
  }

  /** `_get_contrast_sets`: the contrast sets of a perturbed gold file, one per distinct
      `original_id`, in first-seen order.  A flat file has no "data" and a record without
      `original_id` stops the walk; both raise KeyError. */
  method GetContrastSets(annotations: Annotations) returns (r: Result<seq<set<string>>>)
    ensures annotations.Flat? ==> r == Failure(KeyError("data"))
    ensures annotations.Nested? ==> (r.Success? <==> AllLinked(QasOfArticles(annotations.data)))
    ensures annotations.Nested? && r.Failure? ==> r.error == KeyError("original_id")
    ensures r.Success? ==> annotations.Nested? && AreContrastSets(r.value, QasOfArticles(annotations.data))
  {
    if annotations.Flat? {
      return Failure(KeyError("data"));
    }
    var data := annotations.data;
    var grouped: Dict<string, set<string>> := Empty();
    var i := 0;
    assert data[..i] == [];
    while i < |data|
      invariant 0 <= i <= |data|
      invariant AllLinked(QasOfArticles(data[..i]))
      invariant Grouped(grouped, QasOfArticles(data[..i]))
    {
      var ok;
      grouped, ok := GroupParagraphs(grouped, QasOfArticles(data[..i]), data[i].paragraphs);
      if !ok {
        if AllLinked(QasOfArticles(data)) {
          LinkedArticle(data, i);
        }
        return Failure(KeyError("original_id"));
      }
      QasOfArticlesStep(data, i);
      AllLinkedConcat(QasOfArticles(data[..i]), QasOfParagraphs(data[i].paragraphs));
      i := i + 1;
    }
    assert data[..i] == data;
    r := Success(Values(grouped));
    GroupedAreContrastSets(grouped, QasOfArticles(data));
  }

  // ----- Gold answers of the nested layout -----

  /** The ids of the records, in visiting order. */
  function Ids(qas: seq<QA>): seq<string>
  {
    if qas == [] then [] else Ids(qas[..|qas| - 1]) + [qas[|qas| - 1].id]
  }

  /** The answer texts of the last record whose id is `k`, if any: a later record with the
      same id overwrites an earlier one. */
  function LastAnswers(qas: seq<QA>, k: string): Option<seq<string>>
  {
    if qas == [] then None
    else if qas[|qas| - 1].id == k then Some(Texts(qas[|qas| - 1].answers))
    else LastAnswers(qas[..|qas| - 1], k)
  }

  /** Some record has id `k` exactly when `k` has answers. */
  lemma {:induction false} LastAnswersDefined(qas: seq<QA>, k: string)
    ensures LastAnswers(qas, k).Some? <==> k in Ids(qas)
  {
    if qas != [] {
      LastAnswersDefined(qas[..|qas| - 1], k);
    }
  }

  /** The answers of `k` are those of the last record with that id. */
  lemma {:induction false} LastAnswersOfLastRecord(qas: seq<QA>, i: nat)
    requires i < |qas|
    requires forall j :: i < j < |qas| ==> qas[j].id != qas[i].id
    ensures LastAnswers(qas, qas[i].id) == Some(Texts(qas[i].answers))
  {
    if i < |qas| - 1 {
      var init := qas[..|qas| - 1];
      assert forall j :: i < j < |init| ==> init[j] == qas[j];
      LastAnswersOfLastRecord(init, i);
    }
  }

  /** The state of the collecting loop after visiting `done`. */
  ghost predicate Collected(answers: Dict<string, seq<string>>, done: seq<QA>)
  {
    && Valid(answers)
    && answers.keys == Dedup(Ids(done))
    && forall k :: k in answers.entries ==> LastAnswers(done, k) == Some(answers.entries[k])
  }

  /** One record more adds its id. */
  lemma IdsStep(done: seq<QA>, q: QA)
    ensures Ids(done + [q]) == Ids(done) + [q.id]
  {
    assert (done + [q])[..|done|] == done;
  }

  /** One record more gives its own id its answers and leaves the other ids alone. */
  lemma LastAnswersStep(done: seq<QA>, q: QA, k: string)
    ensures LastAnswers(done + [q], k) == if k == q.id then Some(Texts(q.answers)) else LastAnswers(done, k)
  {
    assert (done + [q])[..|done|] == done;
  }

  /** One step of the collecting loop keeps `Collected`. */
  lemma CollectedStep(answers: Dict<string, seq<string>>, done: seq<QA>, q: QA)
    requires Collected(answers, done)
    ensures Collected(Put(answers, q.id, Texts(q.answers)), done + [q])
  {
    var answers' := Put(answers, q.id, Texts(q.answers));
    IdsStep(done, q);
    DedupStep(Ids(done), q.id);
    forall k | k in answers'.entries
      ensures LastAnswers(done + [q], k) == Some(answers'.entries[k])
    {
      LastAnswersStep(done, q, k);
    }
  }

  /** The innermost loop of `_get_answers_from_data`: the records of one paragraph. */
  method CollectRecords(answers: Dict<string, seq<string>>, ghost before: seq<QA>, qas: seq<QA>)
    returns (answers': Dict<string, seq<string>>)
    requires Collected(answers, before)
    ensures Collected(answers', before + qas)
  {
    answers' := answers;
    ghost var done := before;
    var k := 0;
    while k < |qas|
      invariant 0 <= k <= |qas|
      invariant done == before + qas[..k]
      invariant Collected(answers', done)
    {
      JoinStep(before, qas, k);
      var queryId := qas[k].id;
      var candidateAnswers := Texts(qas[k].answers);
      CollectedStep(answers', done, qas[k]);
      answers' := Put(answers', queryId, candidateAnswers);
      done := done + [qas[k]];
      k := k + 1;
    }
    assert qas[..k] == qas;
  }

  /** The middle loop of `_get_answers_from_data`: the paragraphs of one article. */
  method CollectParagraphs(answers: Dict<string, seq<string>>, ghost before: seq<QA>, paragraphs: seq<Paragraph>)
    returns (answers': Dict<string, seq<string>>)
    requires Collected(answers, before)
    ensures Collected(answers', before + QasOfParagraphs(paragraphs))
  {
    answers' := answers;
    ghost var done := before;
    var j := 0;
    while j < |paragraphs|
      invariant 0 <= j <= |paragraphs|
      invariant done == before + QasOfParagraphs(paragraphs[..j])
      invariant Collected(answers', done)
    {
      answers' := CollectRecords(answers', done, paragraphs[j].qas);
      QasOfParagraphsStep(paragraphs, j);
      ConcatAssoc(before, QasOfParagraphs(paragraphs[..j]), paragraphs[j].qas);
      done := done + paragraphs[j].qas;
      j := j + 1;
    }
    assert paragraphs[..j] == paragraphs;
  }

  /** `_get_answers_from_data`: the answer texts of every record of a nested gold file, keyed by
      id in first-seen order, the last record winning when an id repeats. */
  method GetAnswersFromData(data: seq<Article>) returns (answers: Dict<string, seq<string>>)
    ensures Valid(answers)
    ensures answers.keys == Dedup(Ids(QasOfArticles(data)))
    ensures forall k :: k in answers.entries ==> LastAnswers(QasOfArticles(data), k) == Some(answers.entries[k])
  {
    answers := Empty();
    var i := 0;
    while i < |data|
      invariant 0 <= i <= |data|
      invariant Collected(answers, QasOfArticles(data[..i]))
    {
      answers := CollectParagraphs(answers, QasOfArticles(data[..i]), data[i].paragraphs);
      QasOfArticlesStep(data, i);
      i := i + 1;
    }
    assert data[..i] == data;
  }

  // ----- Per-instance scores -----

  /** A predicted answer: one string or a list of strings. */
  datatype Prediction = Single(text: string) | Several(texts: seq<string>)

  /** drop_eval.get_metrics: the exact-match and F1 scores of a prediction against the gold
      candidates.  Its definition is not part of this model. */
  type Metric = (Prediction, seq<string>) -> (real, real)

  /** `max(0.0, x)`: Python's `max` keeps its first argument unless the second is larger. */
  function AtLeastZero(x: real): (r: real)
    ensures r >= 0.0 && r >= x
    ensures r == x || r == 0.0
  {
    if x > 0.0 then x else 0.0
  }

  /** A flat gold file is a well-formed dict. */
  ghost predicate WellFormed(annotations: Annotations)
  {
    annotations.Flat? ==> Valid(annotations.gold)
  }

  /** The query ids of a gold file, in iteration order. */
  ghost function GoldIds(annotations: Annotations): seq<string>
  {
    match annotations
    case Nested(data) => Dedup(Ids(QasOfArticles(data)))
    case Flat(gold) => gold.keys
  }

  /** The gold candidate answers of query `k`, if the file has it. */
  ghost function GoldAnswers(annotations: Annotations, k: string): Option<seq<string>>
  {
    match annotations
    case Nested(data) => LastAnswers(QasOfArticles(data), k)
    case Flat(gold) => if k in gold.entries then Some(gold.entries[k]) else None
  }

  /** Some query that was predicted has no gold candidates, so `gold_answer[0]` fails. */
  ghost predicate PredictedWithoutGold(annotations: Annotations, predicted: map<string, Prediction>)
  {
    exists k :: k in GoldIds(annotations) && k in predicted && GoldAnswers(annotations, k) == Some([])
  }

  /** `score` is what `get_instance_metrics` records for query `k` with gold candidates `gold`:
      nothing for a missing prediction or a blank first candidate, otherwise the metric's
      scores raised to at least zero. */
  ghost predicate IsInstanceScore(score: (real, real), gold: Option<seq<string>>,
                                  predicted: map<string, Prediction>, k: string, metric: Metric)
  {
    && gold.Some?
    && if k !in predicted then score == (0.0, 0.0)
       else
         && |gold.value| > 0
         && if Strip(gold.value[0]) == "" then score == (0.0, 0.0)
            else score == (AtLeastZero(metric(predicted[k], gold.value).0),
                           AtLeastZero(metric(predicted[k], gold.value).1))
  }

  /** The body of the loop of `get_instance_metrics` for one gold query: its (exact match, F1)
      pair, or `false` where indexing an empty candidate list raises IndexError. */
  method ScoreInstance(queryId: string, candidateAnswers: seq<string>, predicted: map<string, Prediction>,
                       metric: Metric)
    returns (ok: bool, score: (real, real))
    ensures ok <==> !(queryId in predicted && candidateAnswers == [])
    ensures ok ==> IsInstanceScore(score, Some(candidateAnswers), predicted, queryId, metric)
    ensures ok ==> score.0 >= 0.0 && score.1 >= 0.0
  {
    var maxEm, maxF1 := 0.0, 0.0;
    if queryId in predicted {
      var (em, f1) := metric(predicted[queryId], candidateAnswers);
      if |candidateAnswers| == 0 {
        return false, (maxEm, maxF1);
      }
      if Strip(candidateAnswers[0]) != "" {
        maxEm, maxF1 := AtLeastZero(em), AtLeastZero(f1);
      }
    }
    return true, (maxEm, maxF1);
  }

  /** Every query in `scores` is a gold query and holds its non-negative instance score. */
  ghost predicate ScoresOf(scores: map<string, (real, real)>, gold: map<string, seq<string>>,
                           predicted: map<string, Prediction>, metric: Metric)
  {
    forall k :: k in scores ==>
      && k in gold
      && IsInstanceScore(scores[k], Some(gold[k]), predicted, k, metric)
      && scores[k].0 >= 0.0 && scores[k].1 >= 0.0
  }

  /** Recording the instance score of one more gold query keeps `ScoresOf`. */
  lemma ScoresOfPut(scores: map<string, (real, real)>, gold: map<string, seq<string>>,
                    predicted: map<string, Prediction>, metric: Metric, key: string, score: (real, real))
    requires ScoresOf(scores, gold, predicted, metric) && key in gold
    requires IsInstanceScore(score, Some(gold[key]), predicted, key, metric)
    requires score.0 >= 0.0 && score.1 >= 0.0
    ensures ScoresOf(scores[key := score], gold, predicted, metric)
  {
    var next := scores[key := score];
    forall k | k in next
      ensures && k in gold
              && IsInstanceScore(next[k], Some(gold[k]), predicted, k, metric)
              && next[k].0 >= 0.0 && next[k].1 >= 0.0
    {
      if k != key {
        assert next[k] == scores[k];
      }
    }
  }

  /** The state of the scoring loop after the first `n` gold queries. */
  ghost predicate Scored(metrics: Dict<string, (real, real)>, gold: Dict<string, seq<string>>,
                         predicted: map<string, Prediction>, metric: Metric, n: nat)
    requires Valid(gold) && n <= |gold.keys|
  {
    && Valid(metrics) && metrics.keys == gold.keys[..n]
    && ScoresOf(metrics.entries, gold.entries, predicted, metric)
    && (forall m :: 0 <= m < n && gold.keys[m] in predicted ==> gold.entries[gold.keys[m]] != [])
  }

  /** The loop of `get_instance_metrics` over the gold answers: one (exact match, F1) pair per
      gold query, in the gold dict's order.  A predicted query whose gold candidate list is
      empty raises IndexError. */
  method ScoreInstances(gold: Dict<string, seq<string>>, predicted: map<string, Prediction>, metric: Metric)
    returns (r: Result<Dict<string, (real, real)>>)
    requires Valid(gold)
    ensures r.Success? <==> forall k :: k in gold.entries && k in predicted ==> gold.entries[k] != []
    ensures r.Failure? ==> r.error == IndexError
    ensures r.Success? ==> Valid(r.value) && r.value.keys == gold.keys
    ensures r.Success? ==> forall k :: k in r.value.entries ==>
      && k in gold.entries
      && IsInstanceScore(r.value.entries[k], Some(gold.entries[k]), predicted, k, metric)
      && r.value.entries[k].0 >= 0.0 && r.value.entries[k].1 >= 0.0
  {
    var metrics: Dict<string, (real, real)> := Empty();
    var n := 0;
    while n < |gold.keys|
      invariant 0 <= n <= |gold.keys|
      invariant Scored(metrics, gold, predicted, metric, n)
    {
      var queryId := gold.keys[n];
      var ok, score := ScoreInstance(queryId, gold.entries[queryId], predicted, metric);
      if !ok {
        return Failure(IndexError);
      }
      assert queryId !in gold.keys[..n];
      ScoredStep(metrics, gold, predicted, metric, n, score);
      metrics := Put(metrics, queryId, score);
      n := n + 1;
    }
    assert gold.keys[..n] == gold.keys;
    r := Success(metrics);
  }

  /** Storing the score of the next gold query keeps `Scored`. */
  lemma ScoredStep(metrics: Dict<string, (real, real)>, gold: Dict<string, seq<string>>,
                   predicted: map<string, Prediction>, metric: Metric, n: nat, score: (real, real))
    requires Valid(gold) && n < |gold.keys| && Scored(metrics, gold, predicted, metric, n)
    requires IsInstanceScore(score, Some(gold.entries[gold.keys[n]]), predicted, gold.keys[n], metric)
    requires score.0 >= 0.0 && score.1 >= 0.0
    requires gold.keys[n] in predicted ==> gold.entries[gold.keys[n]] != []
    ensures Scored(Put(metrics, gold.keys[n], score), gold, predicted, metric, n + 1)
  {
    var key := gold.keys[n];
    assert key !in gold.keys[..n];
    assert gold.keys[..n + 1] == gold.keys[..n] + [key];
    ScoresOfPut(metrics.entries, gold.entries, predicted, metric, key, score);
  }

  /** `m` holds, in the gold file's order, the (exact match, F1) pair `get_instance_metrics`
      records for each gold query; no score is negative. */
  ghost predicate IsInstanceMetrics(m: Dict<string, (real, real)>, annotations: Annotations,
                                    predicted: map<string, Prediction>, metric: Metric)
  {
    && Valid(m) && m.keys == GoldIds(annotations)
    && forall k :: k in m.entries ==>
         && IsInstanceScore(m.entries[k], GoldAnswers(annotations, k), predicted, k, metric)
         && m.entries[k].0 >= 0.0 && m.entries[k].1 >= 0.0
  }

  /** `get_instance_metrics`: a gold file with "data" has its answers extracted first; a flat
      gold file is already a dict of candidate answers. */
  method GetInstanceMetrics(annotations: Annotations, predicted: map<string, Prediction>, metric: Metric)
    returns (r: Result<Dict<string, (real, real)>>)
    requires WellFormed(annotations)
    ensures r.Success? <==> !PredictedWithoutGold(annotations, predicted)
    ensures r.Failure? ==> r.error == IndexError
    ensures r.Success? ==> IsInstanceMetrics(r.value, annotations, predicted, metric)
  {
    var gold: Dict<string, seq<string>>;
    if annotations.Nested? {
      gold := GetAnswersFromData(annotations.data);
    } else {
      gold := annotations.gold;
    }
    assert gold.keys == GoldIds(annotations);
    assert forall k :: k in gold.entries ==> GoldAnswers(annotations, k) == Some(gold.entries[k]);
    r := ScoreInstances(gold, predicted, metric);
    if r.Failure? {
      var k :| k in gold.entries && k in predicted && gold.entries[k] == [];
      assert k in GoldIds(annotations);
    }
  }

  // ----- Aggregation over both files and the contrast sets -----

  /** `[x[0] for x in metrics.values()]` */
  function EmScores(metrics: Dict<string, (real, real)>): (r: seq<real>)
    requires Valid(metrics)
    ensures |r| == |metrics.keys|
    ensures forall i :: 0 <= i < |r| ==> r[i] == metrics.entries[metrics.keys[i]].0
  {
    seq(|metrics.keys|, i requires 0 <= i < |metrics.keys| => metrics.entries[metrics.keys[i]].0)
  }

  /** `[x[1] for x in metrics.values()]` */
  function F1Scores(metrics: Dict<string, (real, real)>): (r: seq<real>)
    requires Valid(metrics)
    ensures |r| == |metrics.keys|
    ensures forall i :: 0 <= i < |r| ==> r[i] == metrics.entries[metrics.keys[i]].1
  {
    seq(|metrics.keys|, i requires 0 <= i < |metrics.keys| => metrics.entries[metrics.keys[i]].1)
  }

  /** `{key: value for key, value in list(original.items()) + list(perturbed.items())}`: every
      query of either file, the perturbed file's scores winning for a query in both. */
  function Merged(original: Dict<string, (real, real)>, perturbed: Dict<string, (real, real)>)
    : (r: Dict<string, (real, real)>)
    requires Valid(original) && Valid(perturbed)
    ensures Valid(r)
    ensures r.entries == original.entries + perturbed.entries
  {
    FromItemsConcat(Items(original), Items(perturbed));
    FromItemsOfItems(original);
    FromItemsOfItems(perturbed);
    FromItems(Items(original) + Items(perturbed))
  }

  /** `len(set_)` of every contrast set, as integers and as the floats numpy averages. */
  function SetSizes(sets: seq<set<string>>): (r: seq<int>)
    ensures |r| == |sets|
    ensures forall i :: 0 <= i < |r| ==> r[i] == |sets[i]|
  {
    seq(|sets|, i requires 0 <= i < |sets| => |sets[i]|)
  }

  function AsReals(xs: seq<int>): (r: seq<real>)
    ensures |r| == |xs|
    ensures forall i :: 0 <= i < |r| ==> r[i] == xs[i] as real
  {
    seq(|xs|, i requires 0 <= i < |xs| => xs[i] as real)
  }

  /** `c` is the lowest exact-match score among `members`, all of which are scored. */
  ghost predicate IsSetMin(c: real, members: set<string>, all: map<string, (real, real)>)
  {
    && members <= all.Keys
    && (forall q :: q in members ==> c <= all[q].0)
    && exists q :: q in members && c == all[q].0
  }

  /** A contrast set `min` can score: it has members and every member has scores. */
  ghost predicate Scorable(members: set<string>, all: map<string, (real, real)>)
  {
    members != {} && members <= all.Keys
  }

  /** The exception scoring an unscorable set raises: KeyError for a member without scores,
      ValueError from `min([])` for an empty set. */
  ghost predicate IsSetError(e: Error, members: set<string>, all: map<string, (real, real)>)
  {
    if members == {} then e == ValueError
    else e.KeyError? && e.key in members && e.key !in all
  }

  /** `e` is the exception of the first set in `sets` that cannot be scored. */
  ghost predicate IsFirstSetError(e: Error, sets: seq<set<string>>, all: map<string, (real, real)>)
  {
    exists i :: 0 <= i < |sets| && !Scorable(sets[i], all) && IsSetError(e, sets[i], all)
      && forall j :: 0 <= j < i ==> Scorable(sets[j], all)
  }

  /** `min([all_instance_metrics[query_id][0] for query_id in set_])`: the lowest exact-match
      score in a contrast set.  The members are read in the set's iteration order, which is
      left open here, so a set with several unscored members may report any one of them. */
  method Consistency(members: set<string>, all: map<string, (real, real)>) returns (r: Result<real>)
    ensures r.Success? <==> Scorable(members, all)
    ensures r.Failure? ==> IsSetError(r.error, members, all)
    ensures r.Success? ==> IsSetMin(r.value, members, all)
  {
    var ems: seq<real> := [];
    ghost var order: seq<string> := [];
    var rest := members;
    while rest != {}
      invariant rest <= members
      invariant |order| == |ems|
      invariant forall i :: 0 <= i < |order| ==> order[i] in members && order[i] in all && ems[i] == all[order[i]].0
      invariant forall q :: q in members ==> q in rest || q in order
      invariant ems == [] ==> rest == members
      decreases rest
    {
      var queryId :| queryId in rest;
      if queryId !in all {
        return Failure(KeyError(queryId));
      }
      ems := ems + [all[queryId].0];
      order := order + [queryId];
      rest := rest - {queryId};
    }
    if ems == [] {
      return Failure(ValueError);
    }
    var c := Min(ems);
    forall q | q in members
      ensures c <= all[q].0
    {
      var i :| 0 <= i < |order| && order[i] == q;
    }
    var i :| 0 <= i < |ems| && c == ems[i];
    assert order[i] in members && c == all[order[i]].0;
    r := Success(c);
  }

  /** A contrast set is consistent (scores 1) exactly when every member is answered exactly,
      as long as exact match never exceeds 1. */
  lemma ConsistentIffAllExact(c: real, members: set<string>, all: map<string, (real, real)>)
    requires IsSetMin(c, members, all)
    requires forall q :: q in members ==> all[q].0 <= 1.0
    ensures c == 1.0 <==> forall q :: q in members ==> all[q].0 == 1.0
  {
  }

  /** The loop at lines 123 to 126: one consistency score per contrast set, in order. */
  method ConsistencyScores(sets: seq<set<string>>, all: map<string, (real, real)>) returns (r: Result<seq<real>>)
    ensures r.Success? <==> forall i :: 0 <= i < |sets| ==> Scorable(sets[i], all)
    ensures r.Failure? ==> IsFirstSetError(r.error, sets, all)
    ensures r.Success? ==> |r.value| == |sets| && forall i :: 0 <= i < |sets| ==> IsSetMin(r.value[i], sets[i], all)
  {
    var scores: seq<real> := [];
    var n := 0;
    while n < |sets|
      invariant 0 <= n <= |sets|
      invariant |scores| == n
      invariant forall i :: 0 <= i < n ==> Scorable(sets[i], all) && IsSetMin(scores[i], sets[i], all)
    {
      var c := Consistency(sets[n], all);
      if c.Failure? {
        return Failure(c.error);
      }
      scores := scores + [c.value];
      n := n + 1;
    }
    r := Success(scores);
  }

  /** What `evaluate_contrast_sets` reports.  The spread of the set sizes is kept as the
      variance; numpy's standard deviation is its square root. */
  datatype Report = Report(
    originalEm: Stat, originalF1: Stat,
    perturbedEm: Stat, perturbedF1: Stat,
    combinedEm: Stat, combinedF1: Stat,
    setCount: nat, maxSetSize: int, meanSetSize: Stat, setSizeVariance: Stat,
    consistencies: seq<real>, consistency: Stat)

  /** `rep` is what lines 97 to 134 report for the two scored files and the contrast sets:
      the plain and pooled means, the number, largest size, mean size and size variance of the
      sets, each set's lowest exact-match score and their mean. */
  ghost predicate IsReport(rep: Report, original: Dict<string, (real, real)>,
                           perturbed: Dict<string, (real, real)>, contrastSets: seq<set<string>>)
  {
    && Valid(original) && Valid(perturbed)
    && rep.originalEm == MeanOf(EmScores(original)) && rep.originalF1 == MeanOf(F1Scores(original))
    && rep.perturbedEm == MeanOf(EmScores(perturbed)) && rep.perturbedF1 == MeanOf(F1Scores(perturbed))
    && rep.combinedEm == MeanOf(EmScores(original) + EmScores(perturbed))
    && rep.combinedF1 == MeanOf(F1Scores(original) + F1Scores(perturbed))
    && rep.setCount == |contrastSets|
    && (forall i :: 0 <= i < |contrastSets| ==> |contrastSets[i]| <= rep.maxSetSize)
    && (exists i :: 0 <= i < |contrastSets| && |contrastSets[i]| == rep.maxSetSize)
    && rep.meanSetSize == MeanOf(AsReals(SetSizes(contrastSets)))
    && rep.setSizeVariance == Variance(AsReals(SetSizes(contrastSets)))
    && |rep.consistencies| == |contrastSets|
    && (forall i :: 0 <= i < |contrastSets| ==>
          IsSetMin(rep.consistencies[i], contrastSets[i], original.entries + perturbed.entries))
    && rep.consistency == MeanOf(rep.consistencies)
  }

  /** Lines 97 to 134 of `evaluate_contrast_sets`, once the two files have been scored and the
      contrast sets collected: the three pairs of means, the set statistics and consistency.
      A member missing from both files raises KeyError; an empty set or no set at all makes
      `min` or `max` raise ValueError. */
  method Summarize(original: Dict<string, (real, real)>, perturbed: Dict<string, (real, real)>,
                   contrastSets: seq<set<string>>)
    returns (r: Result<Report>)
    requires Valid(original) && Valid(perturbed)
    ensures r.Success? <==>
      && |contrastSets| > 0
      && forall i :: 0 <= i < |contrastSets| ==> Scorable(contrastSets[i], original.entries + perturbed.entries)
    ensures r.Failure? && |contrastSets| == 0 ==> r.error == ValueError
    ensures r.Failure? && |contrastSets| > 0 ==>
      IsFirstSetError(r.error, contrastSets, original.entries + perturbed.entries)
    ensures r.Success? ==> IsReport(r.value, original, perturbed, contrastSets)
  {
    var originalEm := MeanOf(EmScores(original));
    var originalF1 := MeanOf(F1Scores(original));
    var perturbedEm := MeanOf(EmScores(perturbed));
    var perturbedF1 := MeanOf(F1Scores(perturbed));
    var combinedEm := MeanOf(EmScores(original) + EmScores(perturbed));
    var combinedF1 := MeanOf(F1Scores(original) + F1Scores(perturbed));
    var setSizes := SetSizes(contrastSets);
    var meanSize := MeanOf(AsReals(setSizes));
    var sizeVariance := Variance(AsReals(setSizes));
    var all := Merged(original, perturbed);
    var consistencies := ConsistencyScores(contrastSets, all.entries);
    if consistencies.Failure? {
      return Failure(consistencies.error);
    }
    var consistency := MeanOf(consistencies.value);
    if |setSizes| == 0 {
      return Failure(ValueError);
    }
    var maxSize := Max(setSizes);
    r := Success(Report(originalEm, originalF1, perturbedEm, perturbedF1, combinedEm, combinedF1,
                        |contrastSets|, maxSize, meanSize, sizeVariance, consistencies.value, consistency));
  }

  /** Every record id is among the ids. */
  lemma {:induction false} InIds(qas: seq<QA>, i: nat)
    requires i < |qas|
    ensures qas[i].id in Ids(qas)
  {
    if i < |qas| - 1 {
      InIds(qas[..|qas| - 1], i);
    }
  }

  /** The ids linked to an original are record ids of the same file. */
  lemma LinkedIdsAreIds(qas: seq<QA>, k: string)
    ensures forall x :: x in LinkedIds(qas, k) ==> x in Ids(qas)
  {
    forall x | x in LinkedIds(qas, k)
      ensures x in Ids(qas)
    {
      LinkedIdsMembers(qas, k, x);
      var i :| 0 <= i < |qas| && qas[i].originalId == Some(k) && qas[i].id == x;
      InIds(qas, i);
    }
  }

  /** The contrast sets of a perturbed file can all be scored exactly when each original id
      they name is a query of one of the two files. */
  lemma ScorableIffOriginalsKnown(sets: seq<set<string>>, qas: seq<QA>, keys: set<string>)
    requires AreContrastSets(sets, qas)
    requires forall x :: x in Ids(qas) ==> x in keys
    ensures (forall i :: 0 <= i < |sets| ==> sets[i] != {} && sets[i] <= keys)
        <==> forall o :: o in OriginalIds(qas) ==> o in keys
  {
    var originals := Dedup(OriginalIds(qas));
    forall o | o in originals
      ensures LinkedIds(qas, o) <= keys
    {
      LinkedIdsAreIds(qas, o);
    }
    if forall i :: 0 <= i < |sets| ==> sets[i] != {} && sets[i] <= keys {
      forall o | o in OriginalIds(qas)
        ensures o in keys
      {
        var i :| 0 <= i < |originals| && originals[i] == o;
        assert o in sets[i];
      }
    }
  }

  /** Query `o` is a gold query of one of the two files, so it has scores. */
  ghost predicate Known(o: string, originalGold: Annotations, perturbedGold: Annotations)
  {
    o in GoldIds(originalGold) || o in GoldIds(perturbedGold)
  }

  /** `o` is the first of `originals` that neither gold file has. */
  ghost predicate IsFirstUnknown(o: string, originals: seq<string>, originalGold: Annotations, perturbedGold: Annotations)
  {
    exists i :: 0 <= i < |originals| && originals[i] == o && !Known(o, originalGold, perturbedGold)
      && forall j :: 0 <= j < i ==> Known(originals[j], originalGold, perturbedGold)
  }

  /** Both files can be scored: no predicted query has an empty list of gold candidates. */
  ghost predicate BothScored(originalGold: Annotations, originalPredicted: map<string, Prediction>,
                             perturbedGold: Annotations, perturbedPredicted: map<string, Prediction>)
  {
    !PredictedWithoutGold(originalGold, originalPredicted) && !PredictedWithoutGold(perturbedGold, perturbedPredicted)
  }

  /** Every record of a perturbed file is scored, so the first contrast set that cannot be
      scored fails on its original id, the first one neither file has. */
  lemma FirstUnscorableIsUnknown(e: Error, sets: seq<set<string>>, qas: seq<QA>, all: map<string, (real, real)>,
                                 originalGold: Annotations, perturbedGold: Annotations)
    requires AreContrastSets(sets, qas)
    requires forall x :: x in Ids(qas) ==> x in all
    requires forall x :: x in all <==> Known(x, originalGold, perturbedGold)
    requires IsFirstSetError(e, sets, all)
    ensures e.KeyError? && IsFirstUnknown(e.key, Dedup(OriginalIds(qas)), originalGold, perturbedGold)
  {
    var originals := Dedup(OriginalIds(qas));
    var i :| 0 <= i < |sets| && !Scorable(sets[i], all) && IsSetError(e, sets[i], all)
      && forall j :: 0 <= j < i ==> Scorable(sets[j], all);
    LinkedIdsAreIds(qas, originals[i]);
    assert e.key == originals[i];
    forall j | 0 <= j < i
      ensures Known(originals[j], originalGold, perturbedGold)
    {
      assert originals[j] in sets[j];
    }
  }

  /** `evaluate_contrast_sets` without the file reading and printing: both files are scored,
      the perturbed file's contrast sets are collected and everything is summarized.  The
      scored files and the contrast sets come back as ghost results, so that the report can be
      stated in their terms.  Each stage's exception ends the run: an empty candidate list in
      the original file, then in the perturbed one, a perturbed file without "data", a
      perturbed record without `original_id`, no contrast set at all, and finally the first
      original id that neither file has. */
  method EvaluateContrastSets(originalGold: Annotations, originalPredicted: map<string, Prediction>,
                              perturbedGold: Annotations, perturbedPredicted: map<string, Prediction>,
                              metric: Metric)
    returns (r: Result<Report>, ghost originalScores: Dict<string, (real, real)>,
             ghost perturbedScores: Dict<string, (real, real)>, ghost sets: seq<set<string>>)
    requires WellFormed(originalGold) && WellFormed(perturbedGold)
    ensures PredictedWithoutGold(originalGold, originalPredicted) ==> r == Failure(IndexError)
    ensures !PredictedWithoutGold(originalGold, originalPredicted) && PredictedWithoutGold(perturbedGold, perturbedPredicted)
      ==> r == Failure(IndexError)
    ensures BothScored(originalGold, originalPredicted, perturbedGold, perturbedPredicted) && perturbedGold.Flat?
      ==> r == Failure(KeyError("data"))
    ensures BothScored(originalGold, originalPredicted, perturbedGold, perturbedPredicted) && perturbedGold.Nested?
      ==> (!AllLinked(QasOfArticles(perturbedGold.data)) ==> r == Failure(KeyError("original_id")))
    ensures BothScored(originalGold, originalPredicted, perturbedGold, perturbedPredicted) && perturbedGold.Nested?
      ==> var qas := QasOfArticles(perturbedGold.data);
          AllLinked(qas) && |OriginalIds(qas)| == 0 ==> r == Failure(ValueError)
    ensures BothScored(originalGold, originalPredicted, perturbedGold, perturbedPredicted) && perturbedGold.Nested?
      ==> var qas := QasOfArticles(perturbedGold.data);
          AllLinked(qas) && |OriginalIds(qas)| > 0 && r.Failure? ==>
            r.error.KeyError? && IsFirstUnknown(r.error.key, Dedup(OriginalIds(qas)), originalGold, perturbedGold)
    ensures r.Success? <==>
      && BothScored(originalGold, originalPredicted, perturbedGold, perturbedPredicted)
      && perturbedGold.Nested?
      && AllLinked(QasOfArticles(perturbedGold.data))
      && |OriginalIds(QasOfArticles(perturbedGold.data))| > 0
      && forall o :: o in OriginalIds(QasOfArticles(perturbedGold.data)) ==> Known(o, originalGold, perturbedGold)
    ensures r.Success? ==>
      && IsInstanceMetrics(originalScores, originalGold, originalPredicted, metric)
      && IsInstanceMetrics(perturbedScores, perturbedGold, perturbedPredicted, metric)
      && perturbedGold.Nested? && AreContrastSets(sets, QasOfArticles(perturbedGold.data))
      && IsReport(r.value, originalScores, perturbedScores, sets)
  {
    originalScores, perturbedScores, sets := Empty(), Empty(), [];
    var original := GetInstanceMetrics(originalGold, originalPredicted, metric);
    if original.Failure? {
      r := Failure(original.error);
      return;
    }
    var perturbed := GetInstanceMetrics(perturbedGold, perturbedPredicted, metric);
    if perturbed.Failure? {
      r := Failure(perturbed.error);
      return;
    }
    var contrastSets := GetContrastSets(perturbedGold);
    if contrastSets.Failure? {
      r := Failure(contrastSets.error);
      return;
    }
    originalScores, perturbedScores, sets := original.value, perturbed.value, contrastSets.value;
    var qas := QasOfArticles(perturbedGold.data);
    var keys := (original.value.entries + perturbed.value.entries).Keys;
    assert forall x :: x in keys <==> x in GoldIds(originalGold) || x in GoldIds(perturbedGold);
    forall x | x in Ids(qas)
      ensures x in keys
    {
      assert x in GoldIds(perturbedGold);
    }
    ScorableIffOriginalsKnown(contrastSets.value, qas, keys);
    assert |contrastSets.value| > 0 <==> |OriginalIds(qas)| > 0 by {
      if |OriginalIds(qas)| > 0 {
        assert OriginalIds(qas)[0] in Dedup(OriginalIds(qas));
      }
    }
    r := Summarize(original.value, perturbed.value, contrastSets.value);
    if r.Failure? && |sets| > 0 {
      FirstUnscorableIsUnknown(r.error, sets, qas, original.value.entries + perturbed.value.entries,
                               originalGold, perturbedGold);
    }
  }
}
