/** Merging perturbed dataset files: the records that carry a lineage link are kept, get a
    fresh id and recomputed answer offsets, and are gathered per article and paragraph
    across all input files. */
module MergePerturbedFiles {
  import opened Results
  import opened Seqs
  import opened OrderedDict
  import opened PyStrings
  import opened Records

  /** hashlib.sha1(...).hexdigest(); its definition is not part of this model. */
  type Sha1 = string -> string

  // ----- One record -----

  /** The original a record descends from: its own `original_id`, else the part of its id
      before the first `_` when the id has one, else none (the record is skipped). */
  function Lineage(q: QA): (r: Option<string>)
    ensures q.originalId.Some? ==> r == q.originalId
    ensures q.originalId.None? && '_' in q.id ==> r == Some(BeforeFirst(q.id, '_'))
    ensures r.None? <==> q.originalId.None? && '_' !in q.id
  {
    if q.originalId.Some? then q.originalId
    else if '_' in q.id then Some(BeforeFirst(q.id, '_'))
    else None
  }

  /** A record perturbed by rewriting `original_suffix` into its id gets `original` back as
      its lineage. */
  lemma LineageOfDerivedId(q: QA, original: string, suffix: string)
    requires q.originalId.None? && '_' !in original && q.id == original + "_" + suffix
    ensures Lineage(q) == Some(original)
  {
    assert q.id == original + ['_'] + suffix;
    BeforeFirstOfJoin(original, '_', suffix);
  }

  /** `a.answerStart` is where the answer text first occurs in the context. */
  ghost predicate StartsAtFirstOccurrence(context: string, a: Answer)
  {
    && 0 <= a.answerStart
    && OccursAt(context, a.text, a.answerStart)
    && forall j :: 0 <= j < a.answerStart ==> !OccursAt(context, a.text, j)
  }

  /** The answers with `answer_start` set to `context.index(text)`; ValueError when a text does
      not occur in the context. */
  function FirstStarts(context: string, answers: seq<Answer>): (r: Result<seq<Answer>>)
    ensures r.Success? <==> forall i :: 0 <= i < |answers| ==> Contains(context, answers[i].text)
    ensures r.Failure? ==> r.error == ValueError
    ensures r.Success? ==> |r.value| == |answers|
    ensures r.Success? ==> forall i :: 0 <= i < |answers| ==>
      r.value[i].text == answers[i].text && StartsAtFirstOccurrence(context, r.value[i])
  {
    if answers == [] then Success([])
    else
      var last := answers[|answers| - 1];
      var rest := FirstStarts(context, answers[..|answers| - 1]);
      match IndexOf(context, last.text)
      case None => Failure(ValueError)
      case Some(n) =>
        if rest.Failure? then rest else Success(rest.value + [Answer(last.text, n)])
  }

  /** Lines 30 to 37: every answer's `answer_start` recomputed, in order. */
  method RecomputeStarts(context: string, answers: seq<Answer>) returns (r: Result<seq<Answer>>)
    ensures r == FirstStarts(context, answers)
  {
    var updated: seq<Answer> := [];
    var n := 0;
    while n < |answers|
      invariant 0 <= n <= |answers|
      invariant FirstStarts(context, answers[..n]) == Success(updated)
    {
      assert answers[..n + 1][..n] == answers[..n];
      var answerStart := IndexOf(context, answers[n].text);
      if answerStart.None? {
        ValueErrorPersists(context, answers, n);
        return Failure(ValueError);
      }
      updated := updated + [Answer(answers[n].text, answerStart.value)];
      n := n + 1;
    }
    assert answers[..n] == answers;
    r := Success(updated);
  }

  /** One answer that cannot be found fails the whole list. */
  lemma ValueErrorPersists(context: string, answers: seq<Answer>, n: nat)
    requires n < |answers| && IndexOf(context, answers[n].text).None?
    ensures FirstStarts(context, answers) == Failure(ValueError)
  {
  }

  /** A kept record after rewriting: the id recomputed from the context id and the question,
      the answer offsets recomputed, the lineage recorded. */
  function RewriteRecord(contextId: string, context: string, q: QA, sha1: Sha1): (r: Result<QA>)
    ensures r.Success? <==> FirstStarts(context, q.answers).Success?
    ensures r.Failure? ==> r.error == ValueError
    ensures r.Success? ==>
      && r.value.id == sha1(contextId + " " + q.question)
      && r.value.question == q.question
      && r.value.answers == FirstStarts(context, q.answers).value
      && r.value.originalId == Lineage(q)
  {
    match FirstStarts(context, q.answers)
    case Failure(e) => Failure(e)
    case Success(answers) => Success(QA(sha1(contextId + " " + q.question), q.question, answers, Lineage(q)))
  }

  /** The records that have a lineage, in order. */
  function Kept(qas: seq<QA>): (r: seq<QA>)
    ensures |r| <= |qas|
  {
    if qas == [] then []
    else Kept(qas[..|qas| - 1]) + if Lineage(qas[|qas| - 1]).Some? then [qas[|qas| - 1]] else []
  }

  /** A record is kept exactly when it has a lineage: records with neither `original_id` nor
      `_` in their id never reach the output. */
  lemma {:induction false} KeptMembers(qas: seq<QA>, q: QA)
    ensures q in Kept(qas) <==> q in qas && Lineage(q).Some?
  {
    if qas != [] {
      var init := qas[..|qas| - 1];
      KeptMembers(init, q);
      assert qas == init + [qas[|qas| - 1]];
    }
  }

  /** The rewritten kept records of one paragraph, or ValueError when an answer of a kept
      record is missing from the context. */
  function Rewritten(contextId: string, context: string, qas: seq<QA>, sha1: Sha1): Result<seq<QA>>
  {
    if qas == [] then Success([])
    else
      var last := qas[|qas| - 1];
      var rest := Rewritten(contextId, context, qas[..|qas| - 1], sha1);
      if Lineage(last).None? then rest
      else
        match RewriteRecord(contextId, context, last, sha1)
        case Failure(e) => Failure(e)
        case Success(q) => if rest.Failure? then rest else Success(rest.value + [q])
  }

  /** The rewrite succeeds exactly when every kept record can be rewritten, fails only with
      ValueError, and yields the kept records rewritten one by one, in order. */
  lemma {:induction false} RewrittenSpec(contextId: string, context: string, qas: seq<QA>, sha1: Sha1)
    ensures var r := Rewritten(contextId, context, qas, sha1);
      && (r.Success? <==> forall i :: 0 <= i < |Kept(qas)| ==> RewriteRecord(contextId, context, Kept(qas)[i], sha1).Success?)
      && (r.Failure? ==> r.error == ValueError)
      && (r.Success? ==> |r.value| == |Kept(qas)|)
      && (r.Success? ==> forall i :: 0 <= i < |r.value| ==>
            RewriteRecord(contextId, context, Kept(qas)[i], sha1) == Success(r.value[i]))
  {
    if qas != [] {
      var last := qas[|qas| - 1];
      var init := qas[..|qas| - 1];
      RewrittenSpec(contextId, context, init, sha1);
      if Lineage(last).None? {
        assert Kept(qas) == Kept(init);
      } else {
        assert Kept(qas) == Kept(init) + [last];
        assert Kept(qas)[|Kept(init)|] == last;
        assert forall i :: 0 <= i < |Kept(init)| ==> Kept(qas)[i] == Kept(init)[i];
      }
    }
  }

  /** Every record the rewrite keeps has a lineage. */
  lemma RewrittenLinked(contextId: string, context: string, qas: seq<QA>, sha1: Sha1)
    requires Rewritten(contextId, context, qas, sha1).Success?
    ensures forall q :: q in Rewritten(contextId, context, qas, sha1).value ==> q.originalId.Some?
  {
    var r := Rewritten(contextId, context, qas, sha1).value;
    RewrittenSpec(contextId, context, qas, sha1);
    forall q | q in r
      ensures q.originalId.Some?
    {
      var i :| 0 <= i < |r| && r[i] == q;
      KeptMembers(qas, Kept(qas)[i]);
    }
  }

  /** Lines 18 to 38 for one record: whether it is kept, and if so the record rewritten. */
  method RewriteOne(contextId: string, context: string, q: QA, sha1: Sha1)
    returns (kept: bool, r: Result<QA>)
    ensures kept <==> Lineage(q).Some?
    ensures kept ==> r == RewriteRecord(contextId, context, q, sha1)
  {
    var originalId := q.originalId;
    if originalId.Some? {
    } else if '_' in q.id {
      originalId := Some(BeforeFirst(q.id, '_'));
    } else {
      return false, Failure(ValueError);
    }
    var updatedId := sha1(contextId + " " + q.question);
    var answers := RecomputeStarts(context, q.answers);
    if answers.Failure? {
      return true, Failure(ValueError);
    }
    return true, Success(QA(updatedId, q.question, answers.value, originalId));
  }

  /** One record more in the rewrite of a paragraph. */
  lemma RewrittenStep(contextId: string, context: string, qas: seq<QA>, sha1: Sha1, k: nat, done: seq<QA>)
    requires k < |qas| && Rewritten(contextId, context, qas[..k], sha1) == Success(done)
    ensures Lineage(qas[k]).None? ==> Rewritten(contextId, context, qas[..k + 1], sha1) == Success(done)
    ensures Lineage(qas[k]).Some? && RewriteRecord(contextId, context, qas[k], sha1).Success? ==>
      Rewritten(contextId, context, qas[..k + 1], sha1) == Success(done + [RewriteRecord(contextId, context, qas[k], sha1).value])
    ensures Kept(qas[..k + 1]) == Kept(qas[..k]) + if Lineage(qas[k]).Some? then [qas[k]] else []
  {
    assert qas[..k + 1][..k] == qas[..k];
  }

  /** Lines 16 to 39: the kept records of one paragraph, rewritten, and whether there were any. */
  method RewriteRecords(contextId: string, context: string, qas: seq<QA>, sha1: Sha1)
    returns (r: Result<seq<QA>>, hasPerturbations: bool)
    ensures r == Rewritten(contextId, context, qas, sha1)
    ensures r.Success? ==> (hasPerturbations <==> |Kept(qas)| > 0)
    ensures r.Success? ==> (hasPerturbations <==> |r.value| > 0)
  {
    hasPerturbations := false;
    var perturbed: seq<QA> := [];
    var k := 0;
    while k < |qas|
      invariant 0 <= k <= |qas|
      invariant Rewritten(contextId, context, qas[..k], sha1) == Success(perturbed)
      invariant hasPerturbations <==> |Kept(qas[..k])| > 0
    {
      RewrittenStep(contextId, context, qas, sha1, k, perturbed);
      var kept, q := RewriteOne(contextId, context, qas[k], sha1);
      if kept {
        hasPerturbations := true;
        if q.Failure? {
          RewriteFailurePersists(contextId, context, qas, sha1, k);
          RewrittenSpec(contextId, context, qas, sha1);
          return Failure(ValueError), hasPerturbations;
        }
        perturbed := perturbed + [q.value];
      }
      k := k + 1;
    }
    assert qas[..k] == qas;
    RewrittenSpec(contextId, context, qas, sha1);
    r := Success(perturbed);
  }

  /** One kept record whose answers cannot be placed fails the whole paragraph. */
  lemma {:induction false} RewriteFailurePersists(contextId: string, context: string, qas: seq<QA>, sha1: Sha1, k: nat)
    requires k < |qas| && Lineage(qas[k]).Some? && FirstStarts(context, qas[k].answers).Failure?
    ensures Rewritten(contextId, context, qas, sha1).Failure?
  {
    if k < |qas| - 1 {
      RewriteFailurePersists(contextId, context, qas[..|qas| - 1], sha1, k);
    }
  }

  // ----- Gathering paragraphs across files -----

  /** A paragraph together with the title and url of its article. */
  datatype Site = Site(title: string, url: string, paragraph: Paragraph)

  /** The paragraphs of one article, in order. */
  function SitesOfArticle(title: string, url: string, paragraphs: seq<Paragraph>): (r: seq<Site>)
    ensures |r| == |paragraphs|
    ensures forall j :: 0 <= j < |r| ==> r[j] == Site(title, url, paragraphs[j])
  {
    seq(|paragraphs|, j requires 0 <= j < |paragraphs| => Site(title, url, paragraphs[j]))
  }

  /** The paragraphs of one file, in order. */
  function SitesOfFile(articles: seq<Article>): seq<Site>
  {
    if articles == [] then []
    else
      var last := articles[|articles| - 1];
      SitesOfFile(articles[..|articles| - 1]) + SitesOfArticle(last.title, last.url, last.paragraphs)
  }

  /** The paragraphs of all files, in command-line order. */
  function SitesOfFiles(files: seq<seq<Article>>): seq<Site>
  {
    if files == [] then [] else SitesOfFiles(files[..|files| - 1]) + SitesOfFile(files[|files| - 1])
  }

  /** The kept records of the paragraph can all be rewritten. */
  ghost predicate Found(site: Site, sha1: Sha1)
  {
    Rewritten(site.paragraph.contextId, site.paragraph.context, site.paragraph.qas, sha1).Success?
  }

  ghost predicate AllFound(sites: seq<Site>, sha1: Sha1)
  {
    forall i :: 0 <= i < |sites| ==> Found(sites[i], sha1)
  }

  /** What a paragraph with kept records adds to the merged data: its rewritten records under
      its article and context id, and its context. */
  datatype Contribution = Contribution(key: (string, string), contextId: string, context: string, qas: seq<QA>)

  /** What one paragraph contributes: its rewritten records when there are any and the rewrite
      succeeds, else nothing. */
  ghost function OwnContribution(s: Site, sha1: Sha1): seq<Contribution>
  {
    var p := s.paragraph;
    var rewritten := Rewritten(p.contextId, p.context, p.qas, sha1);
    if rewritten.Success? && |rewritten.value| > 0
    then [Contribution((s.title, s.url), p.contextId, p.context, rewritten.value)]
    else []
  }

  /** The contributions of the paragraphs that have kept records, in order.  A paragraph whose
      rewrite fails contributes nothing; the merge as a whole fails then. */
  ghost function Contributions(sites: seq<Site>, sha1: Sha1): seq<Contribution>
  {
    if sites == [] then []
    else Contributions(sites[..|sites| - 1], sha1) + OwnContribution(sites[|sites| - 1], sha1)
  }

  /** `all_data`: (title, url) to context id to paragraph, each level in first-seen order. */
  type Gathered = Dict<(string, string), Dict<string, Paragraph>>

  ghost predicate WellNested(state: Gathered)
  {
    && Valid(state)
    && forall key :: key in state.entries ==> Valid(state.entries[key])
  }

  /** Lines 42 to 46: the paragraph entry (created empty on first use) takes the context and
      context id of the contribution and has its records appended. */
  function AddParagraph(state: Gathered, c: Contribution): (r: Gathered)
    requires WellNested(state)
    ensures WellNested(r)
  {
    var inner := if c.key in state.entries then state.entries[c.key] else Empty();
    var qas := if c.contextId in inner.entries then inner.entries[c.contextId].qas else [];
    Put(state, c.key, Put(inner, c.contextId, Paragraph(c.contextId, c.context, qas + c.qas)))
  }

  /** What lines 42 to 46 change: the contribution's article is added at the end if it is
      new, its paragraph likewise within the article; that paragraph takes the contribution's
      context and has its records appended; every other article and paragraph is unchanged. */
  lemma AddParagraphSpec(state: Gathered, c: Contribution)
    requires WellNested(state)
    ensures
      var r := AddParagraph(state, c);
      var inner := if c.key in state.entries then state.entries[c.key] else Empty();
      && r.keys == (if c.key in state.entries then state.keys else state.keys + [c.key])
      && (forall k :: k in state.entries && k != c.key ==> k in r.entries && r.entries[k] == state.entries[k])
      && c.key in r.entries
      && r.entries[c.key].keys == (if c.contextId in inner.entries then inner.keys else inner.keys + [c.contextId])
      && (forall cid :: cid in inner.entries && cid != c.contextId ==>
            cid in r.entries[c.key].entries && r.entries[c.key].entries[cid] == inner.entries[cid])
      && c.contextId in r.entries[c.key].entries
      && r.entries[c.key].entries[c.contextId]
         == Paragraph(c.contextId, c.context, (if c.contextId in inner.entries then inner.entries[c.contextId].qas else []) + c.qas)
  {
    var inner := if c.key in state.entries then state.entries[c.key] else Empty();
    var qas := if c.contextId in inner.entries then inner.entries[c.contextId].qas else [];
    var inner' := Put(inner, c.contextId, Paragraph(c.contextId, c.context, qas + c.qas));
    assert AddParagraph(state, c) == Put(state, c.key, inner');
  }

  /** The merged data after a series of contributions. */
  ghost function Gather(cs: seq<Contribution>): (r: Gathered)
    ensures WellNested(r)
  {
    if cs == [] then Empty() else AddParagraph(Gather(cs[..|cs| - 1]), cs[|cs| - 1])
  }

  /** Lines 48 to 53: one article per (title, url), holding its paragraphs in order. */
  function Output(state: Gathered): (r: seq<Article>)
    requires WellNested(state)
    ensures |r| == |state.keys|
    ensures forall i :: 0 <= i < |r| ==>
      r[i] == Article(state.keys[i].0, state.keys[i].1, Values(state.entries[state.keys[i]]))
  {
    seq(|state.keys|, i requires 0 <= i < |state.keys| =>
      Article(state.keys[i].0, state.keys[i].1, Values(state.entries[state.keys[i]])))
  }

  /** The merged dataset of some files, or ValueError when an answer cannot be placed. */
  ghost function MergeSpec(files: seq<seq<Article>>, sha1: Sha1): Result<seq<Article>>
  {
    var sites := SitesOfFiles(files);
    if AllFound(sites, sha1) then Success(Output(Gather(Contributions(sites, sha1)))) else Failure(ValueError)
  }

  lemma AllFoundConcat(a: seq<Site>, b: seq<Site>, sha1: Sha1)
    ensures AllFound(a + b, sha1) <==> AllFound(a, sha1) && AllFound(b, sha1)
  {
    forall i | 0 <= i < |a| ensures (a + b)[i] == a[i] { }
    forall i | 0 <= i < |b| ensures (a + b)[|a| + i] == b[i] { }
  }

  /** Visiting one more paragraph. */
  lemma ContributionsStep(before: seq<Site>, s: Site, sha1: Sha1)
    ensures Contributions(before + [s], sha1) == Contributions(before, sha1) + OwnContribution(s, sha1)
  {
    assert (before + [s])[..|before|] == before;
  }

  /** Adding one contribution to the merged data. */
  lemma GatherStep(cs: seq<Contribution>, c: Contribution)
    ensures Gather(cs + [c]) == AddParagraph(Gather(cs), c)
  {
    assert (cs + [c])[..|cs|] == cs;
  }

  /** Lines 14 to 46 for one paragraph: its kept records rewritten and, when there are any,
      added to the merged data; `found` is false when an answer cannot be placed. */
  method MergeParagraph(state: Gathered, ghost cs: seq<Contribution>, title: string, url: string,
                        paragraph: Paragraph, sha1: Sha1)
    returns (state': Gathered, found: bool)
    requires state == Gather(cs)
    ensures found <==> Found(Site(title, url, paragraph), sha1)
    ensures found ==> state' == Gather(cs + OwnContribution(Site(title, url, paragraph), sha1))
  {
    var contextId := paragraph.contextId;
    var context := paragraph.context;
    var perturbed, hasPerturbations := RewriteRecords(contextId, context, paragraph.qas, sha1);
    if perturbed.Failure? {
      return state, false;
    }
    if hasPerturbations {
      var c := Contribution((title, url), contextId, context, perturbed.value);
      assert OwnContribution(Site(title, url, paragraph), sha1) == [c];
      GatherStep(cs, c);
      state' := AddParagraph(state, c);
    } else {
      assert OwnContribution(Site(title, url, paragraph), sha1) == [];
      assert cs + [] == cs;
      state' := state;
    }
    found := true;
  }

  /** The inner loop of the merge over the paragraphs of one article. */
  method MergeArticle(state: Gathered, ghost before: seq<Site>, title: string, url: string,
                      paragraphs: seq<Paragraph>, sha1: Sha1)
    returns (state': Gathered, found: bool)
    requires state == Gather(Contributions(before, sha1))
    ensures found <==> AllFound(SitesOfArticle(title, url, paragraphs), sha1)
    ensures found ==> state' == Gather(Contributions(before + SitesOfArticle(title, url, paragraphs), sha1))
  {
    state' := state;
    ghost var sites := SitesOfArticle(title, url, paragraphs);
    ghost var cs := Contributions(before, sha1);
    var j := 0;
    assert before + sites[..j] == before;
    while j < |paragraphs|
      invariant 0 <= j <= |paragraphs|
      invariant AllFound(sites[..j], sha1)
      invariant cs == Contributions(before + sites[..j], sha1)
      invariant state' == Gather(cs)
    {
      PrefixContributionsStep(before, sites, j, sha1);
      PrefixFoundStep(sites, j, sha1);
      var found';
      state', found' := MergeParagraph(state', cs, title, url, paragraphs[j], sha1);
      if !found' {
        return state', false;
      }
      cs := cs + OwnContribution(sites[j], sha1);
      j := j + 1;
    }
    assert sites[..j] == sites;
    found := true;
  }

  /** Visiting the next site of a list. */
  lemma PrefixContributionsStep(before: seq<Site>, sites: seq<Site>, j: nat, sha1: Sha1)
    requires j < |sites|
    ensures Contributions(before + sites[..j + 1], sha1) == Contributions(before + sites[..j], sha1) + OwnContribution(sites[j], sha1)
  {
    JoinStep(before, sites, j);
    ContributionsStep(before + sites[..j], sites[j], sha1);
  }

  lemma PrefixFoundStep(sites: seq<Site>, j: nat, sha1: Sha1)
    requires j < |sites|
    ensures AllFound(sites[..j + 1], sha1) <==> AllFound(sites[..j], sha1) && Found(sites[j], sha1)
  {
    PrefixStep(sites, j);
    AllFoundConcat(sites[..j], [sites[j]], sha1);
  }

  /** Visiting one more article appends its paragraphs. */
  lemma SitesOfFileStep(articles: seq<Article>, i: nat)
    requires i < |articles|
    ensures SitesOfFile(articles[..i + 1])
            == SitesOfFile(articles[..i]) + SitesOfArticle(articles[i].title, articles[i].url, articles[i].paragraphs)
  {
    assert articles[..i + 1][..i] == articles[..i];
  }

  /** Every paragraph of every article of a file is visited. */
  lemma {:induction false} SitesOfFileMember(articles: seq<Article>, i: nat, j: nat)
    requires i < |articles| && j < |articles[i].paragraphs|
    ensures Site(articles[i].title, articles[i].url, articles[i].paragraphs[j]) in SitesOfFile(articles)
  {
    if i < |articles| - 1 {
      SitesOfFileMember(articles[..|articles| - 1], i, j);
    } else {
      var sites := SitesOfArticle(articles[i].title, articles[i].url, articles[i].paragraphs);
      assert sites[j] in sites;
    }
  }

  /** A paragraph whose rewrite fails makes the whole file fail. */
  lemma UnfoundInFile(articles: seq<Article>, i: nat, sha1: Sha1)
    requires i < |articles|
    requires !AllFound(SitesOfArticle(articles[i].title, articles[i].url, articles[i].paragraphs), sha1)
    ensures !AllFound(SitesOfFile(articles), sha1)
  {
    var sites := SitesOfArticle(articles[i].title, articles[i].url, articles[i].paragraphs);
    var j :| 0 <= j < |sites| && !Found(sites[j], sha1);
    SitesOfFileMember(articles, i, j);
  }

  /** The first `n` articles of a file are merged into the data gathered from `before`. */
  ghost predicate MergedUpTo(state: Gathered, before: seq<Site>, articles: seq<Article>, n: nat, sha1: Sha1)
    requires n <= |articles|
  {
    && AllFound(SitesOfFile(articles[..n]), sha1)
    && state == Gather(Contributions(before + SitesOfFile(articles[..n]), sha1))
  }

  /** One pass of the loop over the articles of a file: the next article merged. */
  method MergeNextArticle(state: Gathered, ghost before: seq<Site>, articles: seq<Article>, i: nat, sha1: Sha1)
    returns (state': Gathered, found: bool)
    requires i < |articles| && MergedUpTo(state, before, articles, i, sha1)
    ensures found <==> AllFound(SitesOfFile(articles[..i + 1]), sha1)
    ensures !found ==> !AllFound(SitesOfFile(articles), sha1)
    ensures found ==> MergedUpTo(state', before, articles, i + 1, sha1)
  {
    ghost var done := SitesOfFile(articles[..i]);
    ghost var sites := SitesOfArticle(articles[i].title, articles[i].url, articles[i].paragraphs);
    SitesOfFileStep(articles, i);
    AllFoundConcat(done, sites, sha1);
    ConcatAssoc(before, done, sites);
    state', found := MergeArticle(state, before + done, articles[i].title, articles[i].url, articles[i].paragraphs, sha1);
    if !found {
      UnfoundInFile(articles, i, sha1);
    }
  }

  /** The loop of the merge over the articles of one file. */
  method MergeFile(state: Gathered, ghost before: seq<Site>, articles: seq<Article>, sha1: Sha1)
    returns (state': Gathered, found: bool)
    requires state == Gather(Contributions(before, sha1))
    ensures found <==> AllFound(SitesOfFile(articles), sha1)
    ensures found ==> state' == Gather(Contributions(before + SitesOfFile(articles), sha1))
  {
    state' := state;
    var i := 0;
    assert articles[..i] == [] && before + [] == before;
    while i < |articles|
      invariant 0 <= i <= |articles|
      invariant MergedUpTo(state', before, articles, i, sha1)
    {
      var found';
      state', found' := MergeNextArticle(state', before, articles, i, sha1);
      if !found' {
        return state', false;
      }
      i := i + 1;
    }
    MergedAll(state', before, articles, sha1);
    found := true;
  }

  lemma MergedAll(state: Gathered, before: seq<Site>, articles: seq<Article>, sha1: Sha1)
    requires MergedUpTo(state, before, articles, |articles|, sha1)
    ensures AllFound(SitesOfFile(articles), sha1)
    ensures state == Gather(Contributions(before + SitesOfFile(articles), sha1))
  {
    assert articles[..|articles|] == articles;
  }

  /** Reading one more file appends its paragraphs. */
  lemma SitesOfFilesStep(files: seq<seq<Article>>, f: nat)
    requires f < |files|
    ensures SitesOfFiles(files[..f + 1]) == SitesOfFiles(files[..f]) + SitesOfFile(files[f])
  {
    assert files[..f + 1][..f] == files[..f];
  }

  /** A file that fails makes the whole merge fail. */
  lemma {:induction false} UnfoundInFiles(files: seq<seq<Article>>, f: nat, sha1: Sha1)
    requires f < |files| && !AllFound(SitesOfFile(files[f]), sha1)
    ensures !AllFound(SitesOfFiles(files), sha1)
  {
    var init := files[..|files| - 1];
    AllFoundConcat(SitesOfFiles(init), SitesOfFile(files[|files| - 1]), sha1);
    if f < |files| - 1 {
      UnfoundInFiles(init, f, sha1);
    }
  }

  /** Lines 8 to 46: every file's paragraphs gathered in command-line order. */
  method GatherFiles(files: seq<seq<Article>>, sha1: Sha1) returns (allData: Gathered, found: bool)
    ensures found <==> AllFound(SitesOfFiles(files), sha1)
    ensures found ==> allData == Gather(Contributions(SitesOfFiles(files), sha1))
  {
    allData := Empty();
    ghost var visited: seq<Site> := [];
    var f := 0;
    assert files[..f] == [];
    while f < |files|
      invariant 0 <= f <= |files|
      invariant visited == SitesOfFiles(files[..f])
      invariant AllFound(visited, sha1)
      invariant allData == Gather(Contributions(visited, sha1))
    {
      SitesOfFilesStep(files, f);
      var found';
      allData, found' := MergeFile(allData, visited, files[f], sha1);
      if !found' {
        UnfoundInFiles(files, f, sha1);
        return allData, false;
      }
      AllFoundConcat(visited, SitesOfFile(files[f]), sha1);
      visited := visited + SitesOfFile(files[f]);
      f := f + 1;
    }
    assert files[..f] == files;
    found := true;
  }

  /** Lines 48 to 53: the gathered data laid out as a list of articles. */
  method LayOut(allData: Gathered) returns (data: seq<Article>)
    requires WellNested(allData)
    ensures data == Output(allData)
  {
    data := [];
    var n := 0;
    while n < |allData.keys|
      invariant 0 <= n <= |allData.keys|
      invariant data == Output(allData)[..n]
    {
      var key := allData.keys[n];
      assert Output(allData)[..n + 1] == Output(allData)[..n] + [Output(allData)[n]];
      data := data + [Article(key.0, key.1, Values(allData.entries[key]))];
      n := n + 1;
    }
    assert Output(allData)[..n] == Output(allData);
  }

  /** The script: every file's paragraphs are merged in command-line order, then the merged
      data is laid out as a list of articles. */
  method Merge(files: seq<seq<Article>>, sha1: Sha1) returns (r: Result<seq<Article>>)
    ensures r == MergeSpec(files, sha1)
  {
    var allData, found := GatherFiles(files, sha1);
    if !found {
      return Failure(ValueError);
    }
    var data := LayOut(allData);
    r := Success(data);
  }

  // ----- What the merged data holds -----

  /** The (title, url) of every contribution, in order. */
  function KeysOf(cs: seq<Contribution>): seq<(string, string)>
  {
    if cs == [] then [] else KeysOf(cs[..|cs| - 1]) + [cs[|cs| - 1].key]
  }

  /** The context ids of the contributions to article `key`, in order. */
  function ContextIdsOf(cs: seq<Contribution>, key: (string, string)): seq<string>
  {
    if cs == [] then []
    else
      var c := cs[|cs| - 1];
      ContextIdsOf(cs[..|cs| - 1], key) + if c.key == key then [c.contextId] else []
  }

  /** The records contributed to paragraph `contextId` of article `key`, in order. */
  function QasFor(cs: seq<Contribution>, key: (string, string), contextId: string): seq<QA>
  {
    if cs == [] then []
    else
      var c := cs[|cs| - 1];
      QasFor(cs[..|cs| - 1], key, contextId) + if c.key == key && c.contextId == contextId then c.qas else []
  }

  /** The context of the last contribution to paragraph `contextId` of article `key`. */
  function ContextFor(cs: seq<Contribution>, key: (string, string), contextId: string): string
  {
    if cs == [] then ""
    else
      var c := cs[|cs| - 1];
      if c.key == key && c.contextId == contextId then c.context else ContextFor(cs[..|cs| - 1], key, contextId)
  }

  /** `inner` holds one paragraph per context id contributed to article `key`, in first-seen
      order, each with the last context and all the records contributed to it. */
  ghost predicate DescribesArticle(inner: Dict<string, Paragraph>, cs: seq<Contribution>, key: (string, string))
  {
    && Valid(inner)
    && inner.keys == Dedup(ContextIdsOf(cs, key))
    && forall cid :: cid in inner.entries ==> inner.entries[cid] == Paragraph(cid, ContextFor(cs, key, cid), QasFor(cs, key, cid))
  }

  /** `state` holds one entry per contributed article, in first-seen order, each described by
      the contributions. */
  ghost predicate Describes(state: Gathered, cs: seq<Contribution>)
  {
    && WellNested(state)
    && state.keys == Dedup(KeysOf(cs))
    && forall key :: key in state.entries ==> DescribesArticle(state.entries[key], cs, key)
  }

  /** An article nobody contributed to has no paragraphs. */
  lemma {:induction false} NoKeyNoContextIds(cs: seq<Contribution>, key: (string, string))
    requires key !in KeysOf(cs)
    ensures ContextIdsOf(cs, key) == []
  {
    if cs != [] {
      NoKeyNoContextIds(cs[..|cs| - 1], key);
    }
  }

  /** A paragraph nobody contributed to has no records. */
  lemma {:induction false} NoContextIdNoQas(cs: seq<Contribution>, key: (string, string), cid: string)
    requires cid !in ContextIdsOf(cs, key)
    ensures QasFor(cs, key, cid) == []
  {
    if cs != [] {
      NoContextIdNoQas(cs[..|cs| - 1], key, cid);
    }
  }

  /** One more contribution, seen from every article and paragraph. */
  lemma ContributionStep(cs: seq<Contribution>, c: Contribution, key: (string, string), cid: string)
    ensures KeysOf(cs + [c]) == KeysOf(cs) + [c.key]
    ensures ContextIdsOf(cs + [c], key) == ContextIdsOf(cs, key) + if c.key == key then [c.contextId] else []
    ensures QasFor(cs + [c], key, cid) == QasFor(cs, key, cid) + if c.key == key && c.contextId == cid then c.qas else []
    ensures ContextFor(cs + [c], key, cid) == if c.key == key && c.contextId == cid then c.context else ContextFor(cs, key, cid)
  {
    assert (cs + [c])[..|cs|] == cs;
  }

  /** The paragraphs of the contribution's article before the step. */
  lemma InnerBefore(state: Gathered, cs: seq<Contribution>, key: (string, string))
    requires Describes(state, cs)
    ensures
      var inner := if key in state.entries then state.entries[key] else Empty();
      && DescribesArticle(inner, cs, key)
      && forall cid :: cid !in inner.entries ==> QasFor(cs, key, cid) == []
  {
    var inner := if key in state.entries then state.entries[key] else Empty();
    if key !in state.entries {
      NoKeyNoContextIds(cs, key);
    }
    forall cid | cid !in inner.entries
      ensures QasFor(cs, key, cid) == []
    {
      NoContextIdNoQas(cs, key, cid);
    }
  }

  /** The contribution's own paragraph gets its context and records. */
  lemma ArticleStep(inner: Dict<string, Paragraph>, cs: seq<Contribution>, c: Contribution)
    requires DescribesArticle(inner, cs, c.key)
    requires c.contextId !in inner.entries ==> QasFor(cs, c.key, c.contextId) == []
    ensures
      var qas := if c.contextId in inner.entries then inner.entries[c.contextId].qas else [];
      DescribesArticle(Put(inner, c.contextId, Paragraph(c.contextId, c.context, qas + c.qas)), cs + [c], c.key)
  {
    var cs' := cs + [c];
    var qas := if c.contextId in inner.entries then inner.entries[c.contextId].qas else [];
    var inner' := Put(inner, c.contextId, Paragraph(c.contextId, c.context, qas + c.qas));
    ContributionStep(cs, c, c.key, c.contextId);
    DedupStep(ContextIdsOf(cs, c.key), c.contextId);
    forall cid | cid in inner'.entries
      ensures inner'.entries[cid] == Paragraph(cid, ContextFor(cs', c.key, cid), QasFor(cs', c.key, cid))
    {
      ContributionStep(cs, c, c.key, cid);
    }
  }

  /** The contribution's own article after the step. */
  lemma DescribesStepSameKey(state: Gathered, cs: seq<Contribution>, c: Contribution)
    requires Describes(state, cs)
    ensures DescribesArticle(AddParagraph(state, c).entries[c.key], cs + [c], c.key)
  {
    InnerBefore(state, cs, c.key);
    var inner := if c.key in state.entries then state.entries[c.key] else Empty();
    ArticleStep(inner, cs, c);
  }

  /** Another article is untouched by the step. */
  lemma DescribesStepOtherKey(inner: Dict<string, Paragraph>, cs: seq<Contribution>, c: Contribution, key: (string, string))
    requires DescribesArticle(inner, cs, key) && key != c.key
    ensures DescribesArticle(inner, cs + [c], key)
  {
    ContributionStep(cs, c, key, c.contextId);
    assert ContextIdsOf(cs + [c], key) == ContextIdsOf(cs, key);
    forall cid | cid in inner.entries
      ensures QasFor(cs + [c], key, cid) == QasFor(cs, key, cid)
      ensures ContextFor(cs + [c], key, cid) == ContextFor(cs, key, cid)
    {
      ContributionStep(cs, c, key, cid);
    }
  }

  /** Adding a contribution keeps the description. */
  lemma DescribesStep(state: Gathered, cs: seq<Contribution>, c: Contribution)
    requires Describes(state, cs)
    ensures Describes(AddParagraph(state, c), cs + [c])
  {
    var state' := AddParagraph(state, c);
    ContributionStep(cs, c, c.key, c.contextId);
    DedupStep(KeysOf(cs), c.key);
    DescribesStepSameKey(state, cs, c);
    forall key | key in state'.entries
      ensures DescribesArticle(state'.entries[key], cs + [c], key)
    {
      if key != c.key {
        DescribesStepOtherKey(state.entries[key], cs, c, key);
      }
    }
  }

  /** The merged data is described by its contributions. */
  lemma GatherDescribes(cs: seq<Contribution>)
    ensures Describes(Gather(cs), cs)
  {
    var n := 0;
    assert cs[..0] == [];
    while n < |cs|
      invariant 0 <= n <= |cs|
      invariant Describes(Gather(cs[..n]), cs[..n])
    {
      PrefixStep(cs, n);
      GatherDescribesStep(cs[..n], cs[n], cs[..n + 1]);
      n := n + 1;
    }
    assert cs[..n] == cs;
  }

  /** Adding one contribution keeps the description of the merged data. */
  lemma GatherDescribesStep(init: seq<Contribution>, c: Contribution, cs: seq<Contribution>)
    requires cs == init + [c] && Describes(Gather(init), init)
    ensures Describes(Gather(cs), cs)
  {
    GatherStep(init, c);
    DescribesStep(Gather(init), init, c);
  }

  /** The merged dataset: one article per contributed (title, url) in first-seen order, each
      holding one paragraph per contributed context id in first-seen order, with the context
      of its last contribution and the records of all its contributions. */
  lemma MergedLayout(files: seq<seq<Article>>, sha1: Sha1)
    requires MergeSpec(files, sha1).Success?
    ensures
      var cs := Contributions(SitesOfFiles(files), sha1);
      var keys := Dedup(KeysOf(cs));
      var out := MergeSpec(files, sha1).value;
      && |out| == |keys|
      && forall i :: 0 <= i < |out| ==>
           && out[i].title == keys[i].0 && out[i].url == keys[i].1
           && |out[i].paragraphs| == |Dedup(ContextIdsOf(cs, keys[i]))|
           && forall j :: 0 <= j < |out[i].paragraphs| ==>
                var cid := Dedup(ContextIdsOf(cs, keys[i]))[j];
                out[i].paragraphs[j] == Paragraph(cid, ContextFor(cs, keys[i], cid), QasFor(cs, keys[i], cid))
  {
    var cs := Contributions(SitesOfFiles(files), sha1);
    GatherDescribes(cs);
    var state := Gather(cs);
    var out := Output(state);
    assert out == MergeSpec(files, sha1).value;
    forall i | 0 <= i < |out|
      ensures
        var key := state.keys[i];
        && out[i].title == key.0 && out[i].url == key.1
        && |out[i].paragraphs| == |Dedup(ContextIdsOf(cs, key))|
        && forall j :: 0 <= j < |out[i].paragraphs| ==>
             var cid := Dedup(ContextIdsOf(cs, key))[j];
             out[i].paragraphs[j] == Paragraph(cid, ContextFor(cs, key, cid), QasFor(cs, key, cid))
    {
      ArticleLayout(state.entries[state.keys[i]], cs, state.keys[i]);
    }
  }

  /** The paragraphs of one merged article, in first-seen order of their context ids. */
  lemma ArticleLayout(inner: Dict<string, Paragraph>, cs: seq<Contribution>, key: (string, string))
    requires DescribesArticle(inner, cs, key)
    ensures |Values(inner)| == |Dedup(ContextIdsOf(cs, key))|
    ensures forall j :: 0 <= j < |Values(inner)| ==>
      var cid := Dedup(ContextIdsOf(cs, key))[j];
      Values(inner)[j] == Paragraph(cid, ContextFor(cs, key, cid), QasFor(cs, key, cid))
  {
  }

  /** Contributions of consecutive site lists follow one another. */
  lemma {:induction false} ContributionsConcat(a: seq<Site>, b: seq<Site>, sha1: Sha1)
    ensures Contributions(a + b, sha1) == Contributions(a, sha1) + Contributions(b, sha1)
    decreases |b|
  {
    if b == [] {
      assert a + b == a;
    } else {
      var b', s := b[..|b| - 1], b[|b| - 1];
      var own := OwnContribution(s, sha1);
      assert b == b' + [s];
      calc {
        Contributions(a + b, sha1);
        { assert a + b == (a + b') + [s]; }
        Contributions((a + b') + [s], sha1);
        { ContributionsStep(a + b', s, sha1); }
        Contributions(a + b', sha1) + own;
        { ContributionsConcat(a, b', sha1); }
        Contributions(a, sha1) + Contributions(b', sha1) + own;
        { ContributionsStep(b', s, sha1); }
        Contributions(a, sha1) + Contributions(b, sha1);
      }
    }
  }

  /** Reading one more file appends its paragraphs. */
  lemma SitesOfFilesSnoc(fs: seq<seq<Article>>, f: seq<Article>)
    ensures SitesOfFiles(fs + [f]) == SitesOfFiles(fs) + SitesOfFile(f)
  {
    assert (fs + [f])[..|fs|] == fs;
  }

  /** The paragraphs of consecutive file lists follow one another. */
  lemma {:induction false} SitesOfFilesConcat(f1: seq<seq<Article>>, f2: seq<seq<Article>>)
    ensures SitesOfFiles(f1 + f2) == SitesOfFiles(f1) + SitesOfFiles(f2)
    decreases |f2|
  {
    if f2 == [] {
      assert f1 + f2 == f1;
    } else {
      var f2', f := f2[..|f2| - 1], f2[|f2| - 1];
      assert f2 == f2' + [f];
      calc {
        SitesOfFiles(f1 + f2);
        { assert f1 + f2 == (f1 + f2') + [f]; }
        SitesOfFiles((f1 + f2') + [f]);
        { SitesOfFilesSnoc(f1 + f2', f); }
        SitesOfFiles(f1 + f2') + SitesOfFile(f);
        { SitesOfFilesConcat(f1, f2'); }
        SitesOfFiles(f1) + SitesOfFiles(f2') + SitesOfFile(f);
        { SitesOfFilesSnoc(f2', f); }
        SitesOfFiles(f1) + SitesOfFiles(f2);
      }
    }
  }

  /** One more contribution appends its records to its own paragraph. */
  lemma QasForSnoc(cs: seq<Contribution>, c: Contribution, key: (string, string), cid: string)
    ensures QasFor(cs + [c], key, cid) == QasFor(cs, key, cid) + if c.key == key && c.contextId == cid then c.qas else []
  {
    assert (cs + [c])[..|cs|] == cs;
  }

  /** The records of a paragraph from consecutive contributions follow one another. */
  lemma {:induction false} QasForConcat(a: seq<Contribution>, b: seq<Contribution>, key: (string, string), cid: string)
    ensures QasFor(a + b, key, cid) == QasFor(a, key, cid) + QasFor(b, key, cid)
    decreases |b|
  {
    if b == [] {
      assert a + b == a;
    } else {
      var b', c := b[..|b| - 1], b[|b| - 1];
      var own := if c.key == key && c.contextId == cid then c.qas else [];
      assert b == b' + [c];
      calc {
        QasFor(a + b, key, cid);
        { assert a + b == (a + b') + [c]; }
        QasFor((a + b') + [c], key, cid);
        { QasForSnoc(a + b', c, key, cid); }
        QasFor(a + b', key, cid) + own;
        { QasForConcat(a, b', key, cid); }
        QasFor(a, key, cid) + QasFor(b', key, cid) + own;
        { QasForSnoc(b', c, key, cid); }
        QasFor(a, key, cid) + QasFor(b, key, cid);
      }
    }
  }

  /** Merging the files `f1 + f2` gives each paragraph the records it gets from `f1` followed
      by those it gets from `f2`: the lists are appended in file order. */
  lemma MergeAppendsInFileOrder(f1: seq<seq<Article>>, f2: seq<seq<Article>>, sha1: Sha1, key: (string, string), cid: string)
    ensures QasFor(Contributions(SitesOfFiles(f1 + f2), sha1), key, cid)
         == QasFor(Contributions(SitesOfFiles(f1), sha1), key, cid) + QasFor(Contributions(SitesOfFiles(f2), sha1), key, cid)
  {
    SitesOfFilesConcat(f1, f2);
    ContributionsConcat(SitesOfFiles(f1), SitesOfFiles(f2), sha1);
    QasForConcat(Contributions(SitesOfFiles(f1), sha1), Contributions(SitesOfFiles(f2), sha1), key, cid);
  }

  /** The context of a paragraph is the one of its last contribution: later files win. */
  lemma {:induction false} LastContextWins(a: seq<Contribution>, b: seq<Contribution>, key: (string, string), cid: string)
    requires cid in ContextIdsOf(b, key)
    ensures ContextFor(a + b, key, cid) == ContextFor(b, key, cid)
    decreases |b|
  {
    var b' := b[..|b| - 1];
    var c := b[|b| - 1];
    assert (a + b)[..|a + b| - 1] == a + b';
    assert (a + b)[|a + b| - 1] == c;
    if !(c.key == key && c.contextId == cid) {
      LastContextWins(a, b', key, cid);
    }
  }

  /** Every contribution carries records, all of them linked to an original. */
  lemma {:induction false} ContributionsLinked(sites: seq<Site>, sha1: Sha1)
    ensures forall n :: 0 <= n < |Contributions(sites, sha1)| ==>
      var c := Contributions(sites, sha1)[n];
      |c.qas| > 0 && forall k :: 0 <= k < |c.qas| ==> c.qas[k].originalId.Some?
  {
    if sites != [] {
      ContributionsLinked(sites[..|sites| - 1], sha1);
      var p := sites[|sites| - 1].paragraph;
      if Rewritten(p.contextId, p.context, p.qas, sha1).Success? {
        RewrittenLinked(p.contextId, p.context, p.qas, sha1);
      }
    }
  }

  /** The records gathered for a paragraph are all linked, and there is at least one. */
  lemma {:induction false} QasForLinked(cs: seq<Contribution>, key: (string, string), cid: string)
    requires forall n :: 0 <= n < |cs| ==> |cs[n].qas| > 0 && forall k :: 0 <= k < |cs[n].qas| ==> cs[n].qas[k].originalId.Some?
    ensures forall k :: 0 <= k < |QasFor(cs, key, cid)| ==> QasFor(cs, key, cid)[k].originalId.Some?
    ensures cid in ContextIdsOf(cs, key) ==> |QasFor(cs, key, cid)| > 0
  {
    if cs != [] {
      var init := cs[..|cs| - 1];
      QasForLinked(init, key, cid);
    }
  }

  /** Every record of the merged dataset names its original, and no paragraph is empty: the
      merged file can be grouped into contrast sets. */
  lemma MergedRecordsLinked(files: seq<seq<Article>>, sha1: Sha1)
    requires MergeSpec(files, sha1).Success?
    ensures
      var out := MergeSpec(files, sha1).value;
      forall i, j :: 0 <= i < |out| && 0 <= j < |out[i].paragraphs| ==>
        && |out[i].paragraphs[j].qas| > 0
        && forall k :: 0 <= k < |out[i].paragraphs[j].qas| ==> out[i].paragraphs[j].qas[k].originalId.Some?
  {
    var cs := Contributions(SitesOfFiles(files), sha1);
    MergedLayout(files, sha1);
    ContributionsLinked(SitesOfFiles(files), sha1);
    var keys := Dedup(KeysOf(cs));
    forall i, j | 0 <= i < |keys| && 0 <= j < |Dedup(ContextIdsOf(cs, keys[i]))|
      ensures var cid := Dedup(ContextIdsOf(cs, keys[i]))[j];
        && |QasFor(cs, keys[i], cid)| > 0
        && forall k :: 0 <= k < |QasFor(cs, keys[i], cid)| ==> QasFor(cs, keys[i], cid)[k].originalId.Some?
    {
      var cid := Dedup(ContextIdsOf(cs, keys[i]))[j];
      assert cid in Dedup(ContextIdsOf(cs, keys[i]));
      QasForLinked(cs, keys[i], cid);
    }
  }
}
