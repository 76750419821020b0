/** The records of a dataset file: articles hold paragraphs, paragraphs hold question-answer
    records.  A JSON field that may be absent is an `Option`. */
module Records {
  import opened Results

  datatype Answer = Answer(text: string, answerStart: int)

  /** A question-answer record; `originalId` is the lineage link of a perturbed record. */
  datatype QA = QA(id: string, question: string, answers: seq<Answer>, originalId: Option<string>)

  datatype Paragraph = Paragraph(contextId: string, context: string, qas: seq<QA>)

  datatype Article = Article(title: string, url: string, paragraphs: seq<Paragraph>)

  /** The records of some paragraphs, in file order. */
  function QasOfParagraphs(ps: seq<Paragraph>): seq<QA>
  {
    if ps == [] then [] else QasOfParagraphs(ps[..|ps| - 1]) + ps[|ps| - 1].qas
  }

  /** The records of some articles, in file order: the order of the nested loops
      over articles, paragraphs and records. */
  function QasOfArticles(articles: seq<Article>): seq<QA>
  {
    if articles == [] then []
    else QasOfArticles(articles[..|articles| - 1]) + QasOfParagraphs(articles[|articles| - 1].paragraphs)
  }

  /** The `text` fields of some answers, in order. */
  function Texts(answers: seq<Answer>): (r: seq<string>)
    ensures |r| == |answers|
    ensures forall i :: 0 <= i < |r| ==> r[i] == answers[i].text
  {
    seq(|answers|, i requires 0 <= i < |answers| => answers[i].text)
  }

  /** Visiting one more paragraph appends its records. */
  lemma QasOfParagraphsStep(ps: seq<Paragraph>, j: nat)
    requires j < |ps|
    ensures QasOfParagraphs(ps[..j + 1]) == QasOfParagraphs(ps[..j]) + ps[j].qas
  {
    assert ps[..j + 1][..j] == ps[..j];
  }

  /** Visiting one more article appends the records of its paragraphs. */
  lemma QasOfArticlesStep(articles: seq<Article>, i: nat)
    requires i < |articles|
    ensures QasOfArticles(articles[..i + 1]) == QasOfArticles(articles[..i]) + QasOfParagraphs(articles[i].paragraphs)
  {
    assert articles[..i + 1][..i] == articles[..i];
  }

  /** Every record of every paragraph is among the paragraphs' records. */
  lemma {:induction false} InQasOfParagraphs(ps: seq<Paragraph>, j: nat, k: nat)
    requires j < |ps| && k < |ps[j].qas|
    ensures ps[j].qas[k] in QasOfParagraphs(ps)
  {
    if j < |ps| - 1 {
      InQasOfParagraphs(ps[..|ps| - 1], j, k);
    } else {
      assert QasOfParagraphs(ps)[|QasOfParagraphs(ps[..|ps| - 1])| + k] == ps[j].qas[k];
    }
  }

  /** Every record of the data is visited by the walk over articles and paragraphs. */
  lemma {:induction false} InQasOfArticles(articles: seq<Article>, i: nat, j: nat, k: nat)
    requires i < |articles| && j < |articles[i].paragraphs| && k < |articles[i].paragraphs[j].qas|
    ensures articles[i].paragraphs[j].qas[k] in QasOfArticles(articles)
  {
    if i < |articles| - 1 {
      InQasOfArticles(articles[..|articles| - 1], i, j, k);
    } else {
      InQasOfParagraphs(articles[i].paragraphs, j, k);
    }
  }
}
