/** The value types of the survey: models, categories, news items and the two
    kinds of answer (lib/types.ts), plus the optional and result wrappers the
    rest of the model uses for JavaScript's `null` and thrown errors. */
module Types {

  datatype Option<+T> = None | Some(value: T)

  datatype Result<+T, +E> = Success(value: T) | Failure(error: E)

  /** The four summarising models compared by respondents. */
  datatype ModelName = Gpt | Pathumma | Qwen | Typhoon

  /** The three news categories. */
  datatype Category = Social | Economy | Technology

  /** Which of the two flows a survey record belongs to ('compare' or 'rate'). */
  datatype SurveyMode = Compare | Rate

  /** A news item as loaded from the catalog; `summaries` is passed through
      from the catalog document unchanged. */
  datatype NewsItem = NewsItem(id: string, category: Category, url: string, summaries: map<ModelName, string>)

  /** Answer of the choice flow: the summary the respondent liked best. */
  datatype CompareAnswer = CompareAnswer(newsId: string, category: Category, selectedModel: ModelName)

  /** The four rating criteria, in the order the rating page lists them. */
  datatype Criterion = Accuracy | Completeness | Conciseness | Readability

  /** The four scores one model receives; 0 means "not rated yet". */
  datatype Scores = Scores(accuracy: int, completeness: int, conciseness: int, readability: int)
  {
    function Get(c: Criterion): int {
      match c
      case Accuracy => accuracy
      case Completeness => completeness
      case Conciseness => conciseness
      case Readability => readability
    }

    /** This record with the score for `c` replaced by `v`. */
    function With(c: Criterion, v: int): (s: Scores)
      ensures s.Get(c) == v
      ensures forall c' :: c' != c ==> s.Get(c') == Get(c')
    {
      match c
      case Accuracy => this.(accuracy := v)
      case Completeness => this.(completeness := v)
      case Conciseness => this.(conciseness := v)
      case Readability => this.(readability := v)
    }
  }

  /** Scores for every model. The source's type is a record keyed by all four
      model names, so every model is always present. */
  datatype ModelRatings = ModelRatings(gpt: Scores, pathumma: Scores, qwen: Scores, typhoon: Scores)
  {
    function Get(m: ModelName): Scores {
      match m
      case Gpt => gpt
      case Pathumma => pathumma
      case Qwen => qwen
      case Typhoon => typhoon
    }

    /** This record with the scores of `m` replaced by `s`. */
    function With(m: ModelName, s: Scores): (r: ModelRatings)
      ensures r.Get(m) == s
      ensures forall m' :: m' != m ==> r.Get(m') == Get(m')
    {
      match m
      case Gpt => this.(gpt := s)
      case Pathumma => this.(pathumma := s)
      case Qwen => this.(qwen := s)
      case Typhoon => this.(typhoon := s)
    }

    /** The record's entries in key order. The rating page builds the record
        with the keys gpt, pathumma, qwen, typhoon and only ever replaces
        values, so enumerating its entries yields them in this order. */
    function Entries(): (es: seq<(ModelName, Scores)>)
      ensures |es| == 4
      ensures forall k :: 0 <= k < 4 ==> es[k].1 == Get(es[k].0)
      ensures forall m :: es[ModelIndex(m)] == (m, Get(m))
    {
      [(Gpt, gpt), (Pathumma, pathumma), (Qwen, qwen), (Typhoon, typhoon)]
    }
  }

  /** Position of `m` in the key order gpt, pathumma, qwen, typhoon. */
  function ModelIndex(m: ModelName): (k: nat)
    ensures k < 4
  {
    match m
    case Gpt => 0
    case Pathumma => 1
    case Qwen => 2
    case Typhoon => 3
  }

  /** Answer of the rating flow: scores for every model on every criterion. */
  datatype RatingAnswer = RatingAnswer(newsId: string, category: Category, modelRatings: ModelRatings)

  /** The respondent's personal data. lib/types.ts does not define
      this type; the model keeps it as the three values the demographics page
      collects. */
  datatype Demographics = Demographics(age: int, gender: string, occupation: string)
}
