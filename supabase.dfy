/** Submission of a finished survey (lib/supabase.ts): a survey record first,
    then the answer rows, each written by one insert into the hosted database.
    The database is modelled as a collaborator whose every insert either
    succeeds or fails with a message; which one it does is supplied by the
    caller as the database's reply. */
module Supabase {
  import opened Types

  /** A row of `survey_responses`. */
  datatype SurveyRecord = SurveyRecord(sessionId: string, mode: SurveyMode, newsCount: int)

  /** A row of `compare_answers`. */
  datatype CompareRow = CompareRow(sessionId: string, newsCategory: Category, newsId: string, selectedModel: ModelName)

  /** A row of `rating_answers`. */
  datatype RatingRow = RatingRow(
    sessionId: string, newsCategory: Category, newsId: string, modelName: ModelName,
    accuracy: int, completeness: int, conciseness: int, readability: int)

  datatype Table = SurveyResponses | CompareAnswers | RatingAnswers

  /** What the database answers to one insert. */
  datatype Reply = Ok | Error(message: string)

  /** Why a save threw: the survey record or the answer rows were refused. */
  datatype SaveError = SurveyResponseFailed(message: string) | AnswersFailed(message: string)

  /** The database: three tables and the log of every insert request sent. */
  class Database {
    var surveyResponses: seq<SurveyRecord>
    var compareAnswers: seq<CompareRow>
    var ratingAnswers: seq<RatingRow>
    var requests: seq<Table>

    constructor ()
      ensures surveyResponses == [] && compareAnswers == [] && ratingAnswers == [] && requests == []
    {
      surveyResponses, compareAnswers, ratingAnswers, requests := [], [], [], [];
    }

    /** One insert into `survey_responses`; a refused insert writes nothing. */
    method InsertSurveyResponse(record: SurveyRecord, reply: Reply)
      modifies this
      ensures requests == old(requests) + [SurveyResponses]
      ensures surveyResponses == old(surveyResponses) + (if reply.Ok? then [record] else [])
      ensures compareAnswers == old(compareAnswers) && ratingAnswers == old(ratingAnswers)
    {
      requests := requests + [SurveyResponses];
      if reply.Ok? {
        surveyResponses := surveyResponses + [record];
      }
    }

    /** One batch insert into `compare_answers`; all rows or none. */
    method InsertCompareAnswers(rows: seq<CompareRow>, reply: Reply)
      modifies this
      ensures requests == old(requests) + [CompareAnswers]
      ensures compareAnswers == old(compareAnswers) + (if reply.Ok? then rows else [])
      ensures surveyResponses == old(surveyResponses) && ratingAnswers == old(ratingAnswers)
    {
      requests := requests + [CompareAnswers];
      if reply.Ok? {
        compareAnswers := compareAnswers + rows;
      }
    }

    /** One batch insert into `rating_answers`; all rows or none. */
    method InsertRatingAnswers(rows: seq<RatingRow>, reply: Reply)
      modifies this
      ensures requests == old(requests) + [RatingAnswers]
      ensures ratingAnswers == old(ratingAnswers) + (if reply.Ok? then rows else [])
      ensures surveyResponses == old(surveyResponses) && compareAnswers == old(compareAnswers)
    {
      requests := requests + [RatingAnswers];
      if reply.Ok? {
        ratingAnswers := ratingAnswers + rows;
      }
    }
  }

  // ---------------------------------------------------------------------
  // Row building
  // ---------------------------------------------------------------------

  /** The compare rows: one per answer, in answer order. */
  function CompareRows(sessionId: string, answers: seq<CompareAnswer>): (rows: seq<CompareRow>)
    ensures |rows| == |answers|
    ensures forall i :: 0 <= i < |rows| ==>
              rows[i].sessionId == sessionId &&
              rows[i].newsCategory == answers[i].category &&
              rows[i].newsId == answers[i].newsId &&
              rows[i].selectedModel == answers[i].selectedModel
  {
    seq(|answers|, i requires 0 <= i < |answers| =>
      CompareRow(sessionId, answers[i].category, answers[i].newsId, answers[i].selectedModel))
  }

  /** Rows of one answer follow the rows of the answers before it. */
  lemma CompareRowsAppend(sessionId: string, a: seq<CompareAnswer>, b: seq<CompareAnswer>)
    ensures CompareRows(sessionId, a + b) == CompareRows(sessionId, a) + CompareRows(sessionId, b)
  {
  }

  /** The rows of one rating answer, one per entry of its ratings record:
      four rows, the one for model m at m's key position, copying m's four
      scores. */
  function AnswerRows(sessionId: string, answer: RatingAnswer): (rows: seq<RatingRow>)
    ensures |rows| == 4
    ensures forall m :: var sc := answer.modelRatings.Get(m);
              rows[ModelIndex(m)] == RatingRow(sessionId, answer.category, answer.newsId, m,
                                               sc.accuracy, sc.completeness, sc.conciseness, sc.readability)
  {
    var es := answer.modelRatings.Entries();
    seq(|es|, k requires 0 <= k < |es| =>
      RatingRow(sessionId, answer.category, answer.newsId, es[k].0,
                es[k].1.accuracy, es[k].1.completeness, es[k].1.conciseness, es[k].1.readability))
  }

  /** The flattened rating rows: the rows of each answer, answer by answer. */
  function RatingRows(sessionId: string, answers: seq<RatingAnswer>): (rows: seq<RatingRow>)
    ensures |rows| == 4 * |answers|
  {
    if answers == [] then []
    else AnswerRows(sessionId, answers[0]) + RatingRows(sessionId, answers[1..])
  }

  /** The row for answer `i` and model `m` sits at 4*i + the model's key
      position, carries the session id, and copies the four scores
      unchanged; there are 4 rows per answer. */
  lemma {:induction false} RatingRowsLayout(sessionId: string, answers: seq<RatingAnswer>)
    ensures |RatingRows(sessionId, answers)| == 4 * |answers|
    ensures forall i, m :: 0 <= i < |answers| ==>
              var row := RatingRows(sessionId, answers)[4 * i + ModelIndex(m)];
              var sc := answers[i].modelRatings.Get(m);
              row == RatingRow(sessionId, answers[i].category, answers[i].newsId, m,
                               sc.accuracy, sc.completeness, sc.conciseness, sc.readability)
  {
    if answers != [] {
      RatingRowsLayout(sessionId, answers[1..]);
      var rows := RatingRows(sessionId, answers);
      forall i, m | 0 <= i < |answers|
        ensures rows[4 * i + ModelIndex(m)] ==
                  var sc := answers[i].modelRatings.Get(m);
                  RatingRow(sessionId, answers[i].category, answers[i].newsId, m,
                            sc.accuracy, sc.completeness, sc.conciseness, sc.readability)
      {
        if i > 0 {
          assert 4 * i + ModelIndex(m) == 4 + (4 * (i - 1) + ModelIndex(m));
          assert answers[1..][i - 1] == answers[i];
        }
      }
    }
  }

  /** Rows of later answers follow the rows of earlier ones. */
  lemma {:induction false} RatingRowsAppend(sessionId: string, a: seq<RatingAnswer>, b: seq<RatingAnswer>)
    ensures RatingRows(sessionId, a + b) == RatingRows(sessionId, a) + RatingRows(sessionId, b)
  {
    if a == [] {
      assert a + b == b;
    } else {
      assert (a + b)[1..] == a[1..] + b;
      RatingRowsAppend(sessionId, a[1..], b);
    }
  }

  // ---------------------------------------------------------------------
  // The two-step saves
  // ---------------------------------------------------------------------

  /** saveCompareResponse: insert the survey record; if that is refused,
      throw without touching the answers table; otherwise insert one row per
      answer and throw if that is refused, leaving the survey record in
      place. On success, return the survey record. */
  method SaveCompareResponse(db: Database, sessionId: string, newsCount: int, answers: seq<CompareAnswer>,
                             surveyReply: Reply, answersReply: Reply)
    returns (r: Result<SurveyRecord, SaveError>)
    modifies db
    ensures var record := SurveyRecord(sessionId, Compare, newsCount);
      && db.requests == old(db.requests) + [SurveyResponses] + (if surveyReply.Ok? then [CompareAnswers] else [])
      && db.surveyResponses == old(db.surveyResponses) + (if surveyReply.Ok? then [record] else [])
      && db.compareAnswers == old(db.compareAnswers) +
           (if surveyReply.Ok? && answersReply.Ok? then CompareRows(sessionId, answers) else [])
      && db.ratingAnswers == old(db.ratingAnswers)
      && r == (if surveyReply.Error? then Failure(SurveyResponseFailed(surveyReply.message))
               else if answersReply.Error? then Failure(AnswersFailed(answersReply.message))
               else Success(record))
  {
    var record := SurveyRecord(sessionId, Compare, newsCount);
    db.InsertSurveyResponse(record, surveyReply);
    if surveyReply.Error? {
      return Failure(SurveyResponseFailed(surveyReply.message));
    }
    var answersToInsert := CompareRows(sessionId, answers);
    db.InsertCompareAnswers(answersToInsert, answersReply);
    if answersReply.Error? {
      return Failure(AnswersFailed(answersReply.message));
    }
    return Success(record);
  }

  /** saveRatingResponse: as saveCompareResponse with mode 'rate' and the
      flattened rating rows. It takes no demographics, so none are saved. */
  method SaveRatingResponse(db: Database, sessionId: string, newsCount: int, answers: seq<RatingAnswer>,
                            surveyReply: Reply, answersReply: Reply)
    returns (r: Result<SurveyRecord, SaveError>)
    modifies db
    ensures var record := SurveyRecord(sessionId, Rate, newsCount);
      && db.requests == old(db.requests) + [SurveyResponses] + (if surveyReply.Ok? then [RatingAnswers] else [])
      && db.surveyResponses == old(db.surveyResponses) + (if surveyReply.Ok? then [record] else [])
      && db.ratingAnswers == old(db.ratingAnswers) +
           (if surveyReply.Ok? && answersReply.Ok? then RatingRows(sessionId, answers) else [])
      && db.compareAnswers == old(db.compareAnswers)
      && r == (if surveyReply.Error? then Failure(SurveyResponseFailed(surveyReply.message))
               else if answersReply.Error? then Failure(AnswersFailed(answersReply.message))
               else Success(record))
  {
    var record := SurveyRecord(sessionId, Rate, newsCount);
    db.InsertSurveyResponse(record, surveyReply);
    if surveyReply.Error? {
      return Failure(SurveyResponseFailed(surveyReply.message));
    }
    var ratingsToInsert := RatingRows(sessionId, answers);
    db.InsertRatingAnswers(ratingsToInsert, answersReply);
    if answersReply.Error? {
      return Failure(AnswersFailed(answersReply.message));
    }
    return Success(record);
  }
}
