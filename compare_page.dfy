/** The choice page's handlers (app/compare/page.tsx): the respondent picks
    the best summary of each item; the last pick is submitted together with
    the earlier ones. */
module ComparePage {
  import opened Types
  import opened Store
  import Data
  import Supabase

  /** `!sessionId`: no session id, or the empty one. */
  predicate MissingSession(sessionId: Option<string>) {
    sessionId.None? || sessionId.value == ""
  }

  /** The errors the page shows. */
  datatype CompareError = NoSelection | MissingSessionId | SaveFailed

  /** The answers handleSubmit sends: the stored ones plus the final pick,
      which is not itself added to the store. */
  function AllAnswers(stored: seq<CompareAnswer>, finalAnswer: CompareAnswer): (r: seq<CompareAnswer>)
    ensures |r| == |stored| + 1 && r[..|stored|] == stored && r[|stored|] == finalAnswer
  {
    stored + [finalAnswer]
  }

  class Page {
    const store: SurveyStore
    var selectedModel: Option<ModelName>
    var error: Option<CompareError>
    var isSubmitting: bool
    /** Where the page sent the browser, if anywhere. */
    var route: Option<string>
    /** The cursor value the selection-reset effect last ran for. */
    var renderedIndex: int

    constructor (store: SurveyStore)
      ensures this.store == store
      ensures selectedModel == None && error == None && !isSubmitting && route == None
      ensures renderedIndex == store.currentIndex
    {
      this.store := store;
      selectedModel, error, isSubmitting, route := None, None, false, None;
      renderedIndex := store.currentIndex;
    }

    /** The order the summaries are shown in: the cached order of the
        current item, or MODEL_NAMES when none is cached yet. As long as every
        cached order is a shuffle of MODEL_NAMES, the page shows each of the
        four models exactly once. */
    function DisplayedOrder(): (order: seq<ModelName>)
      reads store
      requires store.GetCurrentNews().Some?
      ensures store.GetCurrentNews().value.id !in store.shuffledModels ==> order == Data.MODEL_NAMES
      ensures Data.AllModelOrders(store.shuffledModels) ==> Data.IsModelOrder(order)
    {
      var id := store.GetCurrentNews().value.id;
      if id in store.shuffledModels then store.shuffledModels[id] else Data.MODEL_NAMES
    }

    /** The lazy-shuffle effect: a current item without a cached order gets a
        fresh permutation of MODEL_NAMES; an existing order is never
        replaced. */
    method EnsureShuffled()
      requires store.Valid()
      modifies store
      ensures store.Valid()
      ensures var current := old(store.GetCurrentNews());
        if current.Some? && current.value.id !in old(store.shuffledModels) then
          && store.State() == old(store.State()).(shuffledModels := store.shuffledModels)
          && store.shuffledModels.Keys == old(store.shuffledModels).Keys + {current.value.id}
          && multiset(store.shuffledModels[current.value.id]) == multiset(Data.MODEL_NAMES)
          && forall k :: k in old(store.shuffledModels) ==> store.shuffledModels[k] == old(store.shuffledModels)[k]
        else
          store.State() == old(store.State())
    {
      var current := store.GetCurrentNews();
      if current.Some? && current.value.id !in store.shuffledModels {
        var shuffled := Data.ShuffleModels(Data.MODEL_NAMES);
        store.SetShuffledModels(current.value.id, shuffled);
      }
    }

    /** The effect keyed on the cursor: a new item starts with no pick and no
        error. */
    method ResetOnIndexChange()
      modifies this
      ensures renderedIndex == store.currentIndex
      ensures route == old(route) && isSubmitting == old(isSubmitting)
      ensures if store.currentIndex != old(renderedIndex)
              then selectedModel == None && error == None
              else selectedModel == old(selectedModel) && error == old(error)
    {
      if store.currentIndex != renderedIndex {
        selectedModel, error := None, None;
        renderedIndex := store.currentIndex;
      }
    }

    /** A click on one of the summaries. */
    method SelectModel(m: ModelName)
      modifies this
      ensures selectedModel == Some(m)
      ensures error == old(error) && route == old(route) && isSubmitting == old(isSubmitting)
      ensures renderedIndex == old(renderedIndex)
    {
      selectedModel := Some(m);
    }

    /** handleNext: without a pick, show the error; otherwise append one
        answer and advance unless this is the last item. */
    method HandleNext()
      requires store.Valid() && store.GetCurrentNews().Some?
      modifies this, store
      ensures store.Valid()
      ensures selectedModel == old(selectedModel) && route == old(route)
      ensures isSubmitting == old(isSubmitting) && renderedIndex == old(renderedIndex)
      ensures var current := old(store.GetCurrentNews()).value;
        if old(selectedModel).None? then
          error == Some(NoSelection) && store.State() == old(store.State())
        else
          && error == None
          && var answered := old(store.State()).(compareAnswers := old(store.compareAnswers) +
                               [CompareAnswer(current.id, current.category, old(selectedModel).value)]);
          store.State() ==
            if old(store.IsLastNews()) then answered
            else answered.(currentIndex := NextIndex(old(store.currentIndex), |old(store.selectedNews)|))
    {
      if selectedModel.None? {
        error := Some(NoSelection);
        return;
      }
      var current := store.GetCurrentNews().value;
      store.AddCompareAnswer(CompareAnswer(current.id, current.category, selectedModel.value));
      error := None;
      if !store.IsLastNews() {
        store.NextNews();
      }
    }

    /** handleSubmit: without a pick or without a session id, show the error
        and save nothing. Otherwise save the stored answers plus the final
        pick under the configured newsCount; go to the thank-you page on
        success, or show the error and allow another try on failure. The
        store is never changed, so a retry sends the same answers again. */
    method HandleSubmit(db: Supabase.Database, surveyReply: Supabase.Reply, answersReply: Supabase.Reply)
      requires store.Valid() && store.GetCurrentNews().Some?
      modifies this, db
      ensures store.State() == old(store.State())
      ensures selectedModel == old(selectedModel) && renderedIndex == old(renderedIndex)
      ensures var current := store.GetCurrentNews().value;
        if selectedModel.None? || MissingSession(store.sessionId) then
          && error == Some(if selectedModel.None? then NoSelection else MissingSessionId)
          && route == old(route) && isSubmitting == old(isSubmitting)
          && db.requests == old(db.requests)
          && db.surveyResponses == old(db.surveyResponses)
          && db.compareAnswers == old(db.compareAnswers)
          && db.ratingAnswers == old(db.ratingAnswers)
        else
          var sent := AllAnswers(store.compareAnswers, CompareAnswer(current.id, current.category, selectedModel.value));
          var record := Supabase.SurveyRecord(store.sessionId.value, Compare, store.newsCount);
          && db.requests == old(db.requests) + [Supabase.SurveyResponses] +
               (if surveyReply.Ok? then [Supabase.CompareAnswers] else [])
          && db.surveyResponses == old(db.surveyResponses) + (if surveyReply.Ok? then [record] else [])
          && db.compareAnswers == old(db.compareAnswers) +
               (if surveyReply.Ok? && answersReply.Ok? then Supabase.CompareRows(store.sessionId.value, sent) else [])
          && db.ratingAnswers == old(db.ratingAnswers)
          && if surveyReply.Ok? && answersReply.Ok? then
               route == Some("/thank-you") && isSubmitting && error == old(error)
             else
               route == old(route) && !isSubmitting && error == Some(SaveFailed)
    {
      if selectedModel.None? {
        error := Some(NoSelection);
        return;
      }
      var current := store.GetCurrentNews().value;
      var finalAnswer := CompareAnswer(current.id, current.category, selectedModel.value);
      var allAnswers := AllAnswers(store.compareAnswers, finalAnswer);
      if MissingSession(store.sessionId) {
        error := Some(MissingSessionId);
        return;
      }
      isSubmitting := true;
      var saved := Supabase.SaveCompareResponse(db, store.sessionId.value, store.newsCount, allAnswers,
                                                surveyReply, answersReply);
      if saved.Success? {
        route := Some("/thank-you");
      } else {
        error := Some(SaveFailed);
        isSubmitting := false;
      }
    }
  }

  /** Leaving an item and coming back shows it in the same order: the lazy
      shuffle runs once per item and the cached order is what is displayed. */
  method RevisitShowsSameOrder(page: Page) returns (first: seq<ModelName>, again: seq<ModelName>)
    requires page.store.Valid() && page.store.currentIndex == 0 && |page.store.selectedNews| >= 2
    modifies page.store
    ensures first == again
    ensures page.store.selectedNews == old(page.store.selectedNews) && page.store.currentIndex == 0
    ensures var id := page.store.selectedNews[0].id;
            id in page.store.shuffledModels && first == page.store.shuffledModels[id]
    ensures Data.AllModelOrders(old(page.store.shuffledModels)) ==> Data.IsModelOrder(first)
  {
    page.EnsureShuffled();
    first := page.DisplayedOrder();
    page.store.NextNews();
    page.EnsureShuffled();
    page.store.PreviousNews();
    page.EnsureShuffled();
    again := page.DisplayedOrder();
  }
}
