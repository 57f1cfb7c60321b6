/** The rating page's handlers (app/rate/page.tsx): the respondent scores
    every summary of the current item on four criteria, then moves on. */
module RatePage {
  import opened Types
  import opened Store
  import Data

  /** The criteria in the order the page checks them. */
  const CRITERIA: seq<Criterion> := [Accuracy, Completeness, Conciseness, Readability]

  const UNRATED: Scores := Scores(0, 0, 0, 0)

  /** The page's ratings before any star is clicked. */
  const EMPTY_RATINGS: ModelRatings := ModelRatings(UNRATED, UNRATED, UNRATED, UNRATED)

  /** The one error the page shows: some score is still missing. */
  datatype RateError = RatingsIncomplete

  /** Every model of `order` has all four criteria scored (non-zero). */
  predicate AllRated(order: seq<ModelName>, ratings: ModelRatings) {
    forall m, c :: m in order ==> ratings.Get(m).Get(c) != 0
  }

  /** validateRatings: the nested loop over the displayed models and the
      criteria, returning false at the first unscored cell. */
  method ValidateRatings(modelsOrder: seq<ModelName>, ratings: ModelRatings) returns (ok: bool)
    ensures ok <==> AllRated(modelsOrder, ratings)
  {
    var i := 0;
    while i < |modelsOrder|
      invariant 0 <= i <= |modelsOrder|
      invariant forall m, c :: m in modelsOrder[..i] ==> ratings.Get(m).Get(c) != 0
    {
      var model := modelsOrder[i];
      var j := 0;
      while j < |CRITERIA|
        invariant 0 <= j <= |CRITERIA|
        invariant forall c :: c in CRITERIA[..j] ==> ratings.Get(model).Get(c) != 0
      {
        if ratings.Get(model).Get(CRITERIA[j]) == 0 {
          return false;
        }
        j := j + 1;
      }
      forall c
        ensures c in CRITERIA
      {
        assert CRITERIA[CriterionIndex(c)] == c;
      }
      assert CRITERIA[..j] == CRITERIA;
      assert modelsOrder[..i + 1] == modelsOrder[..i] + [model];
      i := i + 1;
    }
    assert modelsOrder[..i] == modelsOrder;
    return true;
  }

  /** Position of `c` in CRITERIA. */
  function CriterionIndex(c: Criterion): (k: nat)
    ensures k < |CRITERIA| && CRITERIA[k] == c
  {
    match c
    case Accuracy => 0
    case Completeness => 1
    case Conciseness => 2
    case Readability => 3
  }

  /** With no model order to check, the ratings count as complete. */
  lemma EmptyOrderIsComplete(ratings: ModelRatings)
    ensures AllRated([], ratings)
  {
  }

  /** The grid after a star click: exactly one cell changes. */
  function RatingChanged(ratings: ModelRatings, model: ModelName, criterion: Criterion, value: int): (r: ModelRatings)
    ensures r.Get(model).Get(criterion) == value
    ensures forall m, c :: (m, c) != (model, criterion) ==> r.Get(m).Get(c) == ratings.Get(m).Get(c)
  {
    ratings.With(model, ratings.Get(model).With(criterion, value))
  }

  class Page {
    const store: SurveyStore
    var ratings: ModelRatings
    var error: Option<RateError>
    /** Where the page sent the browser, if anywhere. */
    var route: Option<string>
    /** The cursor value the reset effect last ran for. */
    var renderedIndex: int

    /** Mounting the page runs the reset effect once. */
    constructor (store: SurveyStore)
      ensures this.store == store
      ensures ratings == EMPTY_RATINGS && error == None && route == None
      ensures renderedIndex == store.currentIndex
    {
      this.store := store;
      ratings, error, route := EMPTY_RATINGS, None, None;
      renderedIndex := store.currentIndex;
    }

    /** The displayed model order: the cached order of the current item, or
        no models at all when there is none. With every cached order a
        shuffle of MODEL_NAMES, the page shows the four models once each or
        none at all. */
    function ModelsOrder(): (order: seq<ModelName>)
      reads store
      ensures store.GetCurrentNews().None? ==> order == []
      ensures store.GetCurrentNews().Some? && store.GetCurrentNews().value.id in store.shuffledModels
              ==> order == store.shuffledModels[store.GetCurrentNews().value.id]
      ensures store.GetCurrentNews().Some? && store.GetCurrentNews().value.id !in store.shuffledModels
              ==> order == []
      ensures Data.AllModelOrders(store.shuffledModels) ==> order == [] || Data.IsModelOrder(order)
    {
      var current := store.GetCurrentNews();
      if current.Some? && current.value.id in store.shuffledModels
      then store.shuffledModels[current.value.id]
      else []
    }

    /** The effect keyed on the cursor: whenever the cursor differs from the
        one it last ran for, the grid goes back to all zeros and the error is
        cleared. */
    method ResetOnIndexChange()
      modifies this
      ensures renderedIndex == store.currentIndex && route == old(route)
      ensures if store.currentIndex != old(renderedIndex)
              then ratings == EMPTY_RATINGS && error == None
              else ratings == old(ratings) && error == old(error)
    {
      if store.currentIndex != renderedIndex {
        ratings, error := EMPTY_RATINGS, None;
        renderedIndex := store.currentIndex;
      }
    }

    /** handleRatingChange: a star click (StarRating only emits 1 to 5). */
    method HandleRatingChange(model: ModelName, criterion: Criterion, value: int)
      requires 1 <= value <= 5
      modifies this
      ensures ratings == RatingChanged(old(ratings), model, criterion, value)
      ensures error == None && route == old(route) && renderedIndex == old(renderedIndex)
    {
      ratings := ratings.With(model, ratings.Get(model).With(criterion, value));
      error := None;
    }

    /** handleNext: refuse incomplete ratings; otherwise append one answer for
        the current item (even if one was appended before) and either go to
        the demographics form on the last item or advance the cursor. */
    method HandleNext()
      requires store.Valid() && store.GetCurrentNews().Some?
      modifies this, store
      ensures store.Valid()
      ensures ratings == old(ratings) && renderedIndex == old(renderedIndex)
      ensures var current := old(store.GetCurrentNews()).value;
        if !AllRated(old(ModelsOrder()), old(ratings)) then
          && error == Some(RatingsIncomplete) && route == old(route)
          && store.State() == old(store.State())
        else
          && error == old(error)
          && var answered := old(store.State()).(ratingAnswers := old(store.ratingAnswers) +
                               [RatingAnswer(current.id, current.category, old(ratings))]);
          if old(store.IsLastNews()) then
            route == Some("/demographics") && store.State() == answered
          else
            route == old(route) &&
            store.State() == answered.(currentIndex := NextIndex(old(store.currentIndex), |old(store.selectedNews)|))
    {
      var ok := ValidateRatings(ModelsOrder(), ratings);
      if !ok {
        error := Some(RatingsIncomplete);
        return;
      }
      var current := store.GetCurrentNews().value;
      store.AddRatingAnswer(RatingAnswer(current.id, current.category, ratings));
      if store.IsLastNews() {
        route := Some("/demographics");
      } else {
        store.NextNews();
      }
    }

    /** handlePrevious: step back only when not on the first item. */
    method HandlePrevious()
      requires store.Valid()
      modifies store
      ensures store.Valid()
      ensures store.State() ==
                if old(store.currentIndex) > 0
                then old(store.State()).(currentIndex := old(store.currentIndex) - 1)
                else old(store.State())
    {
      if store.currentIndex > 0 {
        store.PreviousNews();
      }
    }
  }

  /** An item whose model order is not cached shows no models, so any grid,
      even the untouched all-zero one, passes validation and is accepted. */
  lemma MissingOrderAccepted(page: Page, ratings: ModelRatings)
    requires page.store.GetCurrentNews().Some?
    requires page.store.GetCurrentNews().value.id !in page.store.shuffledModels
    ensures page.ModelsOrder() == [] && AllRated(page.ModelsOrder(), ratings)
  {
  }

  /** A respondent clicking star `value` for every model and criterion. */
  method RateEverything(page: Page, value: int)
    requires 1 <= value <= 5
    modifies page
    ensures forall m, c :: page.ratings.Get(m).Get(c) == value
    ensures page.error == None && page.route == old(page.route) && page.renderedIndex == old(page.renderedIndex)
  {
    var models := Data.MODEL_NAMES;
    for i := 0 to |models|
      invariant forall k, c :: 0 <= k < i ==> page.ratings.Get(models[k]).Get(c) == value
      invariant i > 0 ==> page.error == None
      invariant page.route == old(page.route) && page.renderedIndex == old(page.renderedIndex)
    {
      for j := 0 to |CRITERIA|
        invariant forall k, c :: 0 <= k < i ==> page.ratings.Get(models[k]).Get(c) == value
        invariant forall c :: c in CRITERIA[..j] ==> page.ratings.Get(models[i]).Get(c) == value
        invariant i > 0 || j > 0 ==> page.error == None
        invariant page.route == old(page.route) && page.renderedIndex == old(page.renderedIndex)
      {
        page.HandleRatingChange(models[i], CRITERIA[j], value);
      }
      forall c
        ensures page.ratings.Get(models[i]).Get(c) == value
      {
        assert c in CRITERIA[..|CRITERIA|] by {
          assert CRITERIA[CriterionIndex(c)] == c;
        }
      }
    }
    forall m, c
      ensures page.ratings.Get(m).Get(c) == value
    {
      assert models[ModelIndex(m)] == m;
    }
  }

  /** Going back and submitting again appends a second answer for the same
      item: the store keeps both. */
  method ResubmitAfterGoingBack(page: Page)
    requires page.store.Valid() && page.store.currentIndex == 1 && |page.store.selectedNews| >= 3
    requires page.renderedIndex == page.store.currentIndex
    modifies page, page.store
    ensures var answers := page.store.ratingAnswers;
      && |answers| == |old(page.store.ratingAnswers)| + 2
      && answers[|answers| - 2].newsId == answers[|answers| - 1].newsId == old(page.store.selectedNews[1]).id
      && answers[|answers| - 2].modelRatings.Get(Gpt).Get(Accuracy) == 5
      && answers[|answers| - 1].modelRatings.Get(Gpt).Get(Accuracy) == 4
  {
    RateEverything(page, 5);
    page.HandleNext();
    page.ResetOnIndexChange();
    page.HandlePrevious();
    page.ResetOnIndexChange();
    RateEverything(page, 4);
    page.HandleNext();
  }
}
