/** The survey session store (lib/store.ts): one object whose actions replace
    some of its fields and leave the others as they were. */
module Store {
  import opened Types

  /** Every field of the store, as one value, so that an action's effect can
      be stated as "the old state with these fields replaced". */
  datatype StoreState = StoreState(
    newsCount: int,
    mode: Option<SurveyMode>,
    sessionId: Option<string>,
    selectedNews: seq<NewsItem>,
    currentIndex: int,
    shuffledModels: map<string, seq<ModelName>>,
    compareAnswers: seq<CompareAnswer>,
    ratingAnswers: seq<RatingAnswer>,
    demographics: Option<Demographics>)

  /** The state the store is created with and that `reset` restores. */
  const INITIAL: StoreState :=
    StoreState(3, None, None, [], 0, map[], [], [], None)

  /** The cursor invariant: inside the list when the list is non-empty;
      0, or -1 after advancing on an empty list, when it is empty. */
  predicate CursorInBounds(i: int, len: nat) {
    if len == 0 then -1 <= i <= 0 else 0 <= i < len
  }

  /** `nextNews`: one step forward, clamped to the last index. */
  function NextIndex(i: int, len: nat): (r: int)
    ensures r <= i + 1 && r <= len - 1
    ensures r == i + 1 || r == len - 1
    ensures i == len - 1 ==> r == i
    ensures len > 0 && 0 <= i < len ==> 0 <= r < len
    ensures len == 0 && -1 <= i ==> r == -1
    ensures CursorInBounds(i, len) ==> CursorInBounds(r, len)
  {
    if i + 1 < len - 1 then i + 1 else len - 1
  }

  /** `previousNews`: one step back, clamped to 0. */
  function PreviousIndex(i: int): (r: int)
    ensures r >= 0
    ensures r >= i - 1 && (r == i - 1 || r == 0)
    ensures i == 0 ==> r == 0
    ensures forall len: nat :: CursorInBounds(i, len) ==> CursorInBounds(r, len)
  {
    if i - 1 > 0 then i - 1 else 0
  }

  class SurveyStore {
    var newsCount: int
    var mode: Option<SurveyMode>
    var sessionId: Option<string>
    var selectedNews: seq<NewsItem>
    var currentIndex: int
    var shuffledModels: map<string, seq<ModelName>>
    var compareAnswers: seq<CompareAnswer>
    var ratingAnswers: seq<RatingAnswer>
    /** Written only by the demographics page; see README. */
    var demographics: Option<Demographics>

    function State(): StoreState
      reads this
    {
      StoreState(newsCount, mode, sessionId, selectedNews, currentIndex,
                 shuffledModels, compareAnswers, ratingAnswers, demographics)
    }

    /** The store's invariant: the cursor bounds every action preserves. */
    ghost predicate Valid()
      reads this
    {
      CursorInBounds(currentIndex, |selectedNews|)
    }

    constructor ()
      ensures State() == INITIAL && Valid()
    {
      newsCount, mode, sessionId := 3, None, None;
      selectedNews, currentIndex := [], 0;
      shuffledModels := map[];
      compareAnswers, ratingAnswers := [], [];
      demographics := None;
    }

    method SetNewsCount(count: int)
      requires Valid()
      modifies this
      ensures Valid()
      ensures State() == old(State()).(newsCount := count)
    {
      newsCount := count;
    }

    method SetMode(m: SurveyMode)
      requires Valid()
      modifies this
      ensures Valid()
      ensures State() == old(State()).(mode := Some(m))
    {
      mode := Some(m);
    }

    method SetSessionId(id: string)
      requires Valid()
      modifies this
      ensures Valid()
      ensures State() == old(State()).(sessionId := Some(id))
    {
      sessionId := Some(id);
    }

    /** Replaces the list and puts the cursor on its first item; answers,
        model orders and the session id are kept. */
    method SetSelectedNews(news: seq<NewsItem>)
      modifies this
      ensures Valid()
      ensures State() == old(State()).(selectedNews := news, currentIndex := 0)
    {
      selectedNews, currentIndex := news, 0;
    }

    /** Sets or overwrites the model order of one item only. */
    method SetShuffledModels(newsId: string, models: seq<ModelName>)
      requires Valid()
      modifies this
      ensures Valid()
      ensures State() == old(State()).(shuffledModels := old(shuffledModels)[newsId := models])
      ensures shuffledModels[newsId] == models
      ensures forall k :: k != newsId ==>
                (k in shuffledModels <==> k in old(shuffledModels)) &&
                (k in shuffledModels ==> shuffledModels[k] == old(shuffledModels)[k])
    {
      shuffledModels := shuffledModels[newsId := models];
    }

    method NextNews()
      requires Valid()
      modifies this
      ensures Valid()
      ensures State() == old(State()).(currentIndex := NextIndex(old(currentIndex), |selectedNews|))
    {
      currentIndex := if currentIndex + 1 < |selectedNews| - 1 then currentIndex + 1 else |selectedNews| - 1;
    }

    method PreviousNews()
      requires Valid()
      modifies this
      ensures Valid()
      ensures State() == old(State()).(currentIndex := PreviousIndex(old(currentIndex)))
    {
      currentIndex := if currentIndex - 1 > 0 then currentIndex - 1 else 0;
    }

    /** Appends at the end, with no check for an earlier answer to the same item. */
    method AddCompareAnswer(answer: CompareAnswer)
      requires Valid()
      modifies this
      ensures Valid()
      ensures State() == old(State()).(compareAnswers := old(compareAnswers) + [answer])
    {
      compareAnswers := compareAnswers + [answer];
    }

    /** Appends at the end, with no check for an earlier answer to the same item. */
    method AddRatingAnswer(answer: RatingAnswer)
      requires Valid()
      modifies this
      ensures Valid()
      ensures State() == old(State()).(ratingAnswers := old(ratingAnswers) + [answer])
    {
      ratingAnswers := ratingAnswers + [answer];
    }

    /** The abstract demographics slot written by the demographics page. */
    method SetDemographics(d: Demographics)
      requires Valid()
      modifies this
      ensures Valid()
      ensures State() == old(State()).(demographics := Some(d))
    {
      demographics := Some(d);
    }

    /** Restores every field `reset` lists to its initial value. The
        demographics slot is not among them and the store merges updates,
        so it is kept. */
    method Reset()
      modifies this
      ensures Valid()
      ensures State() == INITIAL.(demographics := old(demographics))
    {
      newsCount, mode, sessionId := 3, None, None;
      selectedNews, currentIndex := [], 0;
      shuffledModels := map[];
      compareAnswers, ratingAnswers := [], [];
    }

    /** True exactly when the cursor equals the list length minus one: on the
        last item of a non-empty list, and also on an empty list whose cursor
        `nextNews` has moved to -1 (but not at the initial cursor 0). */
    function IsLastNews(): (b: bool)
      reads this
      ensures b <==> currentIndex == |selectedNews| - 1
      ensures b && 0 <= currentIndex ==> GetCurrentNews() == Some(selectedNews[|selectedNews| - 1])
      ensures |selectedNews| == 0 ==> (b <==> currentIndex == -1)
    {
      currentIndex == |selectedNews| - 1
    }

    /** The item under the cursor, or nothing when the cursor is outside
        the list. */
    function GetCurrentNews(): (r: Option<NewsItem>)
      reads this
      ensures r.Some? <==> 0 <= currentIndex < |selectedNews|
      ensures r.Some? ==> r.value == selectedNews[currentIndex]
      ensures Valid() ==> (r.Some? <==> |selectedNews| > 0)
    {
      if 0 <= currentIndex < |selectedNews| then Some(selectedNews[currentIndex]) else None
    }
  }
}
