/** The start page's handler (app/page.tsx): open a session, load and select
    the items, give every item its own model order, then go to the rating
    page. */
module StartPage {
  import opened Types
  import opened Store
  import Data

  class Page {
    const store: SurveyStore
    /** Where the page sent the browser, if anywhere. */
    var route: Option<string>
    /** Whether the failure alert was shown. */
    var alerted: bool

    constructor (store: SurveyStore)
      ensures this.store == store && route == None && !alerted
    {
      this.store := store;
      route, alerted := None, false;
    }

    /** handleStart. `sessionId` is the freshly generated id, `fetched` the
        catalog document or None when fetching or parsing it failed, and
        `count` the number of items asked of the selection. The session id is
        set first and is kept even when loading then fails; on failure the
        alert is shown and nothing else changes. On success the selection
        replaces the list, the cursor is 0, every selected item gets a fresh
        permutation of MODEL_NAMES, and only then does the page navigate. */
    method HandleStart(sessionId: string, fetched: Option<seq<Data.RawCategory>>, count: int)
      requires store.Valid()
      modifies this, store
      ensures store.Valid() && store.sessionId == Some(sessionId)
      ensures Data.AllModelOrders(old(store.shuffledModels)) ==> Data.AllModelOrders(store.shuffledModels)
      ensures var ok := fetched.Some? && Data.AllKeysKnown(fetched.value);
        if !ok then
          && alerted && route == old(route)
          && store.State() == old(store.State()).(sessionId := Some(sessionId))
        else
          && alerted == old(alerted) && route == Some("/rate")
          && multiset(store.selectedNews) == multiset(Data.Pool(Data.LoadedCatalog(fetched.value), count))
          && store.currentIndex == 0
          && store.State() == old(store.State()).(sessionId := Some(sessionId), selectedNews := store.selectedNews,
                                                  currentIndex := 0, shuffledModels := store.shuffledModels)
          && ShuffledEach(old(store.shuffledModels), store.selectedNews, store.shuffledModels)
    {
      store.SetSessionId(sessionId);
      if fetched.None? {
        alerted := true;
        return;
      }
      var newsData := Data.FlattenNewsData(fetched.value);
      if newsData.Failure? {
        alerted := true;
        return;
      }
      var selected := Data.SelectNewsItems(newsData.value, count);
      store.SetSelectedNews(selected);
      ghost var cached := store.shuffledModels;
      ShuffleEach(store, selected);
      if Data.AllModelOrders(cached) {
        ShuffledEachKeepsModelOrders(cached, selected, store.shuffledModels);
      }
      route := Some("/rate");
    }
  }

  /** What handleStart selects from a loaded document, when the count is a
      multiple of 3 and every category holds at least count/3 items: count
      items, count/3 of each category. */
  lemma StartSelectionIsBalanced(raw: seq<Data.RawCategory>, count: int, selected: seq<NewsItem>)
    requires count >= 0 && count % 3 == 0
    requires forall c :: |Data.Flattened(raw, c)| >= count / 3
    requires multiset(selected) == multiset(Data.Pool(Data.LoadedCatalog(raw), count))
    ensures |selected| == count
    ensures forall c :: Data.CountCategory(selected, c) == count / 3
  {
    Data.LoadedCatalogWellTagged(raw);
    Data.SelectionIsBalanced(Data.LoadedCatalog(raw), count, selected);
  }

  /** The ids of a list of items. */
  function Ids(items: seq<NewsItem>): (ids: set<string>)
    ensures forall k :: 0 <= k < |items| ==> items[k].id in ids
    ensures forall id :: id in ids ==> exists k :: 0 <= k < |items| && items[k].id == id
  {
    set x | x in items :: x.id
  }

  /** `after` is `before` with a permutation of MODEL_NAMES under the id of
      every item of `items`, and every other key kept as it was. */
  ghost predicate ShuffledEach(before: map<string, seq<ModelName>>, items: seq<NewsItem>,
                               after: map<string, seq<ModelName>>) {
    && after.Keys == before.Keys + Ids(items)
    && (forall id :: id in Ids(items) ==> multiset(after[id]) == multiset(Data.MODEL_NAMES))
    && (forall id :: id in before && id !in Ids(items) ==> after[id] == before[id])
  }

  /** The forEach keeps every cached order an order of the four models. */
  lemma ShuffledEachKeepsModelOrders(before: map<string, seq<ModelName>>, items: seq<NewsItem>,
                                     after: map<string, seq<ModelName>>)
    requires ShuffledEach(before, items, after) && Data.AllModelOrders(before)
    ensures Data.AllModelOrders(after)
  {
    forall id | id in after
      ensures Data.IsModelOrder(after[id])
    {
      if id !in Ids(items) {
        assert id in before;
      }
    }
  }

  /** The forEach of handleStart: one fresh shuffle per item, in list order,
      each cached under the item's id. */
  method ShuffleEach(store: SurveyStore, items: seq<NewsItem>)
    requires store.Valid()
    modifies store
    ensures store.Valid()
    ensures store.State() == old(store.State()).(shuffledModels := store.shuffledModels)
    ensures ShuffledEach(old(store.shuffledModels), items, store.shuffledModels)
  {
    for i := 0 to |items|
      invariant store.Valid()
      invariant store.State() == old(store.State()).(shuffledModels := store.shuffledModels)
      invariant ShuffledEach(old(store.shuffledModels), items[..i], store.shuffledModels)
    {
      var shuffled := Data.ShuffleModels(Data.MODEL_NAMES);
      ghost var mid := store.shuffledModels;
      store.SetShuffledModels(items[i].id, shuffled);
      ShuffledEachStep(old(store.shuffledModels), items, i, mid, shuffled);
    }
    assert items[..|items|] == items;
  }

  /** One more item of the forEach keeps ShuffledEach for the longer prefix. */
  lemma ShuffledEachStep(before: map<string, seq<ModelName>>, items: seq<NewsItem>, i: nat,
                         mid: map<string, seq<ModelName>>, order: seq<ModelName>)
    requires i < |items|
    requires ShuffledEach(before, items[..i], mid)
    requires multiset(order) == multiset(Data.MODEL_NAMES)
    ensures ShuffledEach(before, items[..i + 1], mid[items[i].id := order])
  {
    assert Ids(items[..i + 1]) == Ids(items[..i]) + {items[i].id} by {
      assert items[..i + 1] == items[..i] + [items[i]];
    }
  }
}
