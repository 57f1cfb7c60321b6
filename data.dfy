/** Catalog loading, item selection, model shuffling and video-id extraction
    (lib/data.ts). */
module Data {
  import opened Types

  /** The four models in their canonical order. */
  const MODEL_NAMES: seq<ModelName> := [Gpt, Pathumma, Qwen, Typhoon]

  // ---------------------------------------------------------------------
  // Catalog flattening (the loop inside loadNewsData)
  // ---------------------------------------------------------------------

  /** One record of the catalog document: a video link and the summaries. */
  datatype RawNews = RawNews(url: string, summaries: map<ModelName, string>)

  /** One category object of the catalog document: its key and its
      (news id, record) entries, in the order the object's keys enumerate. */
  datatype RawCategory = RawCategory(key: string, entries: seq<(string, RawNews)>)

  /** The loaded catalog: one list per category. */
  datatype Catalog = Catalog(social: seq<NewsItem>, economy: seq<NewsItem>, technology: seq<NewsItem>)
  {
    function Items(c: Category): seq<NewsItem> {
      match c
      case Social => social
      case Economy => economy
      case Technology => technology
    }

    /** The catalog with `x` pushed onto the list of `c`. */
    function Push(c: Category, x: NewsItem): (r: Catalog)
      ensures r.Items(c) == Items(c) + [x]
      ensures forall c' :: c' != c ==> r.Items(c') == Items(c')
    {
      match c
      case Social => this.(social := social + [x])
      case Economy => this.(economy := economy + [x])
      case Technology => this.(technology := technology + [x])
    }
  }

  const EMPTY_CATALOG := Catalog([], [], [])

  /** The category a key of the catalog document names, if any. The source
      casts the key without checking it; a key that names none of the three
      lists makes the first push under it fail. */
  function CategoryOfKey(key: string): (r: Option<Category>)
    ensures r.Some? <==> key in {"social", "economy", "technology"}
    ensures r == Some(Social) <==> key == "social"
    ensures r == Some(Economy) <==> key == "economy"
    ensures r == Some(Technology) <==> key == "technology"
  {
    if key == "social" then Some(Social)
    else if key == "economy" then Some(Economy)
    else if key == "technology" then Some(Technology)
    else None
  }

  /** Every category object that has entries sits under a category key. An
      unknown key with no entries is never pushed to, so it does no harm. */
  predicate AllKeysKnown(raw: seq<RawCategory>) {
    forall i :: 0 <= i < |raw| && |raw[i].entries| > 0 ==> CategoryOfKey(raw[i].key).Some?
  }

  function MakeItem(entry: (string, RawNews), c: Category): NewsItem {
    NewsItem(entry.0, c, entry.1.url, entry.1.summaries)
  }

  /** The items one category object contributes when tagged with `c`. */
  function TaggedItems(entries: seq<(string, RawNews)>, c: Category): seq<NewsItem> {
    if entries == [] then []
    else TaggedItems(entries[..|entries| - 1], c) + [MakeItem(entries[|entries| - 1], c)]
  }

  /** Everything the document files under category `c`, in document order. */
  function Flattened(raw: seq<RawCategory>, c: Category): seq<NewsItem> {
    if raw == [] then []
    else
      var last := raw[|raw| - 1];
      Flattened(raw[..|raw| - 1], c) + (if CategoryOfKey(last.key) == Some(c) then TaggedItems(last.entries, c) else [])
  }

  /** The ids nested under category `c`, in document order. */
  function IdsUnder(raw: seq<RawCategory>, c: Category): seq<string> {
    if raw == [] then []
    else
      var last := raw[|raw| - 1];
      IdsUnder(raw[..|raw| - 1], c) + (if CategoryOfKey(last.key) == Some(c) then EntryIds(last.entries) else [])
  }

  function EntryIds(entries: seq<(string, RawNews)>): seq<string> {
    if entries == [] then [] else EntryIds(entries[..|entries| - 1]) + [entries[|entries| - 1].0]
  }

  datatype LoadError = UnknownCategory(key: string)

  /** The nested loop of loadNewsData: for every category key, for every id
      under it, push the tagged item onto that category's list. The first push
      under a key that is not a category aborts the load; a key with no
      entries under it is never pushed to. */
  method FlattenNewsData(raw: seq<RawCategory>) returns (r: Result<Catalog, LoadError>)
    ensures r.Success? <==> AllKeysKnown(raw)
    ensures r.Success? ==> r.value == LoadedCatalog(raw)
    ensures r.Failure? ==> exists i :: 0 <= i < |raw| && AllKeysKnown(raw[..i]) && |raw[i].entries| > 0 &&
                                       CategoryOfKey(raw[i].key).None? && r.error == UnknownCategory(raw[i].key)
  {
    var newsData := EMPTY_CATALOG;
    var i := 0;
    while i < |raw|
      invariant 0 <= i <= |raw|
      invariant AllKeysKnown(raw[..i])
      invariant forall c :: newsData.Items(c) == Flattened(raw[..i], c)
    {
      var categoryKey := CategoryOfKey(raw[i].key);
      if categoryKey.Some? {
        newsData := PushEntries(newsData, raw[i].entries, categoryKey.value);
      } else if |raw[i].entries| > 0 {
        UnknownKeyRejects(raw, i);
        return Failure(UnknownCategory(raw[i].key));
      }
      FlattenedStep(raw, i);
      i := i + 1;
    }
    assert raw[..i] == raw;
    SameItemsSameCatalog(newsData, LoadedCatalog(raw));
    return Success(newsData);
  }

  /** The inner forEach of loadNewsData: push every entry of one category
      object, tagged with `cat`, onto that category's list. */
  method PushEntries(newsData: Catalog, entries: seq<(string, RawNews)>, cat: Category) returns (r: Catalog)
    ensures forall c :: r.Items(c) == newsData.Items(c) + (if c == cat then TaggedItems(entries, c) else [])
  {
    r := newsData;
    for j := 0 to |entries|
      invariant forall c :: r.Items(c) == newsData.Items(c) + (if c == cat then TaggedItems(entries[..j], c) else [])
    {
      TaggedItemsStep(entries, j, cat);
      r := r.Push(cat, MakeItem(entries[j], cat));
    }
    assert entries[..|entries|] == entries;
  }

  /** The catalog a successful load produces. */
  function LoadedCatalog(raw: seq<RawCategory>): (all: Catalog)
    ensures forall c :: all.Items(c) == Flattened(raw, c)
  {
    Catalog(Flattened(raw, Social), Flattened(raw, Economy), Flattened(raw, Technology))
  }

  /** Every item of a loaded catalog is filed under its own category. */
  lemma LoadedCatalogWellTagged(raw: seq<RawCategory>)
    ensures WellTagged(LoadedCatalog(raw))
  {
    forall c
      ensures forall k :: 0 <= k < |LoadedCatalog(raw).Items(c)| ==> LoadedCatalog(raw).Items(c)[k].category == c
    {
      FlattenedTagsItems(raw, c);
    }
  }

  /** A key that is not a category, with entries under it, fails the load. */
  lemma UnknownKeyRejects(raw: seq<RawCategory>, i: nat)
    requires i < |raw| && |raw[i].entries| > 0 && CategoryOfKey(raw[i].key).None?
    ensures !AllKeysKnown(raw)
  {
  }

  lemma SameItemsSameCatalog(a: Catalog, b: Catalog)
    requires forall c :: a.Items(c) == b.Items(c)
    ensures a == b
  {
    assert a.Items(Social) == b.Items(Social);
    assert a.Items(Economy) == b.Items(Economy);
    assert a.Items(Technology) == b.Items(Technology);
  }

  lemma TaggedItemsStep(entries: seq<(string, RawNews)>, j: nat, c: Category)
    requires j < |entries|
    ensures TaggedItems(entries[..j + 1], c) == TaggedItems(entries[..j], c) + [MakeItem(entries[j], c)]
  {
    assert entries[..j + 1][..j] == entries[..j];
  }

  lemma FlattenedStep(raw: seq<RawCategory>, i: nat)
    requires i < |raw| && AllKeysKnown(raw[..i])
    requires |raw[i].entries| > 0 ==> CategoryOfKey(raw[i].key).Some?
    ensures AllKeysKnown(raw[..i + 1])
    ensures forall c :: Flattened(raw[..i + 1], c) == Flattened(raw[..i], c) +
              (if CategoryOfKey(raw[i].key) == Some(c) then TaggedItems(raw[i].entries, c) else [])
  {
    assert raw[..i + 1][..i] == raw[..i];
    assert raw[..i + 1][i] == raw[i];
  }

  /** Every flattened item carries the category it was filed under and the id
      it was nested under, one item per id. */
  lemma {:induction false} FlattenedTagsItems(raw: seq<RawCategory>, c: Category)
    ensures |Flattened(raw, c)| == |IdsUnder(raw, c)|
    ensures forall k :: 0 <= k < |Flattened(raw, c)| ==>
              Flattened(raw, c)[k].category == c && Flattened(raw, c)[k].id == IdsUnder(raw, c)[k]
  {
    if raw != [] {
      var last := raw[|raw| - 1];
      FlattenedTagsItems(raw[..|raw| - 1], c);
      if CategoryOfKey(last.key) == Some(c) {
        TaggedItemsTagged(last.entries, c);
      }
    }
  }

  lemma {:induction false} TaggedItemsTagged(entries: seq<(string, RawNews)>, c: Category)
    ensures |TaggedItems(entries, c)| == |EntryIds(entries)| == |entries|
    ensures forall k :: 0 <= k < |entries| ==>
              TaggedItems(entries, c)[k] == MakeItem(entries[k], c) && EntryIds(entries)[k] == entries[k].0
  {
    if entries != [] {
      TaggedItemsTagged(entries[..|entries| - 1], c);
    }
  }

  // ---------------------------------------------------------------------
  // Selection
  // ---------------------------------------------------------------------

  /** `count / 3` as the slice bound sees it: JavaScript divides exactly and
      `slice` then truncates toward zero. */
  function ItemsPerCategory(count: int): (k: int)
    ensures count >= 0 ==> 0 <= 3 * k <= count < 3 * k + 3
    ensures count < 0 ==> 3 * k - 3 < count <= 3 * k <= 0
  {
    if count >= 0 then count / 3 else -((-count) / 3)
  }

  /** `s.slice(0, end)`: a non-negative end is clamped to the length, a
      negative end counts back from the length. */
  function SliceTo<T>(s: seq<T>, end: int): (r: seq<T>)
    ensures |r| <= |s| && r == s[..|r|]
    ensures end >= 0 ==> |r| == if end < |s| then end else |s|
    ensures end < 0 ==> |r| == if |s| + end > 0 then |s| + end else 0
  {
    if end >= 0 then (if end < |s| then s[..end] else s)
    else (if |s| + end > 0 then s[..|s| + end] else [])
  }

  /** The items selectNewsItems draws before shuffling: the first count/3 of
      each category, social then economy then technology. */
  function Pool(all: Catalog, count: int): (r: seq<NewsItem>)
    ensures var k := ItemsPerCategory(count);
            k >= 0 ==> |r| == Min(|all.social|, k) + Min(|all.economy|, k) + Min(|all.technology|, k)
  {
    var k := ItemsPerCategory(count);
    SliceTo(all.social, k) + SliceTo(all.economy, k) + SliceTo(all.technology, k)
  }

  function Min(a: int, b: int): int { if a < b then a else b }

  /** selectNewsItems: the pool in an arbitrary order (the source sorts with a
      random comparator; any permutation is possible). */
  method SelectNewsItems(all: Catalog, count: int) returns (r: seq<NewsItem>)
    ensures multiset(r) == multiset(Pool(all, count))
    ensures |r| == |Pool(all, count)|
  {
    var pool := Pool(all, count);
    r :| multiset(r) == multiset(pool);
    assert |r| == |multiset(r)| == |multiset(pool)| == |pool|;
  }

  /** shuffleModels: its argument in an arbitrary order. */
  method ShuffleModels(models: seq<ModelName>) returns (r: seq<ModelName>)
    ensures multiset(r) == multiset(models)
    ensures |r| == |models|
  {
    r :| multiset(r) == multiset(models);
    assert |r| == |multiset(r)| == |multiset(models)| == |models|;
  }

  /** Number of items of category `c` in `s`. */
  function CountCategory(s: seq<NewsItem>, c: Category): nat {
    if s == [] then 0 else (if s[0].category == c then 1 else 0) + CountCategory(s[1..], c)
  }

  /** Every item of the catalog is filed under its own category. */
  predicate WellTagged(all: Catalog) {
    forall c, k :: 0 <= k < |all.Items(c)| ==> all.Items(c)[k].category == c
  }

  lemma {:induction false} CountCategoryAppend(a: seq<NewsItem>, b: seq<NewsItem>, c: Category)
    ensures CountCategory(a + b, c) == CountCategory(a, c) + CountCategory(b, c)
  {
    if a == [] {
      assert a + b == b;
    } else {
      assert (a + b)[1..] == a[1..] + b;
      CountCategoryAppend(a[1..], b, c);
    }
  }

  /** Taking one item out of a list lowers its category's count by one. */
  lemma CountCategoryRemove(b: seq<NewsItem>, i: nat, c: Category)
    requires i < |b|
    ensures CountCategory(b, c) == (if b[i].category == c then 1 else 0) + CountCategory(b[..i] + b[i + 1..], c)
  {
    assert b == b[..i] + ([b[i]] + b[i + 1..]);
    CountCategoryAppend(b[..i], [b[i]] + b[i + 1..], c);
    CountCategoryAppend([b[i]], b[i + 1..], c);
    CountCategoryAppend(b[..i], b[i + 1..], c);
    assert CountCategory([b[i]], c) == if b[i].category == c then 1 else 0 by {
      assert [b[i]][1..] == [];
    }
  }

  /** Reordering does not change how many items a category has. */
  lemma {:induction false} CountCategoryPermutation(a: seq<NewsItem>, b: seq<NewsItem>, c: Category)
    requires multiset(a) == multiset(b)
    ensures CountCategory(a, c) == CountCategory(b, c)
    decreases |a|
  {
    if a == [] {
      assert |b| == |multiset(b)| == 0;
    } else {
      var x := a[0];
      assert x in multiset(b);
      var i :| 0 <= i < |b| && b[i] == x;
      var rest := b[..i] + b[i + 1..];
      RemoveMatched(a, b, i);
      CountCategoryPermutation(a[1..], rest, c);
      CountCategoryRemove(b, i, c);
    }
  }

  /** Dropping the head of `a` and a copy of it from `b` keeps the two
      multisets equal. */
  lemma RemoveMatched<T>(a: seq<T>, b: seq<T>, i: nat)
    requires multiset(a) == multiset(b) && a != [] && i < |b| && b[i] == a[0]
    ensures multiset(a[1..]) == multiset(b[..i] + b[i + 1..])
  {
    var x := a[0];
    assert a == [x] + a[1..];
    assert b == b[..i] + [x] + b[i + 1..];
    assert multiset(a[1..]) == multiset(a) - multiset([x]);
    assert multiset(b[..i] + b[i + 1..]) == multiset(b) - multiset([x]);
  }

  /** A list whose items all have category `d` has |s| items of `d` and none
      of any other category. */
  lemma {:induction false} CountCategoryUniform(s: seq<NewsItem>, d: Category, c: Category)
    requires forall k :: 0 <= k < |s| ==> s[k].category == d
    ensures CountCategory(s, c) == if c == d then |s| else 0
  {
    if s != [] {
      CountCategoryUniform(s[1..], d, c);
    }
  }

  /** The slice a well-tagged catalog contributes for category `d`. */
  lemma CountCategorySlice(all: Catalog, d: Category, k: nat, c: Category)
    requires WellTagged(all) && k <= |all.Items(d)|
    ensures CountCategory(SliceTo(all.Items(d), k), c) == if c == d then k else 0
  {
    var s := SliceTo(all.Items(d), k);
    assert forall j :: 0 <= j < |s| ==> s[j] == all.Items(d)[j];
    CountCategoryUniform(s, d, c);
  }

  /** With count divisible by 3 and every category holding at least count/3
      items, the selection has exactly count items, count/3 per category. */
  lemma SelectionIsBalanced(all: Catalog, count: int, r: seq<NewsItem>)
    requires count >= 0 && count % 3 == 0
    requires forall c :: |all.Items(c)| >= count / 3
    requires WellTagged(all)
    requires multiset(r) == multiset(Pool(all, count))
    ensures |r| == count
    ensures forall c :: CountCategory(r, c) == count / 3
  {
    assert all.Items(Social) == all.social && all.Items(Economy) == all.economy;
    assert all.Items(Technology) == all.technology;
    assert |r| == |multiset(r)| == |Pool(all, count)|;
    forall c
      ensures CountCategory(r, c) == count / 3
    {
      CountCategoryPermutation(r, Pool(all, count), c);
      CountCategoryPool(all, count, c);
    }
  }

  lemma CountCategoryPool(all: Catalog, count: int, c: Category)
    requires count >= 0
    requires forall c :: |all.Items(c)| >= count / 3
    requires WellTagged(all)
    ensures CountCategory(Pool(all, count), c) == count / 3
  {
    var k := count / 3;
    var s, e, t := SliceTo(all.social, k), SliceTo(all.economy, k), SliceTo(all.technology, k);
    assert Pool(all, count) == s + e + t;
    CountCategoryAppend(s + e, t, c);
    CountCategoryAppend(s, e, c);
    CountCategorySlice(all, Social, k, c);
    CountCategorySlice(all, Economy, k, c);
    CountCategorySlice(all, Technology, k, c);
  }

  /** A category with fewer than count/3 items contributes all of them. */
  lemma ShortCategoryContributesAll(all: Catalog, count: int, c: Category)
    requires 0 <= |all.Items(c)| <= ItemsPerCategory(count)
    ensures SliceTo(all.Items(c), ItemsPerCategory(count)) == all.Items(c)
  {
  }

  /** An order the summaries can be shown in: the four models, each once. */
  predicate IsModelOrder(order: seq<ModelName>) {
    multiset(order) == multiset(MODEL_NAMES)
  }

  /** Every cached order is an order of the four models. */
  predicate AllModelOrders(cache: map<string, seq<ModelName>>) {
    forall id :: id in cache ==> IsModelOrder(cache[id])
  }

  /** A shuffled copy of MODEL_NAMES names every model exactly once. */
  lemma {:induction false} ModelOrderIsPermutation(r: seq<ModelName>)
    requires multiset(r) == multiset(MODEL_NAMES)
    ensures |r| == 4
    ensures forall m :: m in r
    ensures forall i, j :: 0 <= i < j < |r| ==> r[i] != r[j]
  {
    assert |r| == |multiset(r)| == |multiset(MODEL_NAMES)| == 4;
    forall m
      ensures m in r
    {
      assert MODEL_NAMES[ModelIndex(m)] == m;
      assert m in multiset(MODEL_NAMES);
    }
    forall i, j | 0 <= i < j < |r|
      ensures r[i] != r[j]
    {
      RepeatCountsTwice(r, i, j);
      ModelNamesOnce(r[i]);
    }
  }

  /** Each model occurs once in MODEL_NAMES. */
  lemma ModelNamesOnce(m: ModelName)
    ensures multiset(MODEL_NAMES)[m] == 1
  {
    assert multiset(MODEL_NAMES) == multiset{Gpt, Pathumma, Qwen, Typhoon};
  }

  /** A value at two positions occurs at least twice. */
  lemma RepeatCountsTwice<T>(s: seq<T>, i: nat, j: nat)
    requires i < j < |s|
    ensures s[i] == s[j] ==> multiset(s)[s[i]] >= 2
  {
    assert s == s[..j] + [s[j]] + s[j + 1..];
    assert s[..j][i] == s[i];
  }

  // ---------------------------------------------------------------------
  // YouTube video id
  // ---------------------------------------------------------------------

  const WATCH_MARKER: string := "youtube.com/watch?v="
  const SHORT_MARKER: string := "youtu.be/"

  /** The characters JavaScript's `\s` class matches. */
  predicate IsJsWhitespace(ch: char) {
    var n := ch as int;
    (9 <= n <= 13) || n == 0x20 || n == 0xA0 || n == 0x1680 || (0x2000 <= n <= 0x200A) ||
    n == 0x2028 || n == 0x2029 || n == 0x202F || n == 0x205F || n == 0x3000 || n == 0xFEFF
  }

  /** The character class `[^&\s]` of the id group. */
  predicate IsIdChar(ch: char) {
    ch != '&' && !IsJsWhitespace(ch)
  }

  predicate MarkerAt(s: string, p: nat, marker: string) {
    p + |marker| <= |s| && s[p..p + |marker|] == marker
  }

  /** Length of the marker starting at `p`, or 0 when none does. The two
      markers differ in their sixth character, so at most one can match. */
  function MarkerLength(s: string, p: nat): nat {
    if MarkerAt(s, p, WATCH_MARKER) then |WATCH_MARKER|
    else if MarkerAt(s, p, SHORT_MARKER) then |SHORT_MARKER|
    else 0
  }

  /** The pattern matches at `p`: a marker followed by at least one id
      character. */
  predicate MatchesAt(s: string, p: nat) {
    var m := MarkerLength(s, p);
    m > 0 && p + m < |s| && IsIdChar(s[p + m])
  }

  /** Length of the run of id characters starting at `i` (the greedy `+`). */
  function RunLength(s: string, i: nat): nat
    decreases |s| - i
  {
    if i < |s| && IsIdChar(s[i]) then 1 + RunLength(s, i + 1) else 0
  }

  /** The leftmost match at or after `p`. */
  function VideoIdFrom(s: string, p: nat): Option<string>
    decreases |s| - p
  {
    if p >= |s| then None
    else if MatchesAt(s, p) then
      var start := p + MarkerLength(s, p);
      RunLengthBounded(s, start);
      Some(s[start..start + RunLength(s, start)])
    else VideoIdFrom(s, p + 1)
  }

  /** getYouTubeVideoId: null exactly when the pattern matches nowhere;
      otherwise a non-empty id of id characters, the longest such run after
      the leftmost match. */
  function GetYouTubeVideoId(url: string): (r: Option<string>)
    ensures r.None? <==> forall q :: 0 <= q < |url| ==> !MatchesAt(url, q)
    ensures r.Some? ==>
              |r.value| > 0 && (forall k :: 0 <= k < |r.value| ==> IsIdChar(r.value[k])) &&
              exists q :: 0 <= q < |url| && MatchesAt(url, q) &&
                (forall q' :: 0 <= q' < q ==> !MatchesAt(url, q')) &&
                IsMaximalRun(url, q + MarkerLength(url, q), r.value)
  {
    VideoIdFromNone(url, 0);
    var id := VideoIdFrom(url, 0);
    if id.Some? then VideoIdFromSome(url, 0); VideoIdFromNonEmpty(url, 0); id else id
  }

  /** `id` is a maximal run of id characters starting at `start`. */
  predicate IsMaximalRun(s: string, start: nat, id: string) {
    start + |id| <= |s| && s[start..start + |id|] == id &&
    (forall k :: 0 <= k < |id| ==> IsIdChar(id[k])) &&
    (start + |id| == |s| || !IsIdChar(s[start + |id|]))
  }

  lemma {:induction false} RunLengthBounded(s: string, i: nat)
    ensures i + RunLength(s, i) <= |s| || RunLength(s, i) == 0
    ensures i <= |s| ==> IsMaximalRun(s, i, s[i..i + RunLength(s, i)])
    decreases |s| - i
  {
    if i < |s| && IsIdChar(s[i]) {
      RunLengthBounded(s, i + 1);
      var n := RunLength(s, i);
      assert s[i..i + n] == [s[i]] + s[i + 1..i + 1 + (n - 1)];
    }
  }

  /** No id is found exactly when no position has a marker followed by an id
      character. */
  lemma {:induction false} VideoIdFromNone(s: string, p: nat)
    requires p <= |s|
    ensures VideoIdFrom(s, p).None? <==> forall q :: p <= q < |s| ==> !MatchesAt(s, q)
    decreases |s| - p
  {
    if p < |s| && !MatchesAt(s, p) {
      VideoIdFromNone(s, p + 1);
    }
  }

  /** A found id is the maximal run of id characters after the leftmost
      position where the pattern matches. */
  lemma {:induction false} VideoIdFromSome(s: string, p: nat)
    requires p <= |s|
    requires VideoIdFrom(s, p).Some?
    ensures exists q :: p <= q < |s| && MatchesAt(s, q) &&
              (forall q' :: p <= q' < q ==> !MatchesAt(s, q')) &&
              IsMaximalRun(s, q + MarkerLength(s, q), VideoIdFrom(s, p).value)
    decreases |s| - p
  {
    if MatchesAt(s, p) {
      var start := p + MarkerLength(s, p);
      RunLengthBounded(s, start);
    } else {
      VideoIdFromSome(s, p + 1);
    }
  }

  /** A found id is never empty: the match needs one id character. */
  lemma {:induction false} VideoIdFromNonEmpty(s: string, p: nat)
    requires VideoIdFrom(s, p).Some?
    ensures |VideoIdFrom(s, p).value| > 0
    decreases |s| - p
  {
    if !MatchesAt(s, p) {
      VideoIdFromNonEmpty(s, p + 1);
    } else {
      var start := p + MarkerLength(s, p);
      RunLengthBounded(s, start);
      assert RunLength(s, start) > 0;
    }
  }
}
