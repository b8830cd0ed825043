/** The list-building steps of tmdb.js: reading the Google watchlist page by page
    (`scrapeWatchlist`), turning a TMDB search response into a media record
    (`fetchMovieData`), resolving scraped titles against the cache
    (`collectMovieData`), carrying `dateAdded` over by id (`combineWatchlists`)
    and classifying the records that need a manual look (`createUnknownsFile`).

    The outside world is a parameter: the pages the scraper receives, and a
    `Services` value holding the TMDB search, the clock, `encodeURIComponent`
    and the year `Date` parses out of a release date. */
module Tmdb {
  import opened JsValues
  import opened Utils

  // ---------------------------------------------------------------------------
  // scrapeWatchlist
  // ---------------------------------------------------------------------------

  /** The scraper requests pages 1 to 6. */
  const PageCount: nat := 6

  /** What the request for page i + 1 yields: the `aria-label`s of the page's
      links in document order, or None when fetching or parsing it throws. A page
      past the end of the sequence is a failed request. */
  function PageAt(pages: seq<Option<seq<string>>>, i: nat): Option<seq<string>> {
    if i < |pages| then pages[i] else None
  }

  /** The labels of a page up to, and not including, the first one equal to the
      first label of the last page taken (`prev`, None while it is null). */
  function UpTo(labels: seq<string>, prev: Option<string>): (r: seq<string>)
    ensures |r| <= |labels| && r == labels[..|r|]
    ensures forall t :: 0 <= t < |r| ==> Some(r[t]) != prev
    ensures |r| < |labels| ==> Some(labels[|r|]) == prev
  {
    if labels == [] || Some(labels[0]) == prev then []
    else [labels[0]] + UpTo(labels[1..], prev)
  }

  /** The scraper's state between pages: `prevFirstItem` and `items`. */
  datatype Scan = Scan(prev: Option<string>, items: seq<string>)

  /** One iteration of the page loop: a page that fails is skipped; otherwise its
      labels up to the previous page's first label are appended, and their first
      becomes the new reference, when there are any. */
  function ReadPage(s: Scan, page: Option<seq<string>>): Scan {
    if page.None? then s
    else
      var pageItems := UpTo(page.value, s.prev);
      if |pageItems| > 0 && Some(pageItems[0]) != s.prev then Scan(Some(pageItems[0]), s.items + pageItems)
      else s
  }

  /** The state after the first n pages. */
  function ScanPages(pages: seq<Option<seq<string>>>, n: nat): Scan {
    if n == 0 then Scan(None, []) else ReadPage(ScanPages(pages, n - 1), PageAt(pages, n - 1))
  }

  /** The labels `scrapeWatchlist` returns. */
  function Scraped(pages: seq<Option<seq<string>>>): seq<string> {
    ScanPages(pages, PageCount).items
  }

  /** The inner loop over a page's links, which stops at the previous page's first
      label. */
  method PageItems(labels: seq<string>, prev: Option<string>) returns (pageItems: seq<string>)
    ensures pageItems == UpTo(labels, prev)
  {
    pageItems := [];
    var i := 0;
    while i < |labels|
      invariant 0 <= i <= |labels|
      invariant pageItems == labels[..i]
      invariant forall t :: 0 <= t < i ==> Some(labels[t]) != prev
    {
      var name := labels[i];
      if Some(name) == prev {
        break;
      }
      pageItems := pageItems + [name];
      i := i + 1;
    }
    UpToIs(labels, prev, i);
  }

  lemma {:induction false} UpToIs(labels: seq<string>, prev: Option<string>, n: nat)
    requires n <= |labels| && (forall t :: 0 <= t < n ==> Some(labels[t]) != prev)
    requires n < |labels| ==> Some(labels[n]) == prev
    ensures UpTo(labels, prev) == labels[..n]
  {
    if n > 0 {
      UpToIs(labels[1..], prev, n - 1);
      assert labels[..n] == [labels[0]] + labels[1..][..n - 1];
    }
  }

  /** `scrapeWatchlist()`: six page requests, each appending the page's new labels. */
  method ScrapeWatchlist(pages: seq<Option<seq<string>>>) returns (items: seq<string>)
    ensures items == Scraped(pages)
  {
    items := [];
    var prevFirstItem: Option<string> := None;
    for i := 0 to PageCount
      invariant ScanPages(pages, i) == Scan(prevFirstItem, items)
    {
      var page := PageAt(pages, i);
      if page.Some? {
        var pageItems := PageItems(page.value, prevFirstItem);
        if |pageItems| > 0 && Some(pageItems[0]) != prevFirstItem {
          prevFirstItem := Some(pageItems[0]);
          items := items + pageItems;
        }
      }
    }
  }

  /** A page that starts with the label the last page taken started with, as
      Google serves once the list is exhausted, adds nothing. */
  lemma RepeatedPageAddsNothing(s: Scan, labels: seq<string>)
    requires labels != [] && s.prev == Some(labels[0])
    ensures ReadPage(s, Some(labels)) == s
  {
    assert UpTo(labels, s.prev) == [];
  }

  /** A non-empty page without the reference label is taken whole, and its first
      label becomes the reference. */
  lemma FreshPageTakenWhole(s: Scan, labels: seq<string>)
    requires labels != [] && forall t :: 0 <= t < |labels| ==> Some(labels[t]) != s.prev
    ensures ReadPage(s, Some(labels)) == Scan(Some(labels[0]), s.items + labels)
  {
    UpToIs(labels, s.prev, |labels|);
  }

  /** Only the first six pages matter: more pages change nothing. */
  lemma ScrapeReadsSixPages(pages: seq<Option<seq<string>>>, more: seq<Option<seq<string>>>)
    requires |pages| >= PageCount
    ensures Scraped(pages + more) == Scraped(pages)
  {
    ScanPagesAgree(pages + more, pages, PageCount);
  }

  lemma {:induction false} ScanPagesAgree(p: seq<Option<seq<string>>>, q: seq<Option<seq<string>>>, n: nat)
    requires forall i :: 0 <= i < n ==> PageAt(p, i) == PageAt(q, i)
    ensures ScanPages(p, n) == ScanPages(q, n)
  {
    if n > 0 {
      ScanPagesAgree(p, q, n - 1);
    }
  }

  /** Every label returned was read off one of the first six pages. */
  lemma ScrapedFromPages(pages: seq<Option<seq<string>>>)
    ensures forall x :: x in Scraped(pages) ==>
              exists i :: 0 <= i < PageCount && PageAt(pages, i).Some? && x in PageAt(pages, i).value
  {
    ScanPagesFrom(pages, PageCount);
  }

  lemma {:induction false} ScanPagesFrom(pages: seq<Option<seq<string>>>, n: nat)
    ensures forall x :: x in ScanPages(pages, n).items ==>
              exists i :: 0 <= i < n && PageAt(pages, i).Some? && x in PageAt(pages, i).value
  {
    if n > 0 {
      ScanPagesFrom(pages, n - 1);
      var s := ScanPages(pages, n - 1);
      var page := PageAt(pages, n - 1);
      forall x | x in ScanPages(pages, n).items
        ensures exists i :: 0 <= i < n && PageAt(pages, i).Some? && x in PageAt(pages, i).value
      {
        if x !in s.items {
          var taken := UpTo(page.value, s.prev);
          assert x in taken;
          assert x in page.value;
        }
      }
    }
  }

  // ---------------------------------------------------------------------------
  // fetchMovieData
  // ---------------------------------------------------------------------------

  /** The outcome of the TMDB search request: it throws, or answers with a parsed
      body (`response.data`). */
  datatype Lookup = Unreachable | Response(data: Json)

  /** What the code reaches outside for: the search request for a movie argument,
      `Date.now()`, `encodeURIComponent`, and `new Date(d).getFullYear()`. */
  datatype Services = Services(
    lookup: Option<Json> -> Lookup,
    now: Json,
    encode: string -> string,
    yearOf: Json -> Json)

  const SearchUrl: string := "https://google.ca/search?q="

  /** The record returned when TMDB has nothing at the requested index. */
  function Fallback(svc: Services, movie: Option<Json>): (r: Record)
    ensures Get(r, "id") == Some(Num(0)) && Get(r, "title") == movie
    ensures Get(r, "releaseDate") == Some(Null) && Get(r, "releaseYear") == Some(Null)
    ensures Get(r, "mediaType") == Some(Null) && Get(r, "dateAdded") == Some(svc.now)
  {
    Put(map["id" := Num(0), "releaseDate" := Null, "releaseYear" := Null, "mediaType" := Null,
             "dateAdded" := svc.now, "googleSearchUrl" := Str(SearchUrl + svc.encode(ToJsString(movie)))],
        "title", movie)
  }

  /** `results[resultIndex]`, when the body has a non-empty `results` and the
      entry there is truthy; None in every case that ends in the fallback,
      including `response.data.results` throwing on a null body. */
  function Chosen(lookup: Lookup, resultIndex: nat): (r: Option<Json>)
    ensures r.Some? <==> && lookup.Response? && !lookup.data.Null?
                         && Truthy(Member(lookup.data, "results"))
                         && !StrictEquals(Member(Member(lookup.data, "results").value, "length"), Some(Num(0)))
                         && Truthy(At(Member(lookup.data, "results").value, resultIndex))
    ensures r.Some? ==> r == At(Member(lookup.data, "results").value, resultIndex)
  {
    if lookup.Unreachable? || lookup.data.Null? then None
    else
      var results := Member(lookup.data, "results");
      if !Truthy(results) || StrictEquals(Member(results.value, "length"), Some(Num(0))) then None
      else
        var result := At(results.value, resultIndex);
        if Truthy(result) then result else None
  }

  /** The fields a TMDB result passes on, given the values of `id`,
      `title || name`, `release_date || first_air_date` and `media_type`: each
      is left out when undefined. */
  function Copied(id: Option<Json>, title: Option<Json>, releaseDate: Option<Json>, mediaType: Option<Json>): (r: Record)
    ensures Get(r, "id") == id && Get(r, "title") == title
    ensures Get(r, "releaseDate") == releaseDate && Get(r, "mediaType") == mediaType
    ensures r.Keys <= {"id", "title", "releaseDate", "mediaType"}
  {
    Put(Put(Put(Put(map[], "id", id), "title", title), "releaseDate", releaseDate), "mediaType", mediaType)
  }

  /** The record built from a TMDB result: the copied fields, the year parsed
      from the release date (null without one), the time of the call and a
      Google search link for "title (year)", or "title (media type)" without a
      year. */
  function FromResult(svc: Services, result: Json): (r: Record)
    requires Truthy(Some(result))
    ensures Get(r, "dateAdded") == Some(svc.now)
  {
    var title := Or(Member(result, "title"), Member(result, "name"));
    var releaseDate := Or(Member(result, "release_date"), Member(result, "first_air_date"));
    var mediaType := Member(result, "media_type");
    var year := if Truthy(releaseDate) then svc.yearOf(releaseDate.value) else Null;
    var titleYear := ToJsString(title) + " (" + ToJsString(Or(Some(year), mediaType)) + ")";
    var copied := Copied(Member(result, "id"), title, releaseDate, mediaType);
    copied["releaseYear" := year]["dateAdded" := svc.now]["googleSearchUrl" := Str(SearchUrl + svc.encode(titleYear))]
  }

  /** `fetchMovieData(movie, resultIndex)`: the fallback when the request throws
      (a null body makes `response.data.results` throw), when `results` is
      missing or empty, or when there is no result at the index; otherwise the
      record built from that result. */
  function FetchMovieData(svc: Services, movie: Option<Json>, resultIndex: nat): (r: Record)
    ensures var lookup := svc.lookup(movie);
            (|| lookup.Unreachable?
             || (lookup.Response? && !lookup.data.Obj?)
             || (lookup.Response? && lookup.data.Obj? && !Truthy(Get(lookup.data.fields, "results")))
             || (lookup.Response? && lookup.data.Obj? && Get(lookup.data.fields, "results") == Some(Arr([])))
             || (lookup.Response? && lookup.data.Obj? && Get(lookup.data.fields, "results").Some?
                 && Get(lookup.data.fields, "results").value.Arr?
                 && var items := Get(lookup.data.fields, "results").value.items;
                    resultIndex >= |items| || !Truthy(Some(items[resultIndex]))))
            ==> r == Fallback(svc, movie)
    ensures Chosen(svc.lookup(movie), resultIndex).None? ==> r == Fallback(svc, movie)
    ensures Chosen(svc.lookup(movie), resultIndex).Some? ==> r == FromResult(svc, Chosen(svc.lookup(movie), resultIndex).value)
    ensures Get(r, "dateAdded") == Some(svc.now)
  {
    match Chosen(svc.lookup(movie), resultIndex)
    case None => Fallback(svc, movie)
    case Some(result) => FromResult(svc, result)
  }

  /** The record built from a result carries the result's `id` and
      `media_type`, its `title` (or `name`) and its `release_date` (or
      `first_air_date`): the fields added after them do not overwrite them. */
  lemma FromResultFields(svc: Services, result: Json)
    requires Truthy(Some(result))
    ensures var r := FromResult(svc, result);
            && Get(r, "id") == Member(result, "id")
            && Get(r, "title") == Or(Member(result, "title"), Member(result, "name"))
            && Get(r, "releaseDate") == Or(Member(result, "release_date"), Member(result, "first_air_date"))
            && Get(r, "mediaType") == Member(result, "media_type")
  {
    var title := Or(Member(result, "title"), Member(result, "name"));
    var releaseDate := Or(Member(result, "release_date"), Member(result, "first_air_date"));
    var copied := Copied(Member(result, "id"), title, releaseDate, Member(result, "media_type"));
    forall k | k in copied ensures k != "releaseYear" && k != "dateAdded" && k != "googleSearchUrl" {
    }
  }

  /** On a hit, `fetchMovieData` returns the record built from the chosen result. */
  lemma FetchHit(svc: Services, movie: Option<Json>, resultIndex: nat)
    requires Chosen(svc.lookup(movie), resultIndex).Some?
    ensures var result := Chosen(svc.lookup(movie), resultIndex).value;
            var r := FetchMovieData(svc, movie, resultIndex);
            && Get(r, "id") == Member(result, "id")
            && Get(r, "title") == Or(Member(result, "title"), Member(result, "name"))
            && Get(r, "releaseDate") == Or(Member(result, "release_date"), Member(result, "first_air_date"))
            && Get(r, "mediaType") == Member(result, "media_type")
  {
    FromResultFields(svc, Chosen(svc.lookup(movie), resultIndex).value);
  }

  // ---------------------------------------------------------------------------
  // Keying records: the `reduce` into a lookup object, last one wins
  // ---------------------------------------------------------------------------

  /** The property names `{}` inherits from `Object.prototype`. */
  const PrototypeNames: set<string> := {
    "constructor", "__proto__", "hasOwnProperty", "isPrototypeOf", "propertyIsEnumerable",
    "toString", "toLocaleString", "valueOf",
    "__defineGetter__", "__defineSetter__", "__lookupGetter__", "__lookupSetter__"}

  /** A record whose `title` is a string, so that `slugify` can read it. */
  predicate HasTitle(m: Record) {
    "title" in m && m["title"].Str?
  }

  /** `slugify(movie.title)` */
  function TitleSlug(m: Record): string {
    if HasTitle(m) then Slugify(m["title"].s) else ""
  }

  /** `movie.id` as a property name. */
  function IdKey(m: Record): string {
    ToJsString(Get(m, "id"))
  }

  /** `records.reduce((map, m) => { map[keyOf(m)] = m; return map; }, {})`. */
  function IndexBy(records: seq<Record>, keyOf: Record -> string): (index: map<string, Record>)
    ensures forall k :: k in index <==> exists i :: 0 <= i < |records| && keyOf(records[i]) == k
  {
    if records == [] then map[]
    else
      var n := |records| - 1;
      var index := IndexBy(records[..n], keyOf);
      assert forall i :: 0 <= i < n ==> records[..n][i] == records[i];
      index[keyOf(records[n]) := records[n]]
  }

  /** Under each key sits the last record with that key. */
  lemma {:induction false} IndexByLast(records: seq<Record>, keyOf: Record -> string, i: nat)
    requires i < |records| && forall j :: i < j < |records| ==> keyOf(records[j]) != keyOf(records[i])
    ensures IndexBy(records, keyOf)[keyOf(records[i])] == records[i]
  {
    var n := |records| - 1;
    var front := records[..n];
    assert IndexBy(records, keyOf) == IndexBy(front, keyOf)[keyOf(records[n]) := records[n]];
    if i < n {
      assert front[i] == records[i];
      forall j | i < j < n ensures keyOf(front[j]) != keyOf(front[i]) {
        assert front[j] == records[j];
      }
      IndexByLast(front, keyOf, i);
    }
  }

  // ---------------------------------------------------------------------------
  // collectMovieData
  // ---------------------------------------------------------------------------

  // The functions below take the title key `slug` and the search `fetch` as
  // parameters; `collectMovieData` uses `Slugify` and `fetchMovieData`.

  /** The cache answers a title: its slug is cached and the cache is not
      overridden. */
  predicate Cached(title: string, cachedMap: map<string, Record>, overrideCache: bool, slug: string -> string) {
    slug(title) in cachedMap && !overrideCache
  }

  /** The record for one scraped title: the cached record with the same slug
      unless the cache is overridden, otherwise a fresh TMDB search. */
  function Resolve(title: string, cachedMap: map<string, Record>, overrideCache: bool,
                   slug: string -> string, fetch: string -> Record): Record
  {
    if Cached(title, cachedMap, overrideCache, slug) then cachedMap[slug(title)] else fetch(title)
  }

  /** What `collectMovieData` returns: one record per title, in order. */
  function Collected(movies: seq<string>, cachedMap: map<string, Record>, overrideCache: bool,
                     slug: string -> string, fetch: string -> Record): seq<Record>
  {
    if movies == [] then []
    else
      var n := |movies| - 1;
      Collected(movies[..n], cachedMap, overrideCache, slug, fetch) + [Resolve(movies[n], cachedMap, overrideCache, slug, fetch)]
  }

  /** The titles it searches TMDB for, in order. */
  function Queried(movies: seq<string>, cachedMap: map<string, Record>, overrideCache: bool, slug: string -> string): seq<string> {
    if movies == [] then []
    else
      var n := |movies| - 1;
      Queried(movies[..n], cachedMap, overrideCache, slug) + (if Cached(movies[n], cachedMap, overrideCache, slug) then [] else [movies[n]])
  }

  /** The loop of `collectMovieData`, one title after another: a cached title
      yields the cached record, any other its search. The second result lists
      the titles searched for. */
  method CollectWith(movies: seq<string>, cachedMap: map<string, Record>, overrideCache: bool,
                     slug: string -> string, fetch: string -> Record)
    returns (movieData: seq<Record>, queried: seq<string>)
    ensures movieData == Collected(movies, cachedMap, overrideCache, slug, fetch)
    ensures queried == Queried(movies, cachedMap, overrideCache, slug)
  {
    movieData, queried := [], [];
    for i := 0 to |movies|
      invariant movieData == Collected(movies[..i], cachedMap, overrideCache, slug, fetch)
      invariant queried == Queried(movies[..i], cachedMap, overrideCache, slug)
    {
      var movieTitle := movies[i];
      var key := slug(movieTitle);
      var result;
      if key in cachedMap && !overrideCache {
        result := cachedMap[key];
      } else {
        result := fetch(movieTitle);
        queried := queried + [movieTitle];
      }
      CollectStep(movies, cachedMap, overrideCache, slug, fetch, i);
      movieData := movieData + [result];
    }
    assert movies[..|movies|] == movies;
  }

  lemma CollectStep(movies: seq<string>, cachedMap: map<string, Record>, overrideCache: bool,
                    slug: string -> string, fetch: string -> Record, i: nat)
    requires i < |movies|
    ensures Collected(movies[..i + 1], cachedMap, overrideCache, slug, fetch) ==
            Collected(movies[..i], cachedMap, overrideCache, slug, fetch) + [Resolve(movies[i], cachedMap, overrideCache, slug, fetch)]
    ensures Queried(movies[..i + 1], cachedMap, overrideCache, slug) ==
            Queried(movies[..i], cachedMap, overrideCache, slug) + (if Cached(movies[i], cachedMap, overrideCache, slug) then [] else [movies[i]])
  {
    TakeTake(movies, i);
  }

  /** The search `collectMovieData` runs for a title. */
  function Search(svc: Services): string -> Record {
    title => FetchMovieData(svc, Some(Str(title)), 0)
  }

  /** `collectMovieData(movies, cachedData)`: the cache is keyed by the slug of
      each cached record's `title`, the last record of a slug winning. Every
      cached title must be a string for `slugify`, and no scraped title may slug
      to `constructor`, which `{}` inherits. */
  method CollectMovieData(svc: Services, movies: seq<string>, cachedData: seq<Record>, overrideCache: bool)
    returns (movieData: seq<Record>, queried: seq<string>)
    requires forall j :: 0 <= j < |cachedData| ==> HasTitle(cachedData[j])
    requires forall i :: 0 <= i < |movies| ==> Slugify(movies[i]) != "constructor"
    ensures movieData == Collected(movies, IndexBy(cachedData, TitleSlug), overrideCache, Slugify, Search(svc))
    ensures queried == Queried(movies, IndexBy(cachedData, TitleSlug), overrideCache, Slugify)
  {
    var cachedMap := IndexBy(cachedData, TitleSlug);
    movieData, queried := CollectWith(movies, cachedMap, overrideCache, Slugify, Search(svc));
  }

  /** The n-th record is the n-th title's. */
  lemma {:induction false} CollectedAt(movies: seq<string>, cachedMap: map<string, Record>, overrideCache: bool,
                                       slug: string -> string, fetch: string -> Record)
    ensures |Collected(movies, cachedMap, overrideCache, slug, fetch)| == |movies|
    ensures forall i :: 0 <= i < |movies| ==>
              Collected(movies, cachedMap, overrideCache, slug, fetch)[i] == Resolve(movies[i], cachedMap, overrideCache, slug, fetch)
  {
    if movies != [] {
      var n := |movies| - 1;
      CollectedAt(movies[..n], cachedMap, overrideCache, slug, fetch);
    }
  }

  /** A title whose slug the cache knows, with no override, yields the last cached
      record with that slug; any other title yields its search. */
  lemma CollectedEntry(movies: seq<string>, cachedData: seq<Record>, overrideCache: bool,
                       keyOf: Record -> string, slug: string -> string, fetch: string -> Record)
    ensures var r := Collected(movies, IndexBy(cachedData, keyOf), overrideCache, slug, fetch);
            && |r| == |movies|
            && (forall i, j :: 0 <= i < |movies| && 0 <= j < |cachedData| && !overrideCache
                  && keyOf(cachedData[j]) == slug(movies[i])
                  && (forall l :: j < l < |cachedData| ==> keyOf(cachedData[l]) != slug(movies[i]))
                  ==> r[i] == cachedData[j])
            && (forall i :: 0 <= i < |movies| &&
                  (overrideCache || forall j :: 0 <= j < |cachedData| ==> keyOf(cachedData[j]) != slug(movies[i]))
                  ==> r[i] == fetch(movies[i]))
  {
    var cachedMap := IndexBy(cachedData, keyOf);
    CollectedAt(movies, cachedMap, overrideCache, slug, fetch);
    forall i, j | 0 <= i < |movies| && 0 <= j < |cachedData| && !overrideCache
                  && keyOf(cachedData[j]) == slug(movies[i])
                  && (forall l :: j < l < |cachedData| ==> keyOf(cachedData[l]) != slug(movies[i]))
      ensures Collected(movies, cachedMap, overrideCache, slug, fetch)[i] == cachedData[j]
    {
      IndexByLast(cachedData, keyOf, j);
    }
  }

  /** With the cache overridden, every title is searched for. */
  lemma {:induction false} OverrideQueriesAll(movies: seq<string>, cachedMap: map<string, Record>, slug: string -> string)
    ensures Queried(movies, cachedMap, true, slug) == movies
  {
    if movies != [] {
      var n := |movies| - 1;
      OverrideQueriesAll(movies[..n], cachedMap, slug);
      assert movies == movies[..n] + [movies[n]];
    }
  }

  /** The searched titles are exactly the titles the cache does not answer. */
  lemma {:induction false} QueriedUncached(movies: seq<string>, cachedMap: map<string, Record>, overrideCache: bool,
                                           slug: string -> string)
    ensures forall t :: t in Queried(movies, cachedMap, overrideCache, slug) <==>
              t in movies && !Cached(t, cachedMap, overrideCache, slug)
  {
    if movies != [] {
      var n := |movies| - 1;
      QueriedUncached(movies[..n], cachedMap, overrideCache, slug);
      assert movies == movies[..n] + [movies[n]];
    }
  }

  // ---------------------------------------------------------------------------
  // combineWatchlists
  // ---------------------------------------------------------------------------

  /** `{ ...movie, dateAdded: cached.dateAdded }` when the cache has the id. */
  function CarryDate(movie: Record, cachedById: map<string, Record>): Record {
    var key := IdKey(movie);
    if key in cachedById then Put(movie, "dateAdded", Get(cachedById[key], "dateAdded")) else movie
  }

  /** `combineWatchlists(newData, cachedData)`. No id may name what `{}` inherits,
      unless the cache sets it as its own: the lookup would find the inherited
      property instead. */
  function CombineWatchlists(newData: seq<Record>, cachedData: seq<Record>): (r: seq<Record>)
    requires forall j :: 0 <= j < |cachedData| ==> IdKey(cachedData[j]) != "__proto__"
    requires forall i :: 0 <= i < |newData| ==>
               IdKey(newData[i]) !in PrototypeNames || exists j :: 0 <= j < |cachedData| && IdKey(cachedData[j]) == IdKey(newData[i])
    ensures |r| == |newData|
    ensures forall i, k :: 0 <= i < |newData| && k != "dateAdded" ==> Get(r[i], k) == Get(newData[i], k)
  {
    var cachedById := IndexBy(cachedData, IdKey);
    seq(|newData|, i requires 0 <= i < |newData| => CarryDate(newData[i], cachedById))
  }

  /** A record keeps its own `dateAdded` when no cached record has its id, and
      takes that of the last cached record with its id otherwise. */
  lemma CombineDates(newData: seq<Record>, cachedData: seq<Record>)
    requires forall j :: 0 <= j < |cachedData| ==> IdKey(cachedData[j]) != "__proto__"
    requires forall i :: 0 <= i < |newData| ==>
               IdKey(newData[i]) !in PrototypeNames || exists j :: 0 <= j < |cachedData| && IdKey(cachedData[j]) == IdKey(newData[i])
    ensures var r := CombineWatchlists(newData, cachedData);
            forall i :: 0 <= i < |newData| && (forall j :: 0 <= j < |cachedData| ==> IdKey(cachedData[j]) != IdKey(newData[i]))
              ==> r[i] == newData[i]
    ensures var r := CombineWatchlists(newData, cachedData);
            forall i, j :: 0 <= i < |newData| && 0 <= j < |cachedData| && IdKey(cachedData[j]) == IdKey(newData[i])
                  && (forall l :: j < l < |cachedData| ==> IdKey(cachedData[l]) != IdKey(newData[i]))
              ==> Get(r[i], "dateAdded") == Get(cachedData[j], "dateAdded")
  {
    forall i, j | 0 <= i < |newData| && 0 <= j < |cachedData| && IdKey(cachedData[j]) == IdKey(newData[i])
                  && (forall l :: j < l < |cachedData| ==> IdKey(cachedData[l]) != IdKey(newData[i]))
      ensures Get(CombineWatchlists(newData, cachedData)[i], "dateAdded") == Get(cachedData[j], "dateAdded")
    {
      IndexByLast(cachedData, IdKey, j);
    }
  }

  // ---------------------------------------------------------------------------
  // createUnknownsFile
  // ---------------------------------------------------------------------------

  /** Some record of `data` has key k. */
  predicate Seen(data: seq<Record>, k: string, keyOf: Record -> string) {
    exists j :: 0 <= j < |data| && keyOf(data[j]) == k
  }

  /** Every record whose key an earlier record already had, in order. */
  function Duplicates(data: seq<Record>, keyOf: Record -> string): seq<Record> {
    if data == [] then []
    else
      var n := |data| - 1;
      Duplicates(data[..n], keyOf) + (if Seen(data[..n], keyOf(data[n]), keyOf) then [data[n]] else [])
  }

  /** The `titleCount` loop, which collects `duplicates`. */
  method CountTitles(data: seq<Record>, keyOf: Record -> string) returns (duplicates: seq<Record>)
    ensures duplicates == Duplicates(data, keyOf)
  {
    var titleCount: map<string, nat> := map[];
    duplicates := [];
    for i := 0 to |data|
      invariant forall k :: k in titleCount <==> Seen(data[..i], k, keyOf)
      invariant forall k :: k in titleCount ==> titleCount[k] >= 1
      invariant duplicates == Duplicates(data[..i], keyOf)
    {
      var item := data[i];
      var key := keyOf(item);
      var count := if key in titleCount then titleCount[key] else 0;
      titleCount := titleCount[key := count + 1];
      if titleCount[key] > 1 {
        duplicates := duplicates + [item];
      }
      TakeTake(data, i);
      SeenExtend(data[..i + 1], keyOf);
    }
    assert data[..|data|] == data;
  }

  lemma SeenExtend(data: seq<Record>, keyOf: Record -> string)
    requires data != []
    ensures forall k :: Seen(data, k, keyOf) <==> Seen(data[..|data| - 1], k, keyOf) || k == keyOf(data[|data| - 1])
  {
    var n := |data| - 1;
    forall k | Seen(data[..n], k, keyOf) ensures Seen(data, k, keyOf) {
      var j :| 0 <= j < n && keyOf(data[..n][j]) == k;
      assert data[j] == data[..n][j];
    }
    forall k | Seen(data, k, keyOf) && k != keyOf(data[n]) ensures Seen(data[..n], k, keyOf) {
      var j :| 0 <= j < |data| && keyOf(data[j]) == k;
      assert data[..n][j] == data[j];
    }
  }

  /** Record i of `data` has a key an earlier record already had. */
  predicate RepeatAt(data: seq<Record>, i: int, keyOf: Record -> string) {
    0 < i < |data| && Seen(data[..i], keyOf(data[i]), keyOf)
  }

  lemma RepeatAtPrefix(data: seq<Record>, n: nat, i: int, keyOf: Record -> string)
    requires n <= |data| && RepeatAt(data[..n], i, keyOf)
    ensures RepeatAt(data, i, keyOf) && data[..n][i] == data[i]
  {
    assert data[..n][..i] == data[..i];
  }

  /** Each duplicate is a record that came after another with its key. */
  lemma {:induction false} DuplicatesRepeat(data: seq<Record>, keyOf: Record -> string, t: nat)
    requires t < |Duplicates(data, keyOf)|
    ensures exists i :: RepeatAt(data, i, keyOf) && Duplicates(data, keyOf)[t] == data[i]
  {
    var n := |data| - 1;
    var front := Duplicates(data[..n], keyOf);
    assert Duplicates(data, keyOf) == front + (if Seen(data[..n], keyOf(data[n]), keyOf) then [data[n]] else []);
    if t < |front| {
      DuplicatesRepeat(data[..n], keyOf, t);
      var i :| RepeatAt(data[..n], i, keyOf) && front[t] == data[..n][i];
      RepeatAtPrefix(data, n, i, keyOf);
      assert Duplicates(data, keyOf)[t] == data[i];
    } else {
      assert RepeatAt(data, n, keyOf) && Duplicates(data, keyOf)[t] == data[n];
    }
  }

  /** The distinct keys of `data`. */
  function KeySet(data: seq<Record>, keyOf: Record -> string): set<string> {
    set i | 0 <= i < |data| :: keyOf(data[i])
  }

  lemma KeySetExtend(data: seq<Record>, keyOf: Record -> string)
    requires data != []
    ensures var n := |data| - 1;
            && KeySet(data, keyOf) == KeySet(data[..n], keyOf) + {keyOf(data[n])}
            && (Seen(data[..n], keyOf(data[n]), keyOf) <==> keyOf(data[n]) in KeySet(data[..n], keyOf))
  {
    var n := |data| - 1;
    var front := data[..n];
    forall k | k in KeySet(data, keyOf) ensures k in KeySet(front, keyOf) + {keyOf(data[n])} {
      var i :| 0 <= i < |data| && keyOf(data[i]) == k;
      if i < n { assert keyOf(front[i]) == k; }
    }
    forall k | k in KeySet(front, keyOf) ensures k in KeySet(data, keyOf) {
      var i :| 0 <= i < n && keyOf(front[i]) == k;
      assert keyOf(data[i]) == k;
    }
    if Seen(front, keyOf(data[n]), keyOf) {
      var j :| 0 <= j < n && keyOf(front[j]) == keyOf(data[n]);
      assert keyOf(data[n]) in KeySet(front, keyOf);
    }
  }

  /** One duplicate for every record beyond the first of each key. */
  lemma {:induction false} DuplicatesCount(data: seq<Record>, keyOf: Record -> string)
    ensures |Duplicates(data, keyOf)| + |KeySet(data, keyOf)| == |data|
  {
    if data == [] {
      assert KeySet(data, keyOf) == {};
    } else {
      var n := |data| - 1;
      DuplicatesCount(data[..n], keyOf);
      KeySetExtend(data, keyOf);
    }
  }

  /** The re-query `createUnknownsFile` runs for a duplicate's title: the second
      TMDB result. */
  function Requery(svc: Services): Option<Json> -> Record {
    title => FetchMovieData(svc, title, 1)
  }

  /** `fixed && fixed.id !== dup.id ? fixed : dup`, with `fixed` the re-query of
      the duplicate's title: a duplicate is replaced only by a record with another
      id. */
  function Replacement(dup: Record, requery: Option<Json> -> Record): (r: Record)
    ensures r == dup || r == requery(Get(dup, "title"))
    ensures r != dup ==> !StrictEquals(Get(r, "id"), Get(dup, "id"))
    ensures !StrictEquals(Get(requery(Get(dup, "title")), "id"), Get(dup, "id")) ==> r == requery(Get(dup, "title"))
  {
    var fixed := requery(Get(dup, "title"));
    if !StrictEquals(Get(fixed, "id"), Get(dup, "id")) then fixed else dup
  }

  /** A duplicate the re-query finds nothing for keeps itself when it was
      unmatched already. */
  lemma UnmatchedDuplicateKept(svc: Services, dup: Record)
    requires Chosen(svc.lookup(Get(dup, "title")), 1).None? && Get(dup, "id") == Some(Num(0))
    ensures Replacement(dup, Requery(svc)) == dup
  {
    assert Requery(svc)(Get(dup, "title")) == FetchMovieData(svc, Get(dup, "title"), 1);
  }

  /** `reRunDuplicates`: each duplicate or its replacement, in order. */
  function Rerun(duplicates: seq<Record>, requery: Option<Json> -> Record): (r: seq<Record>)
    ensures |r| == |duplicates|
  {
    if duplicates == [] then []
    else
      var n := |duplicates| - 1;
      Rerun(duplicates[..n], requery) + [Replacement(duplicates[n], requery)]
  }

  lemma {:induction false} RerunAt(duplicates: seq<Record>, requery: Option<Json> -> Record)
    ensures forall t :: 0 <= t < |duplicates| ==> Rerun(duplicates, requery)[t] == Replacement(duplicates[t], requery)
  {
    if duplicates != [] {
      RerunAt(duplicates[..|duplicates| - 1], requery);
    }
  }

  /** The re-query loop over the duplicates. */
  method RerunDuplicates(duplicates: seq<Record>, requery: Option<Json> -> Record) returns (reRun: seq<Record>)
    ensures reRun == Rerun(duplicates, requery)
  {
    reRun := [];
    for t := 0 to |duplicates|
      invariant reRun == Rerun(duplicates[..t], requery)
    {
      var dup := duplicates[t];
      var fixed := requery(Get(dup, "title"));
      TakeTake(duplicates, t);
      reRun := reRun + [if !StrictEquals(Get(fixed, "id"), Get(dup, "id")) then fixed else dup];
    }
    assert duplicates[..|duplicates|] == duplicates;
  }

  /** The records with `mediaType === 'person'`. */
  function People(data: seq<Record>): seq<Record> {
    Where(data, "mediaType", Some(Str("person")), true)
  }

  /** The records with `id === 0`. */
  function Unmatched(data: seq<Record>): seq<Record> {
    Where(data, "id", Some(Num(0)), true)
  }

  /** `createUnknownsFile(data)`: the list it writes to the unknowns file, people
      first, then unmatched records, then the re-queried duplicates. */
  method CreateUnknowns(svc: Services, data: seq<Record>) returns (unknowns: seq<Record>)
    requires forall i :: 0 <= i < |data| ==> HasTitle(data[i]) && TitleSlug(data[i]) != "constructor"
    ensures unknowns == People(data) + Unmatched(data) + Rerun(Duplicates(data, TitleSlug), Requery(svc))
  {
    var people := Where(data, "mediaType", Some(Str("person")), true);
    var unmatched := Where(data, "id", Some(Num(0)), true);
    var duplicates := CountTitles(data, TitleSlug);
    var reRunDuplicates := RerunDuplicates(duplicates, Requery(svc));
    unknowns := people + unmatched + reRunDuplicates;
  }

  /** The unknown list holds every person, every unmatched record and one entry
      per repeated key beyond its first, in that order. */
  lemma UnknownsShape(data: seq<Record>, keyOf: Record -> string, requery: Option<Json> -> Record)
    ensures var unknowns := People(data) + Unmatched(data) + Rerun(Duplicates(data, keyOf), requery);
            && |unknowns| + |KeySet(data, keyOf)| == |People(data)| + |Unmatched(data)| + |data|
            && forall t :: 0 <= t < |Duplicates(data, keyOf)| ==>
                 unknowns[|People(data)| + |Unmatched(data)| + t] == Replacement(Duplicates(data, keyOf)[t], requery)
  {
    DuplicatesCount(data, keyOf);
    RerunAt(Duplicates(data, keyOf), requery);
  }
}
