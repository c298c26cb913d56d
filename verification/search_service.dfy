/** The search service: normalises a search request, assembles the full-text query string,
    picks the podcast or the episode search of the data-access layer and projects what it
    returns into uniform result rows with relative links.

    The data-access layer is a pair of function parameters; the service's own logic is
    modelled as pure functions over immutable records. */
module SearchService {
  import opened Wrappers
  import opened JavaStrings
  import opened Domain

  // ---------------------------------------------------------------------------
  // Java int arithmetic
  // ---------------------------------------------------------------------------

  const MinInt32: int := -0x8000_0000
  const MaxInt32: int := 0x7fff_ffff

  /** A Java `int`. */
  type Int32 = x: int | -0x8000_0000 <= x <= 0x7fff_ffff

  /** Two's-complement wrap-around of an exact result into a Java `int`. */
  function Wrap32(x: int): (r: Int32)
    ensures MinInt32 <= x <= MaxInt32 ==> r == x
    ensures (x - r) % 0x1_0000_0000 == 0
  {
    (x + 0x8000_0000) % 0x1_0000_0000 - 0x8000_0000
  }

  // ---------------------------------------------------------------------------
  // Data model
  // ---------------------------------------------------------------------------

  /** The request's search mode, compared with SearchModeType's two values. */
  datatype SearchMode = NaturalMode | BooleanMode | OtherMode(value: string)

  /** OrderByOption; only PUBLICATION_DATE is named by the service. */
  datatype OrderBy = PublicationDate | OtherOrder(name: string)

  /** The search request (SearchData): free text, mode, target, category filter, the four
      boolean-mode inputs, pagination and ordering. */
  datatype SearchData = SearchData(
    queryText: Option<string>,
    searchMode: Option<SearchMode>,
    searchTarget: Option<string>,
    categId: Option<string>,
    allTheseWords: Option<string>,
    noneOfTheseWords: Option<string>,
    anyOfTheseWords: Option<string>,
    exactPhrase: Option<string>,
    currentPage: Int32,
    numberResultsPerPage: Int32,
    firstItemOnPage: Int32,
    orderBy: Option<OrderBy>
  )

  /** One row of a search answer (the source's `Result` class). `episodeId` stays unset for
      podcast rows. */
  datatype ResultEntry = ResultEntry(
    podcastId: int,
    episodeId: Option<int>,
    isEpisode: bool,
    title: Option<string>,
    publicationDate: Option<Date>,
    mediaType: Option<string>,
    description: Option<string>,
    mediaUrl: Option<string>,
    relativeLink: string
  )

  /** The answer: the rows plus an echo of the pagination parameters. */
  datatype SearchResult = SearchResult(
    results: seq<ResultEntry>,
    currentPage: Int32,
    numberOfItemsPerPage: Int32
  )

  /** The quick-search bar's localised "Search..." texts, which mean "return everything". */
  const SearchAllPlaceholders: seq<string> :=
    ["Search...", "C\U{0103}utare...", "Buscar...", "Suchen...", "Rechercher..."]

  // ---------------------------------------------------------------------------
  // Normalisation of the request
  // ---------------------------------------------------------------------------

  /** An empty category filter means no filter; null and non-empty filters are kept. */
  function NormaliseCategory(categId: Option<string>): (r: Option<string>)
    ensures r.None? <==> categId.None? || categId.value == ""
    ensures r.Some? ==> r == categId
  {
    if categId.Some? && |categId.value| == 0 then None else categId
  }

  /** Index of the first row of the requested page, `(currentPage - 1) * numberResultsPerPage`
      in Java `int` arithmetic. */
  function FirstItemOnPage(currentPage: Int32, perPage: Int32): (r: Int32)
    ensures 1 <= currentPage && MinInt32 <= (currentPage - 1) * perPage <= MaxInt32 ==>
              r == (currentPage - 1) * perPage
  {
    Wrap32(Wrap32(currentPage - 1) * perPage)
  }

  /** Whether a free-text query asks for everything: null, or a placeholder once trimmed. */
  function IsDefaultSearchText(queryText: Option<string>): (r: bool)
    ensures queryText.None? ==> r
    ensures queryText.Some? ==>
      (forall i :: 0 <= i < |queryText.value| ==> IsTrimmable(queryText.value[i])) ==> !r
  {
    if queryText.None? then true
    else
      BlankIffAllTrimmable(queryText.value);
      Trim(queryText.value) in SearchAllPlaceholders
  }

  /** Natural mode: a "return all" query is cleared and defaults the ordering to publication
      date; real text clears the ordering so that relevance ranks the rows. */
  function NaturalModeQuery(sd: SearchData): SearchData {
    if IsDefaultSearchText(sd.queryText) then
      sd.(queryText := None,
          orderBy := if sd.orderBy.None? then Some(PublicationDate) else sd.orderBy)
    else
      sd.(orderBy := None)
  }

  /** The all-words and none-words inputs: each space-separated token is appended after a
      single space; a null or blank input contributes nothing. */
  function WordsSegment(words: Option<string>): string {
    if HasText(words) then JoinPrefixed(JavaSplit(words.value, ' '), " ") else ""
  }

  /** The any-words input, appended verbatim after a single space. */
  function AnyWordsSegment(words: Option<string>): string {
    if HasText(words) then " " + words.value else ""
  }

  /** The exact phrase, appended after " +" so that the full-text engine requires it. */
  function ExactPhraseSegment(phrase: Option<string>): string {
    if HasText(phrase) then " +" + phrase.value else ""
  }

  /** The boolean-mode query text: all-words, none-words, any-words, exact phrase. */
  function BooleanQueryText(sd: SearchData): string {
    WordsSegment(sd.allTheseWords) + WordsSegment(sd.noneOfTheseWords)
    + AnyWordsSegment(sd.anyOfTheseWords) + ExactPhraseSegment(sd.exactPhrase)
  }

  /** `buildSQLQuerySearchText`: rewrites query text and ordering according to the mode.
      A null mode throws when it is compared. */
  function BuildQuerySearchText(sd: SearchData): (r: Result<SearchData, Exception>)
    ensures r.Success? <==> sd.searchMode.Some?
    ensures r.Success? ==>
      && r.value == sd.(queryText := r.value.queryText, orderBy := r.value.orderBy)
      && (sd.searchMode == Some(BooleanMode) ==> r.value.orderBy == sd.orderBy)
  {
    match sd.searchMode
    case None => Failure(NullPointer("searchData.getSearchMode()"))
    case Some(NaturalMode) => Success(NaturalModeQuery(sd))
    case Some(BooleanMode) => Success(sd.(queryText := Some(BooleanQueryText(sd))))
    case Some(OtherMode(_)) => Success(sd)
  }

  /** The request as it is handed to the data-access layer. */
  function PrepareSearchData(sd: SearchData): (r: Result<SearchData, Exception>)
    ensures r.Success? <==> sd.searchMode.Some?
    ensures r.Success? ==>
      && r.value.categId == NormaliseCategory(sd.categId)
      && r.value.firstItemOnPage == FirstItemOnPage(sd.currentPage, sd.numberResultsPerPage)
      && r.value == sd.(categId := r.value.categId,
                        firstItemOnPage := r.value.firstItemOnPage,
                        queryText := r.value.queryText,
                        orderBy := r.value.orderBy)
  {
    BuildQuerySearchText(
      sd.(categId := NormaliseCategory(sd.categId),
          firstItemOnPage := FirstItemOnPage(sd.currentPage, sd.numberResultsPerPage)))
  }

  // ---------------------------------------------------------------------------
  // Properties of the prepared request
  // ---------------------------------------------------------------------------

  /** Natural mode with a null query or a (possibly padded) placeholder clears the query and
      sets the ordering to publication date only when none was chosen. */
  lemma NaturalModeMatchAll(sd: SearchData)
    requires sd.searchMode == Some(NaturalMode)
    requires sd.queryText.None? || Trim(sd.queryText.value) in SearchAllPlaceholders
    ensures PrepareSearchData(sd).Success?
    ensures PrepareSearchData(sd).value.queryText.None?
    ensures sd.orderBy.None? ==> PrepareSearchData(sd).value.orderBy == Some(PublicationDate)
    ensures sd.orderBy.Some? ==> PrepareSearchData(sd).value.orderBy == sd.orderBy
  {
  }

  /** Natural mode with any other query keeps the text and drops the ordering. */
  lemma NaturalModeWithText(sd: SearchData)
    requires sd.searchMode == Some(NaturalMode)
    requires sd.queryText.Some? && Trim(sd.queryText.value) !in SearchAllPlaceholders
    ensures PrepareSearchData(sd).Success?
    ensures PrepareSearchData(sd).value.queryText == sd.queryText
    ensures PrepareSearchData(sd).value.orderBy.None?
  {
  }

  /** The placeholders need no trimming, so padding one with blanks still asks for everything. */
  lemma PaddedPlaceholderMatchesAll(pre: string, i: nat, post: string)
    requires i < |SearchAllPlaceholders|
    requires forall k :: 0 <= k < |pre| ==> IsTrimmable(pre[k])
    requires forall k :: 0 <= k < |post| ==> IsTrimmable(post[k])
    ensures IsDefaultSearchText(Some(pre + SearchAllPlaceholders[i] + post))
  {
    var p := SearchAllPlaceholders[i];
    assert !IsTrimmable(p[0]) && !IsTrimmable(p[|p| - 1]);
    TrimPadded(pre, p, post);
  }

  /** A words segment is one space followed by its input without the trailing spaces: the
      split keeps interior and leading empty tokens and drops only trailing ones. */
  lemma WordsSegmentShape(words: Option<string>)
    ensures HasText(words) ==> WordsSegment(words) == " " + DropTrailing(words.value, ' ')
    ensures !HasText(words) ==> WordsSegment(words) == ""
  {
    if HasText(words) {
      var s := words.value;
      BlankIffAllTrimmable(s);
      var i :| 0 <= i < |s| && !IsTrimmable(s[i]);
      SplitThenPrefixJoin(s);
    }
  }

  /** Boolean mode: the query text is the four segments in order, each non-blank input
      prefixed by one space (the exact phrase by " +"), blank or null inputs contributing
      nothing and none-words carrying no operator; the ordering is left alone. */
  lemma BooleanModeQuery(sd: SearchData)
    requires sd.searchMode == Some(BooleanMode)
    ensures PrepareSearchData(sd).Success?
    ensures PrepareSearchData(sd).value.orderBy == sd.orderBy
    ensures PrepareSearchData(sd).value.queryText == Some(
      (if HasText(sd.allTheseWords) then " " + DropTrailing(sd.allTheseWords.value, ' ') else "")
      + (if HasText(sd.noneOfTheseWords) then " " + DropTrailing(sd.noneOfTheseWords.value, ' ') else "")
      + (if HasText(sd.anyOfTheseWords) then " " + sd.anyOfTheseWords.value else "")
      + (if HasText(sd.exactPhrase) then " +" + sd.exactPhrase.value else ""))
  {
    WordsSegmentShape(sd.allTheseWords);
    WordsSegmentShape(sd.noneOfTheseWords);
  }

  /** In boolean mode the query text is empty, never null, exactly when all four inputs are
      null or blank. */
  lemma BooleanQueryEmptyIffAllBlank(sd: SearchData)
    requires sd.searchMode == Some(BooleanMode)
    ensures PrepareSearchData(sd).Success?
    ensures PrepareSearchData(sd).value.queryText == Some("") <==>
      !HasText(sd.allTheseWords) && !HasText(sd.noneOfTheseWords)
      && !HasText(sd.anyOfTheseWords) && !HasText(sd.exactPhrase)
  {
    BooleanModeQuery(sd);
  }

  /** Any other mode leaves both the query text and the ordering as they were. */
  lemma OtherModeUntouched(sd: SearchData)
    requires sd.searchMode.Some? && sd.searchMode.value.OtherMode?
    ensures PrepareSearchData(sd).Success?
    ensures PrepareSearchData(sd).value.queryText == sd.queryText
    ensures PrepareSearchData(sd).value.orderBy == sd.orderBy
  {
  }

  // ---------------------------------------------------------------------------
  // Result mapping
  // ---------------------------------------------------------------------------

  /** A podcast's page: its short identifier when it has one, else id and slug. */
  function PodcastLink(p: Podcast): string {
    if p.identifier.Some? then "/" + p.identifier.value
    else "/podcasts/" + IntToString(p.podcastId) + "/" + NullableText(p.titleInUrl)
  }

  /** An episode's page, nested under its parent podcast's slug. */
  function EpisodeLink(e: Episode, parent: Podcast): string {
    "/podcasts/" + IntToString(e.podcastId) + "/" + NullableText(parent.titleInUrl)
    + "/episodes/" + IntToString(e.episodeId) + "/" + NullableText(e.titleInUrl)
  }

  function PodcastToResult(p: Podcast): ResultEntry {
    ResultEntry(p.podcastId, None, false, p.title, p.publicationDate, p.mediaType,
                p.description, p.lastEpisodeMediaUrl, PodcastLink(p))
  }

  function EpisodeToResult(e: Episode, parent: Podcast): ResultEntry {
    ResultEntry(e.podcastId, Some(e.episodeId), true, e.title, e.publicationDate, e.mediaType,
                e.description, e.mediaUrl, EpisodeLink(e, parent))
  }

  /** `mapPodcastsToResults`: one podcast row per podcast, in order. */
  function MapPodcastsToResults(podcasts: seq<Podcast>): (rs: seq<ResultEntry>)
    ensures |rs| == |podcasts|
    ensures forall i :: 0 <= i < |rs| ==>
      && !rs[i].isEpisode && rs[i].episodeId.None?
      && rs[i].podcastId == podcasts[i].podcastId
      && rs[i].title == podcasts[i].title
      && rs[i].publicationDate == podcasts[i].publicationDate
      && rs[i].mediaType == podcasts[i].mediaType
      && rs[i].description == podcasts[i].description
      && rs[i].mediaUrl == podcasts[i].lastEpisodeMediaUrl
      && rs[i].relativeLink == (
           if podcasts[i].identifier.Some? then "/" + podcasts[i].identifier.value
           else "/podcasts/" + IntToString(podcasts[i].podcastId) + "/"
                + NullableText(podcasts[i].titleInUrl))
    decreases |podcasts|
  {
    if |podcasts| == 0 then []
    else [PodcastToResult(podcasts[0])] + MapPodcastsToResults(podcasts[1..])
  }

  /** Every episode row needs the parent podcast; the first episode without one throws. */
  predicate AllHaveParents(episodes: seq<Episode>) {
    forall i :: 0 <= i < |episodes| ==> episodes[i].podcast.Some?
  }

  /** `mapEpisodesToResults`: one episode row per episode, in order. */
  function MapEpisodesToResults(episodes: seq<Episode>): (r: Result<seq<ResultEntry>, Exception>)
    ensures r.Success? <==> AllHaveParents(episodes)
    ensures r.Success? ==> |r.value| == |episodes|
    ensures r.Success? ==> forall i :: 0 <= i < |episodes| ==>
      && r.value[i].isEpisode
      && r.value[i].podcastId == episodes[i].podcastId
      && r.value[i].episodeId == Some(episodes[i].episodeId)
      && r.value[i].title == episodes[i].title
      && r.value[i].publicationDate == episodes[i].publicationDate
      && r.value[i].mediaType == episodes[i].mediaType
      && r.value[i].description == episodes[i].description
      && r.value[i].mediaUrl == episodes[i].mediaUrl
      && r.value[i].relativeLink ==
           "/podcasts/" + IntToString(episodes[i].podcastId) + "/"
           + NullableText(episodes[i].podcast.value.titleInUrl)
           + "/episodes/" + IntToString(episodes[i].episodeId) + "/"
           + NullableText(episodes[i].titleInUrl)
    decreases |episodes|
  {
    if |episodes| == 0 then Success([])
    else
      match episodes[0].podcast
      case None => Failure(NullPointer("episode.getPodcast()"))
      case Some(parent) =>
        match MapEpisodesToResults(episodes[1..])
        case Failure(e) => Failure(e)
        case Success(rest) => Success([EpisodeToResult(episodes[0], parent)] + rest)
  }

  // ---------------------------------------------------------------------------
  // The service call
  // ---------------------------------------------------------------------------

  /** Whether the podcast search is the one to run. */
  function IsTargetPodcasts(sd: SearchData): (r: bool)
    ensures r <==> sd.searchTarget == Some("podcasts")
  {
    sd.searchTarget.Some? && sd.searchTarget.value == "podcasts"
  }

  /** `getResultsForSearchCriteria`, with the data-access layer's two searches as parameters. */
  function GetResultsForSearchCriteria(
    sd: SearchData,
    searchPodcasts: SearchData -> seq<Podcast>,
    searchEpisodes: SearchData -> seq<Episode>
  ): (r: Result<SearchResult, Exception>)
    ensures r.Success? ==>
      && r.value.currentPage == sd.currentPage
      && r.value.numberOfItemsPerPage == sd.numberResultsPerPage
  {
    match PrepareSearchData(sd)
    case Failure(e) => Failure(e)
    case Success(query) =>
      if IsTargetPodcasts(query) then
        Success(SearchResult(MapPodcastsToResults(searchPodcasts(query)),
                             sd.currentPage, sd.numberResultsPerPage))
      else
        match MapEpisodesToResults(searchEpisodes(query))
        case Failure(e) => Failure(e)
        case Success(rows) => Success(SearchResult(rows, sd.currentPage, sd.numberResultsPerPage))
  }

  /** The podcast search runs exactly when the target is "podcasts"; a null or any other
      target runs the episode search. Either way the rows are those of the prepared request,
      one per returned record, and the page echo is the request's. */
  lemma DispatchByTarget(
    sd: SearchData,
    searchPodcasts: SearchData -> seq<Podcast>,
    searchEpisodes: SearchData -> seq<Episode>)
    requires sd.searchMode.Some?
    ensures var q := PrepareSearchData(sd).value;
      var r := GetResultsForSearchCriteria(sd, searchPodcasts, searchEpisodes);
      && (sd.searchTarget == Some("podcasts") ==>
            r == Success(SearchResult(MapPodcastsToResults(searchPodcasts(q)),
                                      sd.currentPage, sd.numberResultsPerPage)))
      && (sd.searchTarget != Some("podcasts") ==>
            (r.Success? <==> AllHaveParents(searchEpisodes(q)))
            && (r.Success? ==> r.value.results == MapEpisodesToResults(searchEpisodes(q)).value))
  {
  }

  /** A request without a mode throws before any search runs. */
  lemma MissingModeThrows(
    sd: SearchData,
    searchPodcasts: SearchData -> seq<Podcast>,
    searchEpisodes: SearchData -> seq<Episode>)
    requires sd.searchMode.None?
    ensures GetResultsForSearchCriteria(sd, searchPodcasts, searchEpisodes).Failure?
  {
  }

  // ---------------------------------------------------------------------------
  // Links decode back to what they were built from
  // ---------------------------------------------------------------------------

  /** A podcast without a short identifier links to "/podcasts/<id>/<slug>": cut at '/', the
      link gives back the podcast's id and slug (a slug without '/'). */
  lemma PodcastLinkDecodes(p: Podcast)
    requires p.identifier.None?
    requires '/' !in NullableText(p.titleInUrl)
    ensures SplitOn(PodcastLink(p), '/')
              == ["", "podcasts", IntToString(p.podcastId), NullableText(p.titleInUrl)]
    ensures ParseInt(SplitOn(PodcastLink(p), '/')[2]) == p.podcastId
  {
    var id := IntToString(p.podcastId);
    var slug := NullableText(p.titleInUrl);
    var parts := ["", "podcasts", id, slug];
    assert '/' !in id;
    assert JoinWith(parts[2..], '/') == id + "/" + slug by {
      assert parts[2..][1..] == [slug];
    }
    assert JoinWith(parts[1..], '/') == "podcasts/" + id + "/" + slug by {
      assert parts[1..][1..] == parts[2..];
    }
    assert JoinWith(parts, '/') == PodcastLink(p);
    SplitJoin(parts, '/');
    IntToStringRoundTrip(p.podcastId);
  }

  /** An episode links to "/podcasts/<id>/<parent slug>/episodes/<episode id>/<slug>": cut at
      '/', the link gives back both ids and both slugs. */
  lemma EpisodeLinkDecodes(e: Episode, parent: Podcast)
    requires '/' !in NullableText(parent.titleInUrl)
    requires '/' !in NullableText(e.titleInUrl)
    ensures SplitOn(EpisodeLink(e, parent), '/')
              == ["", "podcasts", IntToString(e.podcastId), NullableText(parent.titleInUrl),
                  "episodes", IntToString(e.episodeId), NullableText(e.titleInUrl)]
    ensures ParseInt(SplitOn(EpisodeLink(e, parent), '/')[2]) == e.podcastId
    ensures ParseInt(SplitOn(EpisodeLink(e, parent), '/')[5]) == e.episodeId
  {
    var pid := IntToString(e.podcastId);
    var eid := IntToString(e.episodeId);
    var parts := ["", "podcasts", pid, NullableText(parent.titleInUrl),
                  "episodes", eid, NullableText(e.titleInUrl)];
    assert '/' !in pid && '/' !in eid;
    EpisodePathJoin(pid, NullableText(parent.titleInUrl), eid, NullableText(e.titleInUrl));
    SplitJoin(parts, '/');
    IntToStringRoundTrip(e.podcastId);
    IntToStringRoundTrip(e.episodeId);
  }

  lemma JoinWithCons(head: string, tail: seq<string>, sep: char)
    requires |tail| >= 1
    ensures JoinWith([head] + tail, sep) == head + [sep] + JoinWith(tail, sep)
  {
  }

  /** The episode link is its seven path segments joined by '/'. */
  lemma EpisodePathJoin(pid: string, parentSlug: string, eid: string, slug: string)
    ensures JoinWith(["", "podcasts", pid, parentSlug, "episodes", eid, slug], '/')
            == "/podcasts/" + pid + "/" + parentSlug + "/episodes/" + eid + "/" + slug
  {
    NestedJoin(pid, parentSlug, eid, slug);
    FlattenPath(pid, parentSlug, eid, slug);
  }

  lemma NestedJoin(pid: string, parentSlug: string, eid: string, slug: string)
    ensures JoinWith(["", "podcasts", pid, parentSlug, "episodes", eid, slug], '/')
            == "" + "/" + ("podcasts" + "/" + (pid + "/" + (parentSlug + "/" + ("episodes" + "/" + (eid + "/" + slug)))))
  {
    var t5 := [eid, slug];
    JoinWithCons(eid, [slug], '/');
    var t4 := ["episodes"] + t5;
    JoinWithCons("episodes", t5, '/');
    var t3 := [parentSlug] + t4;
    JoinWithCons(parentSlug, t4, '/');
    var t2 := [pid] + t3;
    JoinWithCons(pid, t3, '/');
    var t1 := ["podcasts"] + t2;
    JoinWithCons("podcasts", t2, '/');
    JoinWithCons("", t1, '/');
    assert [""] + t1 == ["", "podcasts", pid, parentSlug, "episodes", eid, slug];
  }

  lemma FlattenPath(pid: string, parentSlug: string, eid: string, slug: string)
    ensures "" + "/" + ("podcasts" + "/" + (pid + "/" + (parentSlug + "/" + ("episodes" + "/" + (eid + "/" + slug)))))
            == "/podcasts/" + pid + "/" + parentSlug + "/episodes/" + eid + "/" + slug
  {
  }

  /** The worked examples: identifier "foo" links to "/foo"; id 42 with slug "my-cast" to
      "/podcasts/42/my-cast"; its episode 7 "ep-one" to "/podcasts/42/my-cast/episodes/7/ep-one". */
  lemma LinkExamples(p: Podcast, e: Episode)
    requires p.podcastId == 42 && p.titleInUrl == Some("my-cast")
    requires e.podcastId == 42 && e.episodeId == 7 && e.titleInUrl == Some("ep-one")
    ensures PodcastLink(p.(identifier := Some("foo"))) == "/foo"
    ensures PodcastLink(p.(identifier := None)) == "/podcasts/42/my-cast"
    ensures EpisodeLink(e, p) == "/podcasts/42/my-cast/episodes/7/ep-one"
  {
  }
}
