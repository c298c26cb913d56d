# Podcastpedia search and user services, modelled in Dafny

This project models the service layer of the Podcastpedia podcast directory:

- **The search service** (`SearchServiceImpl`). It normalises a search request: an empty
  category filter becomes null, and the first row of the page is computed. It then builds the
  full-text query string. Natural mode either clears a "return all" placeholder or drops the
  ordering. Boolean mode assembles the all-words, none-words, any-words and exact-phrase
  inputs. Next it chooses between the podcast search and the episode search of the
  data-access layer. Finally it projects the returned podcasts or episodes into uniform
  `Result` rows, each with a computed relative link.
- **The user service** (`UserServiceImpl`). It cuts every subscribed podcast's episode list to
  its first three entries. It prepares the `User` record handed to the data-access layer on
  registration, on password reset and in the two enabling flows. It checks whether a user
  exists. It forwards votes and subscription changes, each followed by its cache eviction.

Everything is a pure function over immutable records:

- `wrappers.dfy`: `Option` stands for a nullable Java reference. `Result` stands for a call
  that returns or throws.
- `java_strings.dfy`: the Java string behaviour the services depend on. This covers
  `String.trim()`, `String.split(" ")` and the decimal rendering of an `int` when it is
  concatenated into a string. It also proves the split/join and int/string round trips.
- `domain.dfy`: the `Podcast`, `Episode` and `Date` records.
- `search_service.dfy`: the search service.
- `user_service.dfy`: the user service. Each operation returns its value together with the
  trace of its data-access calls and cache evictions, in order.

The data-access layer's reads are function parameters. Its writes are entries in the
returned trace. The password hash (`hash`), the fresh UUID (`freshToken`) and the clock
(`now`) are parameters too.

Java's `split(" ")` is modelled exactly as the JDK defines it. If the separator does not
occur, the result is the whole string. Otherwise every piece is kept, leading and interior
empty ones included, and only the trailing empty pieces are dropped.
`SplitThenPrefixJoin` proves the consequence for the boolean query. Re-joining the tokens
with a space before each one gives one space, then the input without its trailing spaces.
Interior runs of spaces survive, and so do trailing tabs. The code therefore does not
normalise spacing: an input "a  b" contributes " a  b", and "  a" contributes "   a".

## Model

| member | source | states |
|---|---|---|
| SearchService.NormaliseCategory | core/src/main/java/org/podcastpedia/core/searching/SearchServiceImpl.java:36-38 | the filter becomes null exactly when it is null or the empty string; any other filter is kept as it is |
| SearchService.FirstItemOnPage | core/src/main/java/org/podcastpedia/core/searching/SearchServiceImpl.java:39 | for a page of 1 or more whose offset fits in an `int`, the first row is (currentPage − 1) × numberResultsPerPage; otherwise Java `int` wrap-around |
| SearchService.PrepareSearchData | core/src/main/java/org/podcastpedia/core/searching/SearchServiceImpl.java:35-44 | the request given to the search throws exactly when the mode is null; otherwise it has the normalised category and the page offset, and differs from the input in no field except those two, the query text and the ordering |
| SearchService.IsDefaultSearchText | core/src/main/java/org/podcastpedia/core/searching/SearchServiceImpl.java:168-170 | a null query asks for everything; a non-null query made only of characters at most U+0020 (one that `trim()` empties) is real text, not "return all", since no placeholder is empty; the placeholder cases are NaturalModeMatchAll and PaddedPlaceholderMatchesAll, the rest NaturalModeWithText |
| SearchService.BuildQuerySearchText | core/src/main/java/org/podcastpedia/core/searching/SearchServiceImpl.java:111-166 | throws exactly when the mode is null (the `equals` call on it); otherwise only the query text and the ordering may change, and boolean mode keeps the ordering; per mode: NaturalModeMatchAll, NaturalModeWithText, BooleanModeQuery, OtherModeUntouched, MissingModeThrows |
| SearchService.NaturalModeMatchAll | core/src/main/java/org/podcastpedia/core/searching/SearchServiceImpl.java:112-121 | natural mode with a null query, or one that trims to a placeholder, clears the query; the ordering becomes PUBLICATION_DATE only when it was null and is kept otherwise |
| SearchService.PaddedPlaceholderMatchesAll | core/src/main/java/org/podcastpedia/core/searching/SearchServiceImpl.java:168-170 | any of the five placeholders wrapped in whitespace still counts as "return all", because the comparison is made after `trim()` |
| SearchService.NaturalModeWithText | core/src/main/java/org/podcastpedia/core/searching/SearchServiceImpl.java:122-125 | natural mode with any other query keeps the text and sets the ordering to null |
| SearchService.WordsSegmentShape | core/src/main/java/org/podcastpedia/core/searching/SearchServiceImpl.java:136-150 | a non-blank all-words or none-words input contributes one space followed by the input without its trailing spaces; a null or blank one contributes nothing |
| SearchService.BooleanModeQuery | core/src/main/java/org/podcastpedia/core/searching/SearchServiceImpl.java:131-165 | boolean mode sets the query to the all-words, none-words, any-words and exact-phrase segments in that order; each non-blank input is prefixed by one space, the phrase by " +"; none-words get no operator; the ordering is untouched |
| SearchService.BooleanQueryEmptyIffAllBlank | core/src/main/java/org/podcastpedia/core/searching/SearchServiceImpl.java:133-164 | in boolean mode the query is the empty string, never null, exactly when all four inputs are null or blank |
| SearchService.OtherModeUntouched | core/src/main/java/org/podcastpedia/core/searching/SearchServiceImpl.java:111-166 | a mode that is neither natural nor boolean leaves the query text and the ordering alone |
| SearchService.MapPodcastsToResults | core/src/main/java/org/podcastpedia/core/searching/SearchServiceImpl.java:60-81 | one row per podcast, same order; each row is not an episode and has no episode id; id, title, date, media type, description and last-episode media URL are copied; link is "/"+identifier when the identifier is non-null, else "/podcasts/"+id+"/"+titleInUrl |
| SearchService.MapEpisodesToResults | core/src/main/java/org/podcastpedia/core/searching/SearchServiceImpl.java:83-104 | throws exactly when some episode has no parent podcast; otherwise one row per episode, same order, each an episode with both ids and fields copied, linked "/podcasts/"+podcastId+"/"+parent titleInUrl+"/episodes/"+episodeId+"/"+titleInUrl |
| SearchService.PodcastLinkDecodes | core/src/main/java/org/podcastpedia/core/searching/SearchServiceImpl.java:71-75 | cut at '/', a podcast link without identifier is "", "podcasts", the id and the slug, and the id parses back |
| SearchService.EpisodeLinkDecodes | core/src/main/java/org/podcastpedia/core/searching/SearchServiceImpl.java:93-96 | cut at '/', an episode link is its seven segments, and both ids parse back |
| SearchService.LinkExamples | core/src/main/java/org/podcastpedia/core/searching/SearchServiceImpl.java:71-96 | identifier "foo" gives "/foo"; id 42 with slug "my-cast" gives "/podcasts/42/my-cast"; episode 7 "ep-one" of it gives "/podcasts/42/my-cast/episodes/7/ep-one" |
| SearchService.GetResultsForSearchCriteria | core/src/main/java/org/podcastpedia/core/searching/SearchServiceImpl.java:33-58 | a returned answer echoes currentPage and numberResultsPerPage unchanged |
| SearchService.IsTargetPodcasts | core/src/main/java/org/podcastpedia/core/searching/SearchServiceImpl.java:107-109 | the podcast search is chosen exactly when the target is non-null and equals "podcasts"; its use is DispatchByTarget |
| SearchService.DispatchByTarget | core/src/main/java/org/podcastpedia/core/searching/SearchServiceImpl.java:49-55 | the podcast search runs exactly when the target is "podcasts"; a null or any other target runs the episode search; the rows are the mapping of what the chosen search returns for the prepared request |
| SearchService.MissingModeThrows | core/src/main/java/org/podcastpedia/core/searching/SearchServiceImpl.java:112 | a request whose mode is null throws before any search runs |
| JavaStrings.SplitThenPrefixJoin | core/src/main/java/org/podcastpedia/core/searching/SearchServiceImpl.java:138-141 | for an input with a non-space character, joining the `split(" ")` tokens with a space before each gives " " + the input without trailing spaces |
| JavaStrings.BlankIffAllTrimmable | core/src/main/java/org/podcastpedia/core/searching/SearchServiceImpl.java:137 | `s.trim().equals("")` holds exactly when every character is at most U+0020 |
| JavaStrings.IntToStringRoundTrip | core/src/main/java/org/podcastpedia/core/searching/SearchServiceImpl.java:74 | the decimal rendering of an id in a link is a well-formed integer literal that parses back to the id |
| UserService.TruncateEpisodes | core/src/main/java/org/podcastpedia/core/user/UserServiceImpl.java:28-30 | a podcast with at most 3 episodes, the empty list included, is unchanged; a longer one keeps exactly its first 3 and nothing else changes |
| UserService.TruncateAll | core/src/main/java/org/podcastpedia/core/user/UserServiceImpl.java:27-31 | the loop keeps the number and order of the podcasts and truncates each one |
| UserService.TruncateAllKeepsPrefixes | core/src/main/java/org/podcastpedia/core/user/UserServiceImpl.java:26-31 | each podcast's episode list becomes its first min(3, n) entries |
| UserService.TruncateAllIdempotent | core/src/main/java/org/podcastpedia/core/user/UserServiceImpl.java:46-50 | truncating the truncated list changes nothing |
| UserService.GetSubscriptionsFor | core/src/main/java/org/podcastpedia/core/user/UserServiceImpl.java:22-34 | one data-access call with the user id; the answer has as many podcasts as the data-access layer returned, in the same order; the i-th keeps exactly the first min(3, n) of its n episodes and all its other fields |
| UserService.GetPodcastsForPlaylistOf | core/src/main/java/org/podcastpedia/core/user/UserServiceImpl.java:37-53 | one data-access call whose parameter map holds exactly "userId" and "playlist"; one podcast per podcast returned, in the same order, the i-th keeping exactly the first min(3, n) of its n episodes and all its other fields |
| UserService.PlaylistTruncatesLikeSubscriptions | core/src/main/java/org/podcastpedia/core/user/UserServiceImpl.java:43-52 | given the same podcasts, the playlist view returns exactly what the subscription view returns |
| UserService.EncryptPassword | core/src/main/java/org/podcastpedia/core/user/UserServiceImpl.java:175-180 | the stored credential is the hash of the password; a null password throws |
| UserService.SubmitUserForRegistration | core/src/main/java/org/podcastpedia/core/user/UserServiceImpl.java:61-70 | throws exactly when the password is null; otherwise enabled = 0, the date is now, the password is hash(password), the display name is the username only if it was null and is kept otherwise, username, role and token are kept, and exactly one addUser call is made with that record |
| UserService.UpdateUserForPasswordResetOf | core/src/main/java/org/podcastpedia/core/user/UserServiceImpl.java:73-81 | throws exactly when the password is null; otherwise a fresh token, enabled = 0, the password hashed, every other field kept, and exactly one updateUserForPasswordReset call with that record |
| UserService.RegistrationInvariant | core/src/main/java/org/podcastpedia/core/user/UserServiceImpl.java:63-67 | a registered record is never enabled and has a display name whenever it has a username; registering it again keeps that display name |
| UserService.IsExistingUser | core/src/main/java/org/podcastpedia/core/user/UserServiceImpl.java:84-88 | true exactly when the lookup by username finds an account; one lookup call |
| UserService.SubscribeToPodcastOf | core/src/main/java/org/podcastpedia/core/user/UserServiceImpl.java:90-99 | one subscribe call with the user id under the key "email", the podcast id and the playlist, then the eviction of the user's entry in "users" |
| UserService.UnsubscribeFromPodcastOf | core/src/main/java/org/podcastpedia/core/user/UserServiceImpl.java:101-109 | one unsubscribe call with "userId" and "podcastId", then the eviction of the user's entry |
| UserService.RemoveFromPlaylistOf | core/src/main/java/org/podcastpedia/core/user/UserServiceImpl.java:111-120 | one removal call with "userId", "podcastId" and "playlist", then the eviction of the user's entry |
| UserService.SubscriptionChangesEvictUser | core/src/main/java/org/podcastpedia/core/user/UserServiceImpl.java:21-120 | each of the three subscription changes makes its one call and then evicts exactly the "users" entry under which `getSubscriptions` caches that user's list, and never another user's entry |
| UserService.VotePodcast | core/src/main/java/org/podcastpedia/core/user/UserServiceImpl.java:124-133 | the vote is recorded with username, podcast id and vote unchanged, then the podcast id is evicted from "podcasts" |
| UserService.VoteEpisode | core/src/main/java/org/podcastpedia/core/user/UserServiceImpl.java:135-145 | the vote is recorded with username, both ids and vote unchanged, then the entry keyed by the decimal podcast id, "-" and the decimal episode id is evicted from "podcasts" |
| UserService.EpisodeCacheKeyDecodes | core/src/main/java/org/podcastpedia/core/user/UserServiceImpl.java:136 | for non-negative ids the evicted key is podcastId + "-" + episodeId, and both ids can be read back from it |
| UserService.EpisodeCacheKeyInjective | core/src/main/java/org/podcastpedia/core/user/UserServiceImpl.java:136 | distinct (podcastId, episodeId) pairs evict distinct keys, for every pair of ids, negative ones included |
| UserService.EnableUserAfterRegistration | core/src/main/java/org/podcastpedia/core/user/UserServiceImpl.java:147-157 | a fresh record with the username, the token, role "ROLE_USER" and enabled = 1, and no other field; addUserRole is called before enableUser |
| UserService.EnableUserAfterPasswordForgotten | core/src/main/java/org/podcastpedia/core/user/UserServiceImpl.java:159-167 | a fresh record with the username, the token and enabled = 1, no role; enableUser is the only call |
| UserService.EnableFlowsDifferOnlyInRole | core/src/main/java/org/podcastpedia/core/user/UserServiceImpl.java:148-166 | the two flows send the same record except for the role; the registration flow inserts the role call before the same enable call |
| UserService.EnabledStateTransition | core/src/main/java/org/podcastpedia/core/user/UserServiceImpl.java:61-167 | registration and password reset hand over a not-yet-enabled record; both enabling flows hand over an enabled one |

## Left out

- Caching. The `@Cacheable` read-through on searches and subscriptions is not modelled. Of
  `@CacheEvict`, only the evicted cache name and key are modelled, placed after the call, as
  the annotation's default orders them.
- BCrypt hashing is the parameter `hash`. Its random salt is whatever that function fixes.
  Hashing a null password throws, and the model calls that failure `NullPointer`. The
  exception class actually thrown depends on the Spring version and is not modelled.
- `UUID.randomUUID()` is the parameter `freshToken`. `new Date()` is the parameter `now`.
- The SQL behind the data-access calls is not modelled, and neither are the MySQL full-text
  semantics of the assembled operators. Only the request and the strings the service builds
  are modelled.
- Logging is not modelled.
- `getResultsForSearchCriteria` declares `UnsupportedEncodingException`, but nothing in the
  modelled code throws it, so no encoding failure is modelled.
- `getLatestEpisodesFromSubscriptions` and `getPlaylistNames` are not modelled. They pass a
  data-access call through unchanged.
- The string values of `SearchModeType` and the members of `OrderByOption` are not part of
  this model. The mode is the outcome of the two comparisons (`NaturalMode`, `BooleanMode`
  or `OtherMode`). The ordering is `PublicationDate` or any other named option.
- Ids are non-null `int`s, and paging numbers are non-null Java `int`s. A null boxed id
  (printed as "null" in a link) and an unboxing failure are not modelled. A null `titleInUrl`
  is modelled and prints as "null". Media types are carried by name.
- A null episode list on a subscribed podcast is not modelled. Neither is a null element in
  any list the data-access layer returns. In the source both would throw.
- Service parameters (`userId`, `username`, `playlist`, tokens) are non-null strings. The
  fields of `User`, which may be null, are `Option`s.
- The source mutates the caller's request and user objects in place. The model returns the
  updated record instead. The caller's copy after an exception is not modelled.
- SearchService.FirstItemOnPage: the offset is stated exactly only for pages of 1 or more
  whose product fits in an `int`. The wrap-around itself is modelled but not characterised.
- UserService.EpisodeCacheKeyDecodes: decoding by cutting at '-' is stated for non-negative
  ids only. A negative id's sign adds an empty piece before its digits, so the key no longer
  cuts into exactly two pieces. The key still determines both ids for all ids
  (UserService.EpisodeCacheKeyInjective).
- Cache keys are modelled as the values named in the annotations. Spring's conversion of
  `#episodeId` to a string inside the SpEL `concat` is taken to be decimal.
