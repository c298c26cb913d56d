/** The user service: subscription and playlist reads (with their episode truncation),
    registration and password-reset bookkeeping, account enabling, votes and subscription
    changes.

    The data-access layer is modelled as the trace of calls the service makes on it, each
    read answered by a function parameter; cache evictions appear in the same trace.
    Password hashing, fresh tokens and the clock are parameters. */
module UserService {
  import opened Wrappers
  import opened JavaStrings
  import opened Domain

  const USER_NOT_YET_ENABLED: int := 0
  const USER_ENABLED: int := 1
  const ROLE_USER: string := "ROLE_USER"

  /** How many of a subscribed podcast's episodes the subscription views keep. */
  const EPISODES_SHOWN: nat := 3

  // ---------------------------------------------------------------------------
  // Data model
  // ---------------------------------------------------------------------------

  /** A user account as it is handed to the data-access layer; every field may be null. */
  datatype User = User(
    username: Option<string>,
    password: Option<string>,
    displayName: Option<string>,
    enabled: Option<int>,
    role: Option<string>,
    registrationToken: Option<string>,
    registrationDate: Option<Date>
  )

  /** `new User()`: every field null. */
  const EmptyUser: User := User(None, None, None, None, None, None, None)

  datatype PodcastVote = PodcastVote(username: string, podcastId: int, vote: int)

  datatype EpisodeVote = EpisodeVote(username: string, podcastId: int, episodeId: int, vote: int)

  /** A value in the parameter maps the service builds for the data-access layer. */
  datatype Param = Text(text: string) | Number(number: int)

  /** Every call the service makes on the data-access layer. */
  datatype DaoCall =
    | GetSubscriptions(userId: string)
    | GetPodcastsForPlaylist(params: map<string, Param>)
    | AddUser(user: User)
    | UpdateUserForPasswordReset(user: User)
    | GetUserByUsername(username: string)
    | SubscribeToPodcast(params: map<string, Param>)
    | UnsubscribeFromPodcast(params: map<string, Param>)
    | RemoveFromPlaylist(params: map<string, Param>)
    | AddPodcastVote(podcastVote: PodcastVote)
    | AddEpisodeVote(episodeVote: EpisodeVote)
    | AddUserRole(user: User)
    | EnableUser(user: User)

  /** A key of a cache entry: a user id or composite string, or a bare podcast id. */
  datatype CacheKey = StringKey(s: string) | IntKey(n: int)

  /** What an operation does outside itself: a data-access call, or the eviction of a cache
      entry (which the cache layer performs after the method returns). */
  datatype Event = Call(call: DaoCall) | Evict(cache: string, key: CacheKey)

  /** An operation's returned value with the trace of its effects, in order. */
  datatype Step<T> = Step(value: T, trace: seq<Event>)

  // ---------------------------------------------------------------------------
  // Subscriptions and playlists
  // ---------------------------------------------------------------------------

  /** A podcast with only its first three episodes kept (the newest, as the query orders them);
      shorter lists, empty ones included, are left alone. */
  function TruncateEpisodes(p: Podcast): (r: Podcast)
    ensures |p.episodes| <= EPISODES_SHOWN ==> r == p
    ensures |p.episodes| > EPISODES_SHOWN ==> |r.episodes| == EPISODES_SHOWN
    ensures r.episodes <= p.episodes
    ensures r == p.(episodes := r.episodes)
  {
    if |p.episodes| != 0 && |p.episodes| > EPISODES_SHOWN then
      p.(episodes := p.episodes[..EPISODES_SHOWN])
    else p
  }

  /** The loop over the returned podcasts, truncating each one's episode list. */
  function TruncateAll(podcasts: seq<Podcast>): (r: seq<Podcast>)
    ensures |r| == |podcasts|
    ensures forall i :: 0 <= i < |r| ==> r[i] == TruncateEpisodes(podcasts[i])
    decreases |podcasts|
  {
    if |podcasts| == 0 then [] else [TruncateEpisodes(podcasts[0])] + TruncateAll(podcasts[1..])
  }

  function Min(a: int, b: int): int {
    if a <= b then a else b
  }

  /** Each podcast keeps its first min(3, n) episodes and every other field; the number and
      the order of the podcasts are unchanged. */
  lemma TruncateAllKeepsPrefixes(podcasts: seq<Podcast>)
    ensures |TruncateAll(podcasts)| == |podcasts|
    ensures forall i :: 0 <= i < |podcasts| ==>
      TruncateAll(podcasts)[i] == podcasts[i].(
        episodes := podcasts[i].episodes[..Min(EPISODES_SHOWN, |podcasts[i].episodes|)])
  {
  }

  /** Truncating twice is truncating once. */
  lemma TruncateAllIdempotent(podcasts: seq<Podcast>)
    ensures TruncateAll(TruncateAll(podcasts)) == TruncateAll(podcasts)
  {
  }

  /** The cache entry `getSubscriptions` is cached under: the user id in the "users" cache. */
  function SubscriptionsCacheEntry(userId: string): Event {
    Evict("users", StringKey(userId))
  }

  /** `getSubscriptions`: the user's subscribed podcasts, each with at most three episodes. */
  function GetSubscriptionsFor(userId: string, subscriptionsOf: string -> seq<Podcast>)
    : (r: Step<seq<Podcast>>)
    ensures r.trace == [Call(GetSubscriptions(userId))]
    ensures |r.value| == |subscriptionsOf(userId)|
    ensures forall i :: 0 <= i < |r.value| ==>
      |r.value[i].episodes| <= EPISODES_SHOWN
      && r.value[i].episodes <= subscriptionsOf(userId)[i].episodes
      && r.value[i] == subscriptionsOf(userId)[i].(episodes := r.value[i].episodes)
    ensures forall i :: 0 <= i < |r.value| ==>
      r.value[i] == subscriptionsOf(userId)[i].(
        episodes := subscriptionsOf(userId)[i].episodes[..Min(EPISODES_SHOWN, |subscriptionsOf(userId)[i].episodes|)])
  {
    var src := subscriptionsOf(userId);
    TruncateAllKeepsPrefixes(src);
    Step(TruncateAll(src), [Call(GetSubscriptions(userId))])
  }

  /** The parameters of the playlist query. */
  function PlaylistParams(userId: string, playlist: string): map<string, Param> {
    map["userId" := Text(userId), "playlist" := Text(playlist)]
  }

  /** `getPodcastsForPlaylist`: the podcasts of one playlist, truncated like the subscriptions. */
  function GetPodcastsForPlaylistOf(
    userId: string, playlist: string, podcastsFor: map<string, Param> -> seq<Podcast>)
    : (r: Step<seq<Podcast>>)
    ensures |r.trace| == 1 && r.trace[0].Call? && r.trace[0].call.GetPodcastsForPlaylist?
    ensures r.trace[0].call.params.Keys == {"userId", "playlist"}
    ensures r.trace[0].call.params["userId"] == Text(userId)
    ensures r.trace[0].call.params["playlist"] == Text(playlist)
    ensures |r.value| == |podcastsFor(PlaylistParams(userId, playlist))|
    ensures var src := podcastsFor(PlaylistParams(userId, playlist));
      forall i :: 0 <= i < |r.value| ==>
        r.value[i] == src[i].(episodes := src[i].episodes[..Min(EPISODES_SHOWN, |src[i].episodes|)])
  {
    var params := PlaylistParams(userId, playlist);
    TruncateAllKeepsPrefixes(podcastsFor(params));
    Step(TruncateAll(podcastsFor(params)), [Call(GetPodcastsForPlaylist(params))])
  }

  /** The playlist view shapes its rows exactly as the subscription view does: given the same
      podcasts from the data-access layer, both return the same list. */
  lemma PlaylistTruncatesLikeSubscriptions(
    userId: string, playlist: string,
    subscriptionsOf: string -> seq<Podcast>,
    podcastsFor: map<string, Param> -> seq<Podcast>)
    requires podcastsFor(PlaylistParams(userId, playlist)) == subscriptionsOf(userId)
    ensures GetPodcastsForPlaylistOf(userId, playlist, podcastsFor).value
            == GetSubscriptionsFor(userId, subscriptionsOf).value
  {
  }

  // ---------------------------------------------------------------------------
  // Registration and password reset
  // ---------------------------------------------------------------------------

  /** `encryptPassword`: the hash of a null password throws. */
  function EncryptPassword(password: Option<string>, hash: string -> string)
    : (r: Result<string, Exception>)
    ensures r.Success? <==> password.Some?
    ensures r.Success? ==> r.value == hash(password.value)
  {
    match password
    case None => Failure(NullPointer("encryptPassword(null)"))
    case Some(p) => Success(hash(p))
  }

  /** `submitUserForRegistration`: stamps the date, marks the account not yet enabled,
      defaults the display name to the username, hashes the password and adds the user. */
  function SubmitUserForRegistration(user: User, now: Date, hash: string -> string)
    : (r: Result<Step<User>, Exception>)
    ensures r.Success? <==> user.password.Some?
    ensures r.Success? ==>
      var u := r.value.value;
      && r.value.trace == [Call(AddUser(u))]
      && u.enabled == Some(USER_NOT_YET_ENABLED)
      && u.registrationDate == Some(now)
      && u.password == Some(hash(user.password.value))
      && (user.displayName.None? ==> u.displayName == user.username)
      && (user.displayName.Some? ==> u.displayName == user.displayName)
      && u.username == user.username
      && u.role == user.role
      && u.registrationToken == user.registrationToken
  {
    var u := user.(registrationDate := Some(now), enabled := Some(USER_NOT_YET_ENABLED));
    var u := if u.displayName.None? then u.(displayName := u.username) else u;
    match EncryptPassword(u.password, hash)
    case Failure(e) => Failure(e)
    case Success(hashed) =>
      var u := u.(password := Some(hashed));
      Success(Step(u, [Call(AddUser(u))]))
  }

  /** `updateUserForPasswordReset`: a fresh token, not yet enabled, the new password hashed. */
  function UpdateUserForPasswordResetOf(user: User, freshToken: string, hash: string -> string)
    : (r: Result<Step<User>, Exception>)
    ensures r.Success? <==> user.password.Some?
    ensures r.Success? ==>
      var u := r.value.value;
      && r.value.trace == [Call(UpdateUserForPasswordReset(u))]
      && u.registrationToken == Some(freshToken)
      && u.enabled == Some(USER_NOT_YET_ENABLED)
      && u.password == Some(hash(user.password.value))
      && u == user.(registrationToken := u.registrationToken, enabled := u.enabled,
                    password := u.password)
  {
    var u := user.(registrationToken := Some(freshToken), enabled := Some(USER_NOT_YET_ENABLED));
    match EncryptPassword(u.password, hash)
    case Failure(e) => Failure(e)
    case Success(hashed) =>
      var u := u.(password := Some(hashed));
      Success(Step(u, [Call(UpdateUserForPasswordReset(u))]))
  }

  /** Whatever account is submitted, the stored record is not yet enabled and has a display
      name whenever it has a username; submitting that record again keeps the display name. */
  lemma RegistrationInvariant(user: User, now: Date, hash: string -> string, now2: Date)
    requires user.password.Some?
    ensures var u := SubmitUserForRegistration(user, now, hash).value.value;
      && u.enabled == Some(USER_NOT_YET_ENABLED)
      && (u.username.Some? ==> u.displayName.Some?)
      && SubmitUserForRegistration(u, now2, hash).value.value.displayName == u.displayName
  {
  }

  // ---------------------------------------------------------------------------
  // Lookups, subscription changes and votes
  // ---------------------------------------------------------------------------

  /** `isExistingUser`: whether the lookup by username finds an account. */
  function IsExistingUser(username: string, userByUsername: string -> Option<User>)
    : (r: Step<bool>)
    ensures r.value <==> userByUsername(username) != None
    ensures r.trace == [Call(GetUserByUsername(username))]
  {
    Step(userByUsername(username).Some?, [Call(GetUserByUsername(username))])
  }

  /** `subscribeToPodcast`; note the user id travels under the key "email". */
  function SubscribeToPodcastOf(userId: string, podcastId: int, playlist: string): (r: Step<()>)
    ensures r.trace == [Call(SubscribeToPodcast(map["email" := Text(userId),
      "podcastId" := Number(podcastId), "playlist" := Text(playlist)])),
      Evict("users", StringKey(userId))]
  {
    var params := map["email" := Text(userId), "podcastId" := Number(podcastId),
                      "playlist" := Text(playlist)];
    Step((), [Call(SubscribeToPodcast(params)), Evict("users", StringKey(userId))])
  }

  /** `unsubscribeFromPodcast`. */
  function UnsubscribeFromPodcastOf(userId: string, podcastId: int): (r: Step<()>)
    ensures r.trace == [Call(UnsubscribeFromPodcast(map["userId" := Text(userId),
      "podcastId" := Number(podcastId)])), Evict("users", StringKey(userId))]
  {
    var params := map["userId" := Text(userId), "podcastId" := Number(podcastId)];
    Step((), [Call(UnsubscribeFromPodcast(params)), Evict("users", StringKey(userId))])
  }

  /** `removeFromPlaylist`. */
  function RemoveFromPlaylistOf(userId: string, podcastId: int, playlist: string): (r: Step<()>)
    ensures r.trace == [Call(RemoveFromPlaylist(map["userId" := Text(userId),
      "podcastId" := Number(podcastId), "playlist" := Text(playlist)])),
      Evict("users", StringKey(userId))]
  {
    var params := map["userId" := Text(userId), "podcastId" := Number(podcastId),
                      "playlist" := Text(playlist)];
    Step((), [Call(RemoveFromPlaylist(params)), Evict("users", StringKey(userId))])
  }

  /** Every change to a user's subscriptions makes one data-access call and then evicts the
      entry `getSubscriptions` caches that user's list under, and no other user's entry, so
      the next read sees the change. */
  lemma SubscriptionChangesEvictUser(userId: string, otherUser: string, podcastId: int,
                                     playlist: string)
    requires otherUser != userId
    ensures var e := SubscriptionsCacheEntry(userId);
      && SubscribeToPodcastOf(userId, podcastId, playlist).trace[1..] == [e]
      && UnsubscribeFromPodcastOf(userId, podcastId).trace[1..] == [e]
      && RemoveFromPlaylistOf(userId, podcastId, playlist).trace[1..] == [e]
    ensures SubscriptionsCacheEntry(otherUser) !in SubscribeToPodcastOf(userId, podcastId, playlist).trace
    ensures SubscriptionsCacheEntry(otherUser) !in UnsubscribeFromPodcastOf(userId, podcastId).trace
    ensures SubscriptionsCacheEntry(otherUser) !in RemoveFromPlaylistOf(userId, podcastId, playlist).trace
  {
  }

  /** The key of the cached episode entry: `String.valueOf(podcastId) + "-" + episodeId`. */
  function EpisodeCacheKey(podcastId: int, episodeId: int): string {
    IntToString(podcastId) + "-" + IntToString(episodeId)
  }

  /** `votePodcast`: records the vote as given, then evicts the podcast's cached entry. */
  function VotePodcast(username: string, podcastId: int, vote: int): (r: Step<()>)
    ensures |r.trace| == 2
    ensures r.trace[0] == Call(AddPodcastVote(PodcastVote(username, podcastId, vote)))
    ensures r.trace[1] == Evict("podcasts", IntKey(podcastId))
  {
    Step((), [Call(AddPodcastVote(PodcastVote(username, podcastId, vote))),
              Evict("podcasts", IntKey(podcastId))])
  }

  /** `voteEpisode`: records the vote as given, then evicts the "<podcast>-<episode>" entry. */
  function VoteEpisode(username: string, podcastId: int, episodeId: int, vote: int)
    : (r: Step<()>)
    ensures |r.trace| == 2
    ensures r.trace[0] == Call(AddEpisodeVote(EpisodeVote(username, podcastId, episodeId, vote)))
    ensures r.trace[1].Evict? && r.trace[1].cache == "podcasts" && r.trace[1].key.StringKey?
    ensures r.trace[1]
      == Evict("podcasts", StringKey(IntToString(podcastId) + "-" + IntToString(episodeId)))
  {
    Step((), [Call(AddEpisodeVote(EpisodeVote(username, podcastId, episodeId, vote))),
              Evict("podcasts", StringKey(EpisodeCacheKey(podcastId, episodeId)))])
  }

  /** For non-negative ids the episode key cut at '-' is the two ids: distinct episodes evict
      distinct entries, and the ids can be read back from the key. */
  lemma EpisodeCacheKeyDecodes(podcastId: int, episodeId: int)
    requires podcastId >= 0 && episodeId >= 0
    ensures var key := VoteEpisode("", podcastId, episodeId, 0).trace[1].key.s;
      && SplitOn(key, '-') == [IntToString(podcastId), IntToString(episodeId)]
      && ParseInt(SplitOn(key, '-')[0]) == podcastId
      && ParseInt(SplitOn(key, '-')[1]) == episodeId
  {
    var a := IntToString(podcastId);
    var b := IntToString(episodeId);
    assert '-' !in a && '-' !in b;
    assert JoinWith([a, b], '-') == EpisodeCacheKey(podcastId, episodeId);
    SplitJoin([a, b], '-');
    IntToStringRoundTrip(podcastId);
    IntToStringRoundTrip(episodeId);
  }

  /** In a rendered id followed by '-', that '-' is the first one after the first character:
      only the first character of a rendering may be a '-'. */
  lemma JoiningDashIsFirst(x: string, y: string)
    requires |x| >= 1
    requires forall i :: 1 <= i < |x| ==> IsDigit(x[i])
    ensures (x + "-" + y)[|x|] == '-'
    ensures forall i :: 1 <= i < |x| ==> (x + "-" + y)[i] != '-'
  {
  }

  /** Two renderings joined by '-' can be cut apart again, whatever the renderings' signs. */
  lemma JoinedRenderingsSplit(x: string, y: string, x2: string, y2: string)
    requires |x| >= 1 && |x2| >= 1
    requires forall i :: 1 <= i < |x| ==> IsDigit(x[i])
    requires forall i :: 1 <= i < |x2| ==> IsDigit(x2[i])
    requires x + "-" + y == x2 + "-" + y2
    ensures x == x2 && y == y2
  {
    var k := x + "-" + y;
    JoiningDashIsFirst(x, y);
    JoiningDashIsFirst(x2, y2);
    assert |x| == |x2|;
    assert x == k[..|x|] == x2;
    assert y == k[|x| + 1..] == y2;
  }

  /** Distinct (podcast, episode) pairs evict distinct entries, for every pair of ids. */
  lemma EpisodeCacheKeyInjective(p1: int, e1: int, p2: int, e2: int)
    requires EpisodeCacheKey(p1, e1) == EpisodeCacheKey(p2, e2)
    ensures p1 == p2 && e1 == e2
  {
    JoinedRenderingsSplit(IntToString(p1), IntToString(e1), IntToString(p2), IntToString(e2));
    IntToStringInjective(p1, p2);
    IntToStringInjective(e1, e2);
  }

  // ---------------------------------------------------------------------------
  // Enabling an account
  // ---------------------------------------------------------------------------

  /** `enableUserAfterRegistration`: grants the user role, then enables the account. */
  function EnableUserAfterRegistration(username: string, registrationToken: string)
    : (r: Step<User>)
    ensures r.value.username == Some(username)
    ensures r.value.registrationToken == Some(registrationToken)
    ensures r.value.role == Some(ROLE_USER)
    ensures r.value.enabled == Some(USER_ENABLED)
    ensures r.value.password.None? && r.value.displayName.None? && r.value.registrationDate.None?
    ensures r.trace == [Call(AddUserRole(r.value)), Call(EnableUser(r.value))]
  {
    var u := EmptyUser.(username := Some(username), role := Some(ROLE_USER),
                        enabled := Some(USER_ENABLED), registrationToken := Some(registrationToken));
    Step(u, [Call(AddUserRole(u)), Call(EnableUser(u))])
  }

  /** `enableUserAfterPasswordForgotten`: enables the account; no role is granted. */
  function EnableUserAfterPasswordForgotten(username: string, registrationToken: string)
    : (r: Step<User>)
    ensures r.value.username == Some(username)
    ensures r.value.registrationToken == Some(registrationToken)
    ensures r.value.role.None?
    ensures r.value.enabled == Some(USER_ENABLED)
    ensures r.value.password.None? && r.value.displayName.None? && r.value.registrationDate.None?
    ensures r.trace == [Call(EnableUser(r.value))]
  {
    var u := EmptyUser.(username := Some(username), enabled := Some(USER_ENABLED),
                        registrationToken := Some(registrationToken));
    Step(u, [Call(EnableUser(u))])
  }

  /** The two enabling flows send the same enable request up to the role, and only the
      registration flow assigns a role, before it enables. */
  lemma EnableFlowsDifferOnlyInRole(username: string, registrationToken: string)
    ensures var reg := EnableUserAfterRegistration(username, registrationToken);
      var forgot := EnableUserAfterPasswordForgotten(username, registrationToken);
      && reg.value == forgot.value.(role := Some(ROLE_USER))
      && reg.trace == [Call(AddUserRole(reg.value))] + forgot.trace[0 := Call(EnableUser(reg.value))]
  {
  }

  /** A registered or reset account is handed over not yet enabled, and both enabling flows
      hand over an enabled one: the only transition is from not-yet-enabled to enabled. */
  lemma EnabledStateTransition(user: User, now: Date, token: string, hash: string -> string,
                               username: string, registrationToken: string)
    requires user.password.Some?
    ensures SubmitUserForRegistration(user, now, hash).value.value.enabled == Some(USER_NOT_YET_ENABLED)
    ensures UpdateUserForPasswordResetOf(user, token, hash).value.value.enabled == Some(USER_NOT_YET_ENABLED)
    ensures EnableUserAfterRegistration(username, registrationToken).value.enabled == Some(USER_ENABLED)
    ensures EnableUserAfterPasswordForgotten(username, registrationToken).value.enabled == Some(USER_ENABLED)
  {
  }
}
