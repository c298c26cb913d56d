/** The shared domain records the two services read: podcasts and their episodes.
    Only the fields the services touch are modelled; every reference field may be null. */
module Domain {
  import opened Wrappers

  /** A `java.util.Date`, by its millisecond timestamp. */
  datatype Date = Date(epochMillis: int)

  /** A podcast as the data-access layer returns it. `episodes` is the list the subscription
      queries fill in, newest first. */
  datatype Podcast = Podcast(
    podcastId: int,
    identifier: Option<string>,
    title: Option<string>,
    titleInUrl: Option<string>,
    publicationDate: Option<Date>,
    mediaType: Option<string>,
    description: Option<string>,
    lastEpisodeMediaUrl: Option<string>,
    episodes: seq<Episode>
  )

  /** An episode; `podcast` is the parent podcast the search query joins in. */
  datatype Episode = Episode(
    podcastId: int,
    episodeId: int,
    title: Option<string>,
    titleInUrl: Option<string>,
    publicationDate: Option<Date>,
    mediaType: Option<string>,
    description: Option<string>,
    mediaUrl: Option<string>,
    podcast: Option<Podcast>
  )
}
