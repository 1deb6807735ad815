/** The trailer player dialog (`VideoPlayer`). */
module VideoPlayer {
  import opened Prelude
  import opened YouTube

  /** The query string this copy of `getYouTubeEmbedUrl` appends. */
  const TrailerQuery := "?autoplay=1&rel=0"

  /** The iframe source the dialog shows: nothing at all for an empty URL
      (the component returns `null` before normalising), otherwise the
      normalised URL. */
  function TrailerSource(videoUrl: string): (r: Option<string>)
    ensures r.None? <==> videoUrl == ""
    ensures r.Some? ==> r.value == EmbedUrl(videoUrl, TrailerQuery) && r.value != ""
  {
    if videoUrl == "" then None else Some(EmbedUrl(videoUrl, TrailerQuery))
  }

  lemma TrailerQueryInert()
    ensures InertQuery(TrailerQuery)
  {
  }

  /** A trailer URL that is already an embed URL of this player is shown
      as it is. */
  lemma TrailerSourceStable(id: string)
    requires IsVideoId(id)
    ensures TrailerSource(EmbedBase + id + TrailerQuery) == Some(EmbedBase + id + TrailerQuery)
  {
    TrailerQueryInert();
    EmbedUrlRenormalizes(id, TrailerQuery, TrailerQuery);
  }

  /** A `youtu.be` short link is shown as the embed URL of its id, e.g.
      `https://youtu.be/dQw4w9WgXcQ` as
      `https://www.youtube.com/embed/dQw4w9WgXcQ?autoplay=1&rel=0`. */
  lemma ShortLinkTrailer(id: string)
    requires IsVideoId(id)
    ensures TrailerSource(ShortLinkBase + id) == Some(EmbedBase + id + TrailerQuery)
  {
    ShortLinkNormalizes(id, TrailerQuery);
  }

  /** A `watch?v=` link is shown as the embed URL of its id. */
  lemma WatchLinkTrailer(id: string)
    requires IsVideoId(id)
    ensures TrailerSource(WatchLinkBase + id) == Some(EmbedBase + id + TrailerQuery)
  {
    WatchLinkNormalizes(id, TrailerQuery);
  }
}
