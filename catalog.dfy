/** The track record every stage after the catalog boundary works with. */
module Catalog {

  datatype Option<T> = None | Some(value: T)

  /** A track as mapped from a search or recommendation response: id, name,
      joined artist names, link and optional preview link. */
  datatype Track = Track(id: string, name: string, artist: string, url: string, preview: Option<string>)

  /** The key the presenter deduplicates on. */
  function Key(t: Track): (string, string)
  {
    (t.name, t.artist)
  }
}
