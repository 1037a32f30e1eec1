/** The values the song search works on: parsed tracks and the rows of the result table. */
module Records {

  datatype Option<T> = None | Some(value: T)

  /** One entry of the search response's track list, after parsing. */
  datatype Track = Track(trackName: string, albumName: string)

  /** One row of the result table: a song title and an album title that may be absent. */
  datatype SongRecord = SongRecord(song: string, album: Option<string>)

  /** The song titles that occur in `rs`. */
  function Titles(rs: seq<SongRecord>): set<string>
  {
    set r | r in rs :: r.song
  }

  /** Appending a row adds its title to the titles. */
  lemma TitlesAppend(rs: seq<SongRecord>, r: SongRecord)
    ensures Titles(rs + [r]) == Titles(rs) + {r.song}
  {
  }

  /** No two rows of `rs` share a song title. */
  predicate DistinctSongs(rs: seq<SongRecord>)
  {
    forall i, j :: 0 <= i < j < |rs| ==> rs[i].song != rs[j].song
  }

  /** Every row of `rs` has an album title. */
  predicate AllAlbumsPresent(rs: seq<SongRecord>)
  {
    forall r :: r in rs ==> r.album.Some?
  }
}
