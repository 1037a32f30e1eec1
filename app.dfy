/**
 * The command-line entry point: turning the parsed search response into table rows
 * (`getSongs`), and the dedup-then-filter expression applied to those rows.
 */
module App {
  import opened Records
  import opened Text
  import opened Subsequences

  // ---------------------------------------------------------------------------
  // getSongs: track list to rows
  // ---------------------------------------------------------------------------

  /** The Song text of the row reported when the search finds nothing; the word follows it. */
  const NotFoundPrefix := "Couldn't find any songs with word "

  /** The row for one track: its name as Song and its album as Album. */
  function RecordOf(t: Track): SongRecord
  {
    SongRecord(t.trackName, Some(t.albumName))
  }

  /** One row per track, in track-list order. */
  function RecordsOf(ts: seq<Track>): (rs: seq<SongRecord>)
    ensures |rs| == |ts|
    ensures forall i :: 0 <= i < |ts| ==> rs[i] == RecordOf(ts[i])
  {
    if ts == [] then [] else RecordsOf(ts[..|ts| - 1]) + [RecordOf(ts[|ts| - 1])]
  }

  /** What `getSongs` returns for the search word `word` and the parsed track list. */
  function SongsFor(word: string, trackList: seq<Track>): seq<SongRecord>
  {
    if trackList == [] then [SongRecord(NotFoundPrefix + word, None)] else RecordsOf(trackList)
  }

  /**
   * Builds the rows the way the source does: the not-found row for an empty track
   * list, otherwise one row appended per track.
   */
  method GetSongs(word: string, trackList: seq<Track>) returns (tracks: seq<SongRecord>)
    ensures tracks == SongsFor(word, trackList)
    ensures |tracks| >= 1
    ensures trackList == [] ==> tracks == [SongRecord(NotFoundPrefix + word, None)]
    ensures trackList != [] ==>
              |tracks| == |trackList| &&
              forall i :: 0 <= i < |trackList| ==>
                tracks[i] == SongRecord(trackList[i].trackName, Some(trackList[i].albumName))
  {
    tracks := [];
    if trackList == [] {
      return [SongRecord(NotFoundPrefix + word, None)];
    }
    for i := 0 to |trackList|
      invariant tracks == RecordsOf(trackList[..i])
    {
      assert trackList[..i + 1][..i] == trackList[..i];
      tracks := tracks + [RecordOf(trackList[i])];
    }
    assert trackList[..|trackList|] == trackList;
  }

  /** Only the not-found row lacks an album: the rows have albums exactly when tracks were found. */
  lemma SongsForAlbums(word: string, trackList: seq<Track>)
    ensures AllAlbumsPresent(SongsFor(word, trackList)) <==> trackList != []
  {
  }

  // ---------------------------------------------------------------------------
  // Post-processing: drop_duplicates(subset=["Song"], keep="first"), then the
  // ~Album.str.contains("Hits") mask
  // ---------------------------------------------------------------------------

  /** The album-title substring that marks a row for removal. */
  const Marker := "Hits"

  /** The row's album contains the marker. */
  predicate IsExcluded(r: SongRecord)
  {
    r.album.Some? && Contains(r.album.value, Marker)
  }

  /** The index of the first row of `rs` whose song is `title`. */
  function FirstIndex(rs: seq<SongRecord>, title: string): (i: nat)
    requires title in Titles(rs)
    ensures i < |rs| && rs[i].song == title
    ensures forall j :: 0 <= j < i ==> rs[j].song != title
  {
    if rs[0].song == title then 0
    else
      var r :| r in rs && r.song == title;
      assert r in rs[1..];
      FirstIndex(rs[1..], title) + 1
  }

  /** Keeps each row whose song title has not appeared in an earlier row. */
  function DedupFirst(rs: seq<SongRecord>): (out: seq<SongRecord>)
    ensures DistinctSongs(out)
    ensures Titles(out) == Titles(rs)
    ensures forall r :: r in out ==> r in rs
    decreases |rs|
  {
    if rs == [] then []
    else
      var init, last := rs[..|rs| - 1], rs[|rs| - 1];
      assert rs == init + [last];
      TitlesAppend(init, last);
      TitlesAppend(DedupFirst(init), last);
      if last.song in Titles(init) then DedupFirst(init) else DedupFirst(init) + [last]
  }

  /** Keeps the rows whose album does not contain the marker, every copy of each. */
  function DropExcluded(rs: seq<SongRecord>): (out: seq<SongRecord>)
    ensures forall r :: r in out <==> r in rs && !IsExcluded(r)
    ensures forall r :: multiset(out)[r] == if IsExcluded(r) then 0 else multiset(rs)[r]
    decreases |rs|
  {
    if rs == [] then []
    else
      var init, last := rs[..|rs| - 1], rs[|rs| - 1];
      assert rs == init + [last];
      assert multiset(rs) == multiset(init) + multiset{last};
      if IsExcluded(last) then DropExcluded(init) else DropExcluded(init) + [last]
  }

  /** The post-processing of app.py: deduplicate by song, then drop marked albums. */
  function PostProcess(rs: seq<SongRecord>): (out: seq<SongRecord>)
    requires AllAlbumsPresent(rs)
    ensures DistinctSongs(out)
    ensures forall r :: r in out ==> r in rs && !IsExcluded(r)
    ensures IsSubsequence(out, rs) && |out| <= |rs|
  {
    var deduped := DedupFirst(rs);
    DedupFirstIsSubsequence(rs);
    DropExcludedIsSubsequence(deduped);
    SubsequenceTransitive(DropExcluded(deduped), deduped, rs);
    SubsequenceBounds(DropExcluded(deduped), rs);
    SubsequenceKeepsDistinct(DropExcluded(deduped), deduped);
    DropExcluded(deduped)
  }

  /** Deleting rows keeps song titles pairwise distinct. */
  lemma {:induction false} SubsequenceKeepsDistinct(a: seq<SongRecord>, b: seq<SongRecord>)
    requires IsSubsequence(a, b) && DistinctSongs(b)
    ensures DistinctSongs(a)
    decreases |b|
  {
    if a != [] {
      var a', b' := a[..|a| - 1], b[..|b| - 1];
      if IsSubsequence(a, b') {
        SubsequenceKeepsDistinct(a, b');
      } else {
        SubsequenceKeepsDistinct(a', b');
        SubsequenceBounds(a', b');
        forall i | 0 <= i < |a'|
          ensures a[i].song != a[|a| - 1].song
        {
          assert a[i] == a'[i] && a'[i] in b';
        }
      }
    }
  }

  lemma {:induction false} DedupFirstIsSubsequence(rs: seq<SongRecord>)
    ensures IsSubsequence(DedupFirst(rs), rs)
    decreases |rs|
  {
    if rs != [] {
      var init, last := rs[..|rs| - 1], rs[|rs| - 1];
      assert rs == init + [last];
      DedupFirstIsSubsequence(init);
      SubsequenceExtend(DedupFirst(init), init, last);
    }
  }

  lemma {:induction false} DropExcludedIsSubsequence(rs: seq<SongRecord>)
    ensures IsSubsequence(DropExcluded(rs), rs)
    decreases |rs|
  {
    if rs != [] {
      var init, last := rs[..|rs| - 1], rs[|rs| - 1];
      assert rs == init + [last];
      DropExcludedIsSubsequence(init);
      SubsequenceExtend(DropExcluded(init), init, last);
    }
  }

  /** Growing `rs` at the end does not move the first occurrence of a title it already has. */
  lemma FirstIndexOfPrefix(rs: seq<SongRecord>, r: SongRecord, title: string)
    requires title in Titles(rs)
    ensures title in Titles(rs + [r]) && FirstIndex(rs + [r], title) == FirstIndex(rs, title)
  {
    TitlesAppend(rs, r);
    var k := FirstIndex(rs, title);
    assert (rs + [r])[k] == rs[k];
  }

  /** A title new in the last row has its first occurrence there. */
  lemma FirstIndexOfLast(rs: seq<SongRecord>, r: SongRecord)
    requires r.song !in Titles(rs)
    ensures r.song in Titles(rs + [r]) && FirstIndex(rs + [r], r.song) == |rs|
  {
  }

  /** `keep="first"`: every row the dedup keeps is the first input row with its title. */
  lemma {:induction false} DedupKeepsOnlyFirst(rs: seq<SongRecord>, r: SongRecord)
    requires r in DedupFirst(rs)
    ensures r.song in Titles(rs) && r == rs[FirstIndex(rs, r.song)]
    decreases |rs|
  {
    var init, last := rs[..|rs| - 1], rs[|rs| - 1];
    assert rs == init + [last];
    TitlesAppend(init, last);
    if r in DedupFirst(init) {
      DedupKeepsOnlyFirst(init, r);
      FirstIndexOfPrefix(init, last, r.song);
    } else {
      FirstIndexOfLast(init, last);
    }
  }

  /** `keep="first"`: a row that no earlier row shares its title with is kept by the dedup. */
  lemma {:induction false} DedupKeepsEveryFirst(rs: seq<SongRecord>, i: int)
    requires 0 <= i < |rs|
    requires forall j :: 0 <= j < i ==> rs[j].song != rs[i].song
    ensures rs[i] in DedupFirst(rs)
  {
    assert rs[i] in rs;
    assert rs[i].song in Titles(DedupFirst(rs));
    var r :| r in DedupFirst(rs) && r.song == rs[i].song;
    DedupKeepsOnlyFirst(rs, r);
  }

  /** Where `title` first appears in `rs`: `FirstIndex` when it appears, `|rs|` when it does not. */
  function FirstPosition(rs: seq<SongRecord>, title: string): nat
  {
    if title in Titles(rs) then FirstIndex(rs, title) else |rs|
  }

  /** The rows of `d` come in the order in which their titles first appear in `rs`. */
  predicate InFirstOccurrenceOrder(d: seq<SongRecord>, rs: seq<SongRecord>)
  {
    forall i, j :: 0 <= i < j < |d| ==> FirstPosition(rs, d[i].song) < FirstPosition(rs, d[j].song)
  }

  /** The dedup lists its rows in the order in which their titles first appear in the input. */
  lemma {:induction false} DedupFirstInFirstOccurrenceOrder(rs: seq<SongRecord>)
    ensures InFirstOccurrenceOrder(DedupFirst(rs), rs)
    decreases |rs|
  {
    if rs != [] {
      var init, last := rs[..|rs| - 1], rs[|rs| - 1];
      assert rs == init + [last];
      DedupFirstInFirstOccurrenceOrder(init);
      var d := DedupFirst(init);
      forall y | y in d
        ensures FirstPosition(rs, y.song) == FirstPosition(init, y.song) < |init|
      {
        assert y.song in Titles(d);
        FirstIndexOfPrefix(init, last, y.song);
      }
      if last.song !in Titles(init) {
        FirstIndexOfLast(init, last);
        assert FirstPosition(rs, last.song) == |init|;
        OrderAppend(d, last, rs);
      } else {
        forall i, j | 0 <= i < j < |d|
          ensures FirstPosition(rs, d[i].song) < FirstPosition(rs, d[j].song)
        {
          assert d[i] in d && d[j] in d;
        }
      }
    }
  }

  /** A prefix of rows in first-occurrence order is in first-occurrence order. */
  lemma OrderDropLast(d: seq<SongRecord>, rs: seq<SongRecord>)
    requires d != [] && InFirstOccurrenceOrder(d, rs)
    ensures InFirstOccurrenceOrder(d[..|d| - 1], rs)
  {
    var d' := d[..|d| - 1];
    forall i, j | 0 <= i < j < |d'|
      ensures FirstPosition(rs, d'[i].song) < FirstPosition(rs, d'[j].song)
    {
      assert d'[i] == d[i] && d'[j] == d[j];
    }
  }

  /** A row whose title first appears after those of all rows before it extends the order. */
  lemma OrderAppend(a: seq<SongRecord>, x: SongRecord, rs: seq<SongRecord>)
    requires InFirstOccurrenceOrder(a, rs)
    requires forall y :: y in a ==> FirstPosition(rs, y.song) < FirstPosition(rs, x.song)
    ensures InFirstOccurrenceOrder(a + [x], rs)
  {
    var ax := a + [x];
    forall i, j | 0 <= i < j < |ax|
      ensures FirstPosition(rs, ax[i].song) < FirstPosition(rs, ax[j].song)
    {
      assert ax[i] == a[i] && a[i] in a;
      if j < |a| {
        assert ax[j] == a[j];
      }
    }
  }

  /** Deleting rows keeps the rest in first-occurrence order. */
  lemma {:induction false} SubsequenceKeepsFirstOccurrenceOrder(a: seq<SongRecord>, d: seq<SongRecord>, rs: seq<SongRecord>)
    requires IsSubsequence(a, d) && InFirstOccurrenceOrder(d, rs)
    ensures InFirstOccurrenceOrder(a, rs)
    decreases |d|
  {
    if a != [] {
      var a', d' := a[..|a| - 1], d[..|d| - 1];
      OrderDropLast(d, rs);
      if IsSubsequence(a, d') {
        SubsequenceKeepsFirstOccurrenceOrder(a, d', rs);
      } else {
        SubsequenceKeepsFirstOccurrenceOrder(a', d', rs);
        SubsequenceBounds(a', d');
        forall y | y in a'
          ensures FirstPosition(rs, y.song) < FirstPosition(rs, d[|d| - 1].song)
        {
          var k :| 0 <= k < |d'| && d'[k] == y;
          assert d[k] == y;
        }
        OrderAppend(a', d[|d| - 1], rs);
        assert a == a' + [d[|d| - 1]];
      }
    }
  }

  /** The post-processed rows come in the order in which their titles first appear in the input. */
  lemma PostProcessInFirstOccurrenceOrder(rs: seq<SongRecord>)
    requires AllAlbumsPresent(rs)
    ensures InFirstOccurrenceOrder(PostProcess(rs), rs)
  {
    DedupFirstInFirstOccurrenceOrder(rs);
    DropExcludedIsSubsequence(DedupFirst(rs));
    SubsequenceKeepsFirstOccurrenceOrder(PostProcess(rs), DedupFirst(rs), rs);
  }

  /**
   * Dedup runs before the filter: for the first row with a given title, that title
   * survives post-processing exactly when this row's album lacks the marker, whatever
   * the albums of the later rows with the same title.
   */
  lemma {:induction false} PostProcessKeepsTitle(rs: seq<SongRecord>, i: int)
    requires AllAlbumsPresent(rs) && 0 <= i < |rs|
    requires forall j :: 0 <= j < i ==> rs[j].song != rs[i].song
    ensures rs[i].song in Titles(PostProcess(rs)) <==> !IsExcluded(rs[i])
  {
    DedupKeepsEveryFirst(rs, i);
    if !IsExcluded(rs[i]) {
      assert rs[i] in PostProcess(rs);
    }
    if rs[i].song in Titles(PostProcess(rs)) {
      var r :| r in PostProcess(rs) && r.song == rs[i].song;
      DedupKeepsOnlyFirst(rs, r);
      assert rs[i].song in Titles(rs) by { assert rs[i] in rs; }
      assert FirstIndex(rs, rs[i].song) == i;
    }
  }

  /** Rows with distinct titles are all kept by the dedup. */
  lemma {:induction false} DedupFirstOfDistinct(rs: seq<SongRecord>)
    requires DistinctSongs(rs)
    ensures DedupFirst(rs) == rs
    decreases |rs|
  {
    if rs != [] {
      var init, last := rs[..|rs| - 1], rs[|rs| - 1];
      assert rs == init + [last];
      DedupFirstOfDistinct(init);
      assert forall r :: r in init ==> r.song != last.song;
    }
  }

  /** Rows none of which is marked are all kept by the filter. */
  lemma {:induction false} DropExcludedOfUnmarked(rs: seq<SongRecord>)
    requires forall r :: r in rs ==> !IsExcluded(r)
    ensures DropExcluded(rs) == rs
    decreases |rs|
  {
    if rs != [] {
      var init, last := rs[..|rs| - 1], rs[|rs| - 1];
      assert rs == init + [last];
      DropExcludedOfUnmarked(init);
    }
  }

  /** Rows with distinct titles and no marked album come out exactly as they went in. */
  lemma PostProcessUnchanged(rs: seq<SongRecord>)
    requires AllAlbumsPresent(rs) && DistinctSongs(rs)
    requires forall r :: r in rs ==> !IsExcluded(r)
    ensures PostProcess(rs) == rs
  {
    DedupFirstOfDistinct(rs);
    DropExcludedOfUnmarked(rs);
  }

  /** Post-processing its own output changes nothing. */
  lemma PostProcessIdempotent(rs: seq<SongRecord>)
    requires AllAlbumsPresent(rs)
    ensures AllAlbumsPresent(PostProcess(rs))
    ensures PostProcess(PostProcess(rs)) == PostProcess(rs)
  {
    PostProcessUnchanged(PostProcess(rs));
  }

  /** The album "Cheli Hits" contains the marker. */
  lemma CheliHitsIsExcluded()
    ensures IsExcluded(SongRecord("Cheli", Some("Cheli Hits")))
  {
  }

  /** The album "Cheli" does not contain the marker. */
  lemma CheliIsNotExcluded()
    ensures !IsExcluded(SongRecord("Cheli", Some("Cheli")))
  {
    ContainsIffOccurs("Cheli", Marker);
    forall i | 0 <= i <= 1
      ensures !OccursAt("Cheli", Marker, i)
    {
      assert "Cheli"[i..i + 4][0] != Marker[0];
    }
  }

  /**
   * The order matters: a title first seen on a marked album disappears, while
   * filtering before deduplicating would have kept its later unmarked row.
   */
  lemma DedupBeforeFilter(first: SongRecord, later: SongRecord)
    requires first.song == later.song && later.album.Some?
    requires IsExcluded(first) && !IsExcluded(later)
    ensures PostProcess([first, later]) == []
    ensures DedupFirst(DropExcluded([first, later])) == [later]
  {
    var rs := [first, later];
    assert rs[..1] == [first] && [first][..0] == [];
    assert DropExcluded([first]) == [];
    assert DedupFirst(rs) == [first] by {
      assert first.song in Titles([first]) by { assert first in [first]; }
      DedupFirstOfDistinct([first]);
    }
    assert DropExcluded(rs) == [later];
    DedupFirstOfDistinct([later]);
  }
}
