/** The form entry point: the same rows, shown unchanged when there is exactly one. */
module StreamApp {
  import opened Records
  import opened Subsequences
  import App

  /**
   * The rows the form shows for the rows `getSongs` returned: a single row (the
   * not-found row, or a single found track) is shown as it is; any other number of rows goes
   * through the dedup-then-filter expression of the command-line entry point.
   */
  function ShownRecords(tracks: seq<SongRecord>): (shown: seq<SongRecord>)
    requires |tracks| != 1 ==> AllAlbumsPresent(tracks)
    ensures |tracks| == 1 ==> shown == tracks
    ensures |tracks| != 1 ==> shown == App.PostProcess(tracks)
    ensures |tracks| != 1 ==> DistinctSongs(shown) && forall r :: r in shown ==> !App.IsExcluded(r)
    ensures IsSubsequence(shown, tracks) && |shown| <= |tracks|
  {
    if |tracks| == 1 then
      SubsequenceReflexive(tracks);
      tracks
    else
      App.PostProcess(tracks)
  }

  /** The guard matters: a single row on a marked album is shown, though the filter would drop it. */
  lemma GuardKeepsSingleMarkedRow(r: SongRecord)
    requires App.IsExcluded(r)
    ensures ShownRecords([r]) == [r]
    ensures App.PostProcess([r]) == []
  {
    App.DedupFirstOfDistinct([r]);
    assert [r][..0] == [];
    assert App.DropExcluded([r]) == App.DropExcluded([]);
    assert App.PostProcess([r]) == App.DropExcluded([r]);
  }

  /**
   * From search to screen: every track list yields rows the form can show; an empty
   * one shows only the not-found row, with no album, and a non-empty one shows the
   * post-processed rows of its tracks.
   */
  lemma ShownSearchResult(word: string, trackList: seq<Track>)
    ensures |App.SongsFor(word, trackList)| != 1 ==> AllAlbumsPresent(App.SongsFor(word, trackList))
    ensures trackList == [] ==>
              ShownRecords(App.SongsFor(word, trackList)) == [SongRecord(App.NotFoundPrefix + word, None)]
    ensures |trackList| > 1 ==>
              ShownRecords(App.SongsFor(word, trackList)) == App.PostProcess(App.RecordsOf(trackList))
  {
  }

  /**
   * Two tracks with the same name, the second on a marked album: the form shows a
   * single row, the first track's.
   */
  lemma SameNameScenario(word: string, first: Track, second: Track)
    requires first.trackName == second.trackName
    requires !App.IsExcluded(App.RecordOf(first)) && App.IsExcluded(App.RecordOf(second))
    ensures ShownRecords(App.SongsFor(word, [first, second])) == [App.RecordOf(first)]
  {
    var a, b := App.RecordOf(first), App.RecordOf(second);
    var rows := App.SongsFor(word, [first, second]);
    assert rows == [a, b];
    assert App.DedupFirst(rows) == [a] by {
      assert rows[..1] == [a];
      assert a.song in Titles([a]) by { assert a in [a]; }
      App.DedupFirstOfDistinct([a]);
    }
    assert App.DropExcluded([a]) == [a] by {
      App.DropExcludedOfUnmarked([a]);
    }
  }

  /** The same scenario with titles "Cheli" and albums "Cheli" and "Cheli Hits". */
  lemma CheliScenario()
    ensures ShownRecords(App.SongsFor("love", [Track("Cheli", "Cheli"), Track("Cheli", "Cheli Hits")]))
            == [SongRecord("Cheli", Some("Cheli"))]
  {
    App.CheliIsNotExcluded();
    App.CheliHitsIsExcluded();
    SameNameScenario("love", Track("Cheli", "Cheli"), Track("Cheli", "Cheli Hits"));
  }
}
