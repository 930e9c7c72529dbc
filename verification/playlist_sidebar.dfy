/** The sidebar's per-playlist progress bar: the share of a playlist's URL
    positions whose question is completed, as a rounded percentage. */
module PlaylistSidebar {
  import opened Wrappers
  import opened AppData
  import opened Percentage
  import Home

  /** `playlist.urls.filter(url => questionsData[url]?.completionStatus
      === 'Completed').length`: counted per position, so a URL listed twice
      counts twice, and a URL without a question is not completed. */
  function CompletedCount(urls: seq<string>, questions: Questions): (c: nat)
    ensures c <= |urls|
  {
    if urls == [] then 0
    else (if IsCompletedAt(questions, urls[0]) then 1 else 0) + CompletedCount(urls[1..], questions)
  }

  /** Counting splits over concatenation; together with the one-URL case
      this says the count is one per completed position. */
  lemma {:induction false} CompletedCountConcat(a: seq<string>, b: seq<string>, questions: Questions)
    ensures CompletedCount(a + b, questions) == CompletedCount(a, questions) + CompletedCount(b, questions)
  {
    if a == [] {
      assert a + b == b;
    } else {
      assert (a + b)[1..] == a[1..] + b;
      CompletedCountConcat(a[1..], b, questions);
    }
  }

  /** Every position counts exactly when every URL is completed. */
  lemma {:induction false} CompletedCountFull(urls: seq<string>, questions: Questions)
    ensures CompletedCount(urls, questions) == |urls|
        <==> forall i :: 0 <= i < |urls| ==> IsCompletedAt(questions, urls[i])
  {
    if urls != [] {
      CompletedCountFull(urls[1..], questions);
      assert forall i :: 1 <= i < |urls| ==> urls[i] == urls[1..][i - 1];
    }
  }

  /** No position counts exactly when no URL is completed. */
  lemma {:induction false} CompletedCountZero(urls: seq<string>, questions: Questions)
    ensures CompletedCount(urls, questions) == 0
        <==> forall i :: 0 <= i < |urls| ==> !IsCompletedAt(questions, urls[i])
  {
    if urls != [] {
      CompletedCountZero(urls[1..], questions);
      assert forall i :: 1 <= i < |urls| ==> urls[i] == urls[1..][i - 1];
    }
  }

  /** `calculateCompletion`: 0 for an empty URL list, otherwise the completed
      positions as a percentage, rounded half up. */
  function CalculateCompletion(playlist: Playlist, questions: Questions): (percent: int)
    ensures 0 <= percent <= 100
    ensures |playlist.urls| == 0 ==> percent == 0
    ensures |playlist.urls| > 0 ==> percent == RoundedPercent(CompletedCount(playlist.urls, questions), |playlist.urls|)
  {
    var n := |playlist.urls|;
    if n == 0 then 0
    else
      var c := CompletedCount(playlist.urls, questions);
      RoundedPercentBounds(c, n);
      RoundedPercent(c, n)
  }

  /** A non-empty playlist shows 100 when every URL is completed and 0 when
      none is; in particular a playlist the home page would route to the
      speedrun shows a full bar. */
  lemma CompletionEnds(playlist: Playlist, questions: Questions)
    requires |playlist.urls| > 0
    ensures Home.IsPlaylistComplete(Some(playlist), questions) ==> CalculateCompletion(playlist, questions) == 100
    ensures (forall i :: 0 <= i < |playlist.urls| ==> !IsCompletedAt(questions, playlist.urls[i]))
        ==> CalculateCompletion(playlist, questions) == 0
  {
    CompletedCountFull(playlist.urls, questions);
    CompletedCountZero(playlist.urls, questions);
    RoundedPercentEnds(|playlist.urls|);
  }

  /** Marking one question completed never lowers any URL list's count. */
  lemma {:induction false} CompletedCountMonotone(urls: seq<string>, questions: Questions, url: string, q: Question)
    requires q.completionStatus == Completed
    ensures CompletedCount(urls, questions) <= CompletedCount(urls, questions[url := q])
  {
    if urls != [] {
      CompletedCountMonotone(urls[1..], questions, url, q);
    }
  }

  /** ... and so never lowers the percentage shown for any playlist. */
  lemma CompletionMonotone(playlist: Playlist, questions: Questions, url: string, q: Question)
    requires q.completionStatus == Completed
    ensures CalculateCompletion(playlist, questions) <= CalculateCompletion(playlist, questions[url := q])
  {
    if |playlist.urls| > 0 {
      CompletedCountMonotone(playlist.urls, questions, url, q);
      RoundedPercentMonotone(CompletedCount(playlist.urls, questions),
                             CompletedCount(playlist.urls, questions[url := q]), |playlist.urls|);
    }
  }

  /** The percentage next to every playlist name in the sidebar. */
  function SidebarProgress(playlists: Playlists, questions: Questions): (progress: map<string, int>)
    ensures progress.Keys == playlists.Keys
    ensures forall name :: name in progress ==> 0 <= progress[name] <= 100
    ensures forall name :: name in progress ==> progress[name] == CalculateCompletion(playlists[name], questions)
  {
    map name | name in playlists :: CalculateCompletion(playlists[name], questions)
  }
}
