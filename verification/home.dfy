/** The home page: creating a playlist from imported records, deleting a
    playlist, and choosing between the solve and speedrun pages. */
module Home {
  import opened Wrappers
  import opened Text
  import opened AppData

  // ---------------------------------------------------------------------
  // Records handed to handleSavePlaylist
  // ---------------------------------------------------------------------

  /** The `topics` field of an imported record: absent, a comma-separated
      string (a CSV cell) or an already split list. */
  datatype TopicsField = NoTopics | TopicsText(text: string) | TopicsList(items: seq<string>)

  /** One imported record. A missing `url`, `title` or `difficulty` is the
      empty string: the source tests these fields with `!` and `||`, which
      treat `undefined` and `''` alike. */
  datatype ImportRecord = ImportRecord(url: string, title: string, difficulty: string, topics: TopicsField)

  /** What the save reports: done, or the duplicate-name alert. */
  datatype SaveOutcome = Saved | DuplicateName

  /** The page `handlePlaylistSelect` navigates to. */
  datatype Route = SpeedrunPage(name: string) | SolvePage(name: string)

  // ---------------------------------------------------------------------
  // The fallback title
  // ---------------------------------------------------------------------

  const ProblemsMarker: string := "/problems/"

  /** `url.split('/problems/')[1]`: the text between the first occurrence
      of the marker and the next one (or the end); None when the marker
      does not occur. */
  function Slug(url: string): (r: Option<string>)
    ensures r.None? <==> forall j :: !OccursAt(url, ProblemsMarker, j)
    ensures r.Some? <==> Find(url, ProblemsMarker).Some?
    ensures r.Some? ==>
      var i := Find(url, ProblemsMarker).value;
      var rest := url[i + |ProblemsMarker|..];
      && OccursAt(url, ProblemsMarker, i)
      && (forall j :: 0 <= j < i ==> !OccursAt(url, ProblemsMarker, j))
      && r.value <= rest
      && (forall j :: 0 <= j < |r.value| ==> !OccursAt(rest, ProblemsMarker, j))
      && (r.value == rest || OccursAt(rest, ProblemsMarker, |r.value|))
    ensures r.Some? ==> forall j :: !OccursAt(r.value, ProblemsMarker, j)
  {
    match Find(url, ProblemsMarker)
    case None => None
    case Some(i) =>
      var rest := url[i + |ProblemsMarker|..];
      match FindFrom(rest, ProblemsMarker, 0)
      case None => Some(rest)
      case Some(j) =>
        assert forall k :: OccursAt(rest[..j], ProblemsMarker, k) ==> OccursAt(rest, ProblemsMarker, k) by {
          forall k | OccursAt(rest[..j], ProblemsMarker, k)
            ensures OccursAt(rest, ProblemsMarker, k)
          {
            assert rest[..j][k..k + |ProblemsMarker|] == rest[k..k + |ProblemsMarker|];
          }
        }
        Some(rest[..j])
  }

  /** `w.charAt(0).toUpperCase() + w.slice(1)`. */
  function CapitalizeWord(w: string): string {
    if w == [] then [] else [UpperChar(w[0])] + w[1..]
  }

  function CapitalizeAll(words: seq<string>): (r: seq<string>)
    ensures |r| == |words|
    ensures forall i :: 0 <= i < |words| ==> r[i] == CapitalizeWord(words[i])
  {
    if words == [] then [] else [CapitalizeWord(words[0])] + CapitalizeAll(words[1..])
  }

  /** `.replace(/[/]/g, '').split('-').map(capitalize).join(' ')`: one
      character per character of the slug without slashes, with no dash
      and no slash left. */
  function SlugTitle(slug: string): (t: string)
    ensures |t| == |RemoveAll(slug, '/')|
    ensures '/' !in t && '-' !in t
  {
    var w := RemoveAll(slug, '/');
    var parts := Split(w, '-');
    assert CapitalizeAll(parts) == [CapitalizeWord(parts[0])] + CapitalizeAll(parts[1..]);
    PipelineIsTitleCase(w, true);
    TitleCaseLength(w, true);
    assert forall i | 0 <= i < |w| :: TitleCase(w, true)[i] != '/' && TitleCase(w, true)[i] != '-' by {
      forall i | 0 <= i < |w|
        ensures TitleCase(w, true)[i] != '/' && TitleCase(w, true)[i] != '-'
      {
        TitleCaseAt(w, true, i);
      }
    }
    Join(CapitalizeAll(parts), ' ')
  }

  /** The fallback title expression; None where it evaluates to `undefined`,
      which is exactly when the URL has no `/problems/`. */
  function FallbackTitle(url: string): (r: Option<string>)
    ensures r.None? <==> forall j :: !OccursAt(url, ProblemsMarker, j)
    ensures r.Some? ==> Slug(url).Some? && r.value == SlugTitle(Slug(url).value)
    ensures r.Some? ==> '/' !in r.value && '-' !in r.value
  {
    match Slug(url)
    case None => None
    case Some(slug) => Some(SlugTitle(slug))
  }

  /** Title casing described one character at a time: dashes become
      spaces, and a character right after a dash (or first, when
      `atStart`) is upper-cased. */
  function TitleCase(s: string, atStart: bool): string {
    if s == [] then []
    else if s[0] == '-' then [' '] + TitleCase(s[1..], true)
    else [if atStart then UpperChar(s[0]) else s[0]] + TitleCase(s[1..], false)
  }

  lemma {:induction false} JoinHead(c: char, w: string, rest: seq<string>, sep: char)
    ensures Join([[c] + w] + rest, sep) == [c] + Join([w] + rest, sep)
  {
    if rest != [] {
      assert ([[c] + w] + rest)[1..] == rest;
      assert ([w] + rest)[1..] == rest;
    }
  }

  /** The split/capitalise/join pipeline equals character-wise title casing;
      `capFirst` says whether the first word is capitalised. */
  lemma {:induction false} PipelineIsTitleCase(s: string, capFirst: bool)
    ensures var parts := Split(s, '-');
      Join([if capFirst then CapitalizeWord(parts[0]) else parts[0]] + CapitalizeAll(parts[1..]), ' ')
      == TitleCase(s, capFirst)
    decreases |s|
  {
    var parts := Split(s, '-');
    if s == [] {
    } else if s[0] == '-' {
      var rest := Split(s[1..], '-');
      assert parts == [[]] + rest;
      PipelineIsTitleCase(s[1..], true);
      assert CapitalizeAll(rest) == [CapitalizeWord(rest[0])] + CapitalizeAll(rest[1..]);
      assert parts[1..] == rest;
    } else {
      var rest := Split(s[1..], '-');
      assert parts == [[s[0]] + rest[0]] + rest[1..];
      PipelineIsTitleCase(s[1..], false);
      var c := if capFirst then UpperChar(s[0]) else s[0];
      assert (if capFirst then CapitalizeWord(parts[0]) else parts[0]) == [c] + rest[0];
      JoinHead(c, rest[0], CapitalizeAll(rest[1..]), ' ');
    }
  }

  /** Title casing keeps the length; a dash becomes a space; the first
      character and every character after a dash are upper-cased; every
      other character is kept. */
  lemma {:induction false} TitleCaseAt(s: string, atStart: bool, i: nat)
    requires i < |s|
    ensures |TitleCase(s, atStart)| == |s|
    ensures TitleCase(s, atStart)[i] ==
      if s[i] == '-' then ' '
      else if (if i == 0 then atStart else s[i - 1] == '-') then UpperChar(s[i])
      else s[i]
    decreases |s|
  {
    if i == 0 {
      TitleCaseLength(s[1..], s[0] == '-');
    } else {
      TitleCaseAt(s[1..], s[0] == '-', i - 1);
    }
  }

  lemma {:induction false} TitleCaseLength(s: string, atStart: bool)
    ensures |TitleCase(s, atStart)| == |s|
    decreases |s|
  {
    if s != [] {
      TitleCaseLength(s[1..], s[0] == '-');
    }
  }

  /** The fallback title is the slug without slashes, with every dash
      turned into a space and the first letter of every word upper-cased. */
  lemma SlugTitleShape(slug: string, i: nat)
    requires i < |RemoveAll(slug, '/')|
    ensures var w := RemoveAll(slug, '/');
      var t := SlugTitle(slug);
      |t| == |w|
      && t[i] == if w[i] == '-' then ' '
                 else if i == 0 || w[i - 1] == '-' then UpperChar(w[i])
                 else w[i]
  {
    var w := RemoveAll(slug, '/');
    PipelineIsTitleCase(w, true);
    var parts := Split(w, '-');
    assert CapitalizeAll(parts) == [CapitalizeWord(parts[0])] + CapitalizeAll(parts[1..]);
    TitleCaseAt(w, true, i);
  }

  /** `.../problems/two-sum/` gets the title `Two Sum`. */
  lemma TwoSumTitle(slug: string)
    requires slug == "two-sum/"
    ensures SlugTitle(slug) == "Two Sum"
  {
    var w := RemoveAll(slug, '/');
    assert w == "two-sum" by {
      assert slug == "two-sum" + "/";
      RemoveAllConcat("two-sum", "/", '/');
      RemoveAllAbsent("two-sum", '/');
    }
    var parts := Split(w, '-');
    assert parts == ["two", "sum"] by {
      assert Join(["two", "sum"], '-') == "two-sum";
      SplitJoin(["two", "sum"], '-');
    }
    var caps := CapitalizeAll(parts);
    assert caps == ["Two", "Sum"] by {
      assert CapitalizeWord("two") == "Two" && CapitalizeWord("sum") == "Sum";
    }
    assert Join(caps, ' ') == "Two Sum";
  }

  /** A problem URL whose slug is `two-sum/` gets the title `Two Sum`. */
  lemma TwoSumUrlTitle(url: string)
    requires url == "https://leetcode.com/problems/two-sum/"
    ensures FallbackTitle(url) == Some("Two Sum")
  {
    var host, slug := "https://leetcode.com", "two-sum/";
    assert url == host + ProblemsMarker + slug;
    assert OccursAt(url, ProblemsMarker, |host|);
    forall j | 0 <= j < |host|
      ensures !OccursAt(url, ProblemsMarker, j)
    {
      var w := url[j..j + |ProblemsMarker|];
      assert w[0] == url[j] && w[1] == url[j + 1];
      assert url[j] != '/' || url[j + 1] != 'p';
      assert w != ProblemsMarker;
    }
    assert url[|host| + |ProblemsMarker|..] == slug;
    assert forall j :: !OccursAt(slug, ProblemsMarker, j);
    assert Slug(url) == Some(slug);
    TwoSumTitle(slug);
  }

  // ---------------------------------------------------------------------
  // Building a question entry
  // ---------------------------------------------------------------------

  function TrimAll(parts: seq<string>): (r: seq<string>)
    ensures |r| == |parts|
    ensures forall i :: 0 <= i < |parts| ==> r[i] == Trim(parts[i])
  {
    if parts == [] then [] else [Trim(parts[0])] + TrimAll(parts[1..])
  }

  /** `title || fallbackTitle`: a given title is kept as it is; without
      one the title comes from the URL, and stays undefined only when the
      URL has no `/problems/`. */
  function TitleOf(r: ImportRecord): (t: Option<string>)
    ensures r.title != "" ==> t == Some(r.title)
    ensures r.title == "" ==> t == FallbackTitle(r.url)
    ensures t.None? <==> r.title == "" && forall j :: !OccursAt(r.url, ProblemsMarker, j)
    ensures r.title == "" && t.Some? ==> '/' !in t.value && '-' !in t.value
  {
    if r.title != "" then Some(r.title) else FallbackTitle(r.url)
  }

  /** `difficulty || 'N/A'`: never empty; a given difficulty is kept, and
      a missing one becomes `N/A`. */
  function DifficultyOf(r: ImportRecord): (d: string)
    ensures d != ""
    ensures r.difficulty != "" ==> d == r.difficulty
    ensures r.difficulty == "" ==> d == "N/A"
  {
    if r.difficulty != "" then r.difficulty else "N/A"
  }

  /** A string is split on commas and each piece trimmed; a list is kept;
      anything missing becomes the empty list. */
  function TopicsOf(r: ImportRecord): (topics: seq<string>)
    ensures r.topics.TopicsText? ==> |topics| == |Split(r.topics.text, ',')|
    ensures r.topics.TopicsText? ==>
      forall i :: 0 <= i < |topics| ==> topics[i] == Trim(Split(r.topics.text, ',')[i])
    ensures r.topics.TopicsList? ==> topics == r.topics.items
    ensures r.topics.NoTopics? ==> topics == []
  {
    match r.topics
    case TopicsText(text) => TrimAll(Split(text, ','))
    case TopicsList(items) => items
    case NoTopics => []
  }

  /** The entry written for record `r`, given the entry already stored
      under its URL. It is stored under the record's URL; the progress
      fields of an existing entry survive, and a new entry starts at 0, 0,
      Not Started and an empty history. */
  function ImportQuestion(existing: Option<Question>, r: ImportRecord): (q: Question)
    ensures q.url == r.url && q.title == TitleOf(r) && q.difficulty != ""
    ensures existing.Some? ==>
      && q.totalAttempts == existing.value.totalAttempts
      && q.unaidedAttempts == existing.value.unaidedAttempts
      && q.completionStatus == existing.value.completionStatus
      && q.history == existing.value.history
    ensures existing.None? ==>
      q.totalAttempts == 0 && q.unaidedAttempts == 0 && q.completionStatus == NotStarted && q.history == []
  {
    Question(
      r.url,
      TitleOf(r),
      DifficultyOf(r),
      TopicsOf(r),
      if existing.Some? then existing.value.totalAttempts else 0,
      if existing.Some? then existing.value.unaidedAttempts else 0,
      if existing.Some? then existing.value.completionStatus else NotStarted,
      if existing.Some? then existing.value.history else [])
  }

  /** The `forEach` over the records: each record with a URL writes its
      entry. No stored question is removed, and the missing URL never
      becomes a key. */
  function ImportAll(questions: Questions, records: seq<ImportRecord>): (r: Questions)
    ensures questions.Keys <= r.Keys
    ensures "" in r <==> "" in questions
    decreases |records|
  {
    if records == [] then questions
    else
      var prior := ImportAll(questions, records[..|records| - 1]);
      var r := records[|records| - 1];
      if r.url == "" then prior
      else prior[r.url := ImportQuestion(if r.url in prior then Some(prior[r.url]) else None, r)]
  }

  /** Importing one more record writes that record's entry on top of the
      import so far, unless it has no URL. */
  lemma ImportAllStep(questions: Questions, records: seq<ImportRecord>, i: nat)
    requires i < |records|
    ensures var prior := ImportAll(questions, records[..i]);
      var r := records[i];
      ImportAll(questions, records[..i + 1]) ==
        if r.url == "" then prior
        else prior[r.url := ImportQuestion(if r.url in prior then Some(prior[r.url]) else None, r)]
  {
    assert records[..i + 1][..i] == records[..i];
  }

  /** The URLs of the records that have one. */
  ghost function RecordUrls(records: seq<ImportRecord>): set<string> {
    set i | 0 <= i < |records| && records[i].url != "" :: records[i].url
  }

  /** The playlist value `{urls, speedrunHistory: []}`. */
  function NewPlaylist(records: seq<ImportRecord>): (p: Playlist)
    ensures |p.urls| == |records| && p.speedrunHistory == []
    ensures forall i :: 0 <= i < |records| ==> p.urls[i] == records[i].url
  {
    Playlist(seq(|records|, i requires 0 <= i < |records| => records[i].url), [])
  }

  /** The import adds exactly the records' URLs as keys; the missing URL
      never becomes a key; entries for other URLs are untouched. */
  lemma {:induction false} ImportAllKeys(questions: Questions, records: seq<ImportRecord>)
    ensures ImportAll(questions, records).Keys == questions.Keys + RecordUrls(records)
    ensures forall u :: u in questions && u !in RecordUrls(records) ==>
      ImportAll(questions, records)[u] == questions[u]
    decreases |records|
  {
    if records != [] {
      var init := records[..|records| - 1];
      ImportAllKeys(questions, init);
      assert RecordUrls(records) == RecordUrls(init) + (if records[|records| - 1].url == "" then {} else {records[|records| - 1].url}) by {
        forall u | u in RecordUrls(records)
          ensures u in RecordUrls(init) + (if records[|records| - 1].url == "" then {} else {records[|records| - 1].url})
        {
          var i :| 0 <= i < |records| && records[i].url != "" && records[i].url == u;
          if i < |records| - 1 {
            assert init[i] == records[i];
          }
        }
        forall u | u in RecordUrls(init)
          ensures u in RecordUrls(records)
        {
          var i :| 0 <= i < |init| && init[i].url != "" && init[i].url == u;
          assert records[i] == init[i];
        }
      }
    }
  }

  /** A re-imported URL keeps its attempt counts, status and history; a new
      URL starts at 0, 0, Not Started and an empty history. */
  lemma {:induction false} ImportKeepsProgress(questions: Questions, records: seq<ImportRecord>, u: string)
    requires u in RecordUrls(records)
    ensures u in ImportAll(questions, records)
    ensures var q := ImportAll(questions, records)[u];
      if u in questions then
        q.totalAttempts == questions[u].totalAttempts && q.unaidedAttempts == questions[u].unaidedAttempts
        && q.completionStatus == questions[u].completionStatus && q.history == questions[u].history
      else
        q.totalAttempts == 0 && q.unaidedAttempts == 0 && q.completionStatus == NotStarted && q.history == []
    decreases |records|
  {
    var init := records[..|records| - 1];
    var last := records[|records| - 1];
    ImportAllKeys(questions, init);
    if last.url == u {
      if u in RecordUrls(init) {
        ImportKeepsProgress(questions, init, u);
      }
    } else {
      var i :| 0 <= i < |records| && records[i].url != "" && records[i].url == u;
      assert init[i] == records[i];
      ImportKeepsProgress(questions, init, u);
    }
  }

  /** The title, difficulty and topics of an imported URL come from the
      last record that names it. */
  lemma {:induction false} ImportTakesLastRecord(questions: Questions, records: seq<ImportRecord>, i: nat)
    requires i < |records| && records[i].url != ""
    requires forall k :: i < k < |records| ==> records[k].url != records[i].url
    ensures records[i].url in ImportAll(questions, records)
    ensures var q := ImportAll(questions, records)[records[i].url];
      q.url == records[i].url && q.title == TitleOf(records[i])
      && q.difficulty == DifficultyOf(records[i]) && q.topics == TopicsOf(records[i])
    decreases |records|
  {
    var init := records[..|records| - 1];
    if i < |records| - 1 {
      assert init[i] == records[i];
      ImportTakesLastRecord(questions, init, i);
    }
  }

  // ---------------------------------------------------------------------
  // Completion check and routing
  // ---------------------------------------------------------------------

  /** `urls.every(url => questionsData[url]?.completionStatus === 'Completed')`. */
  function AllCompleted(urls: seq<string>, questions: Questions): (r: bool)
    ensures r <==> forall i :: 0 <= i < |urls| ==> IsCompletedAt(questions, urls[i])
  {
    if urls == [] then true
    else IsCompletedAt(questions, urls[0]) && AllCompleted(urls[1..], questions)
  }

  /** `isPlaylistComplete`: false for a missing playlist; otherwise true
      exactly when every listed URL has a Completed question (so an empty
      playlist counts as complete). */
  function IsPlaylistComplete(playlist: Option<Playlist>, questions: Questions): (r: bool)
    ensures playlist.None? ==> !r
    ensures playlist.Some? ==>
      (r <==> forall i :: 0 <= i < |playlist.value.urls| ==> IsCompletedAt(questions, playlist.value.urls[i]))
  {
    playlist.Some? && AllCompleted(playlist.value.urls, questions)
  }

  /** A record without a URL still takes a place in the playlist's URL
      list, so unless the store already holds an entry under the empty
      key, the new playlist can never count as complete. */
  lemma UrlLessRecordBlocksCompletion(questions: Questions, records: seq<ImportRecord>, i: nat)
    requires i < |records| && records[i].url == ""
    requires "" !in questions
    ensures !IsPlaylistComplete(Some(NewPlaylist(records)), ImportAll(questions, records))
  {
    ImportAllKeys(questions, records);
    assert NewPlaylist(records).urls[i] == "";
  }

  // ---------------------------------------------------------------------
  // The page
  // ---------------------------------------------------------------------

  class HomePage {
    var playlists: Playlists
    var questions: Questions
    var isModalOpen: bool
    var isDropdownOpen: bool

    /** The page as first rendered, before stored data is loaded. */
    constructor ()
      ensures playlists == map[] && questions == map[]
      ensures !isModalOpen && !isDropdownOpen
    {
      playlists := map[];
      questions := map[];
      isModalOpen := false;
      isDropdownOpen := false;
    }

    /** The mount effect: replace the state with what storage returned. */
    method Load(storedPlaylists: Playlists, storedQuestions: Questions)
      modifies this
      ensures playlists == storedPlaylists && questions == storedQuestions
      ensures isModalOpen == old(isModalOpen) && isDropdownOpen == old(isDropdownOpen)
    {
      playlists := storedPlaylists;
      questions := storedQuestions;
    }

    /** `handleSavePlaylist`: refuses an existing name and changes nothing;
        otherwise adds the playlist under `name`, writes one question entry
        per record with a URL, and closes the modal. */
    method SavePlaylist(name: string, records: seq<ImportRecord>) returns (outcome: SaveOutcome)
      modifies this
      ensures old(name in playlists) ==> outcome == DuplicateName && unchanged(this)
      ensures old(name !in playlists) ==>
        && outcome == Saved
        && playlists == old(playlists)[name := NewPlaylist(records)]
        && questions == ImportAll(old(questions), records)
        && !isModalOpen && isDropdownOpen == old(isDropdownOpen)
    {
      if name in playlists {
        return DuplicateName;
      }
      playlists := playlists[name := NewPlaylist(records)];
      var i := 0;
      while i < |records|
        invariant 0 <= i <= |records|
        invariant questions == ImportAll(old(questions), records[..i])
        invariant playlists == old(playlists)[name := NewPlaylist(records)]
        invariant isDropdownOpen == old(isDropdownOpen)
      {
        var r := records[i];
        ImportAllStep(old(questions), records, i);
        if r.url != "" {
          var existing := if r.url in questions then Some(questions[r.url]) else None;
          questions := questions[r.url := ImportQuestion(existing, r)];
        }
        i := i + 1;
      }
      assert records[..|records|] == records;
      isModalOpen := false;
      outcome := Saved;
    }

    /** `handleDeletePlaylist`: removes one name; every question and every
        other playlist stays as it was. */
    method DeletePlaylist(name: string)
      modifies this
      ensures playlists == old(playlists) - {name}
      ensures name !in playlists
      ensures forall other :: other in old(playlists) && other != name ==>
        other in playlists && playlists[other] == old(playlists)[other]
      ensures questions == old(questions)
      ensures !isDropdownOpen && isModalOpen == old(isModalOpen)
    {
      playlists := playlists - {name};
      isDropdownOpen := false;
    }

    /** `handleStartClick`: toggles the playlist dropdown when there is a playlist. */
    method StartClick()
      modifies this
      ensures isDropdownOpen == if old(playlists) != map[] then !old(isDropdownOpen) else old(isDropdownOpen)
      ensures playlists == old(playlists) && questions == old(questions) && isModalOpen == old(isModalOpen)
    {
      if playlists != map[] {
        isDropdownOpen := !isDropdownOpen;
      }
    }

    /** `handlePlaylistSelect`: a complete playlist goes to the speedrun
        page, any other (or a missing one) to the solve page. */
    method SelectPlaylist(name: string) returns (route: Route)
      modifies this
      ensures var p := if name in playlists then Some(playlists[name]) else None;
        route == if IsPlaylistComplete(p, questions) then SpeedrunPage(name) else SolvePage(name)
      ensures !isDropdownOpen
      ensures playlists == old(playlists) && questions == old(questions) && isModalOpen == old(isModalOpen)
    {
      isDropdownOpen := false;
      var p := if name in playlists then Some(playlists[name]) else None;
      if IsPlaylistComplete(p, questions) {
        route := SpeedrunPage(name);
      } else {
        route := SolvePage(name);
      }
    }
  }
}
