/** The add-playlist dialog: turning pasted text into records, and the
    checks around a CSV import, before the records are handed to the
    home page's save. */
module AddPlaylistModal {
  import opened Wrappers
  import opened Text
  import opened Home

  /** The alerts (and the one silent return) that stop a save. */
  datatype ImportError =
    | MissingNameOrUrls   // manual save with a blank name or blank text
    | NoFileChosen        // the file input fired without a file
    | BlankName           // a file was chosen before a name was entered
    | CsvWithoutUrl       // no rows, or the first row has no `url`
    | CsvParseFailed      // the CSV parser reported an error

  /** The arguments passed to `onSave`. */
  datatype SaveRequest = SaveRequest(name: string, records: seq<ImportRecord>)

  /** What the CSV parser delivered: rows keyed by the header line, or an error. */
  datatype CsvOutcome = Parsed(rows: seq<ImportRecord>) | ParseError

  /** `lines.filter(url => url.trim() !== '')`: the kept lines, unchanged,
      in their original order; the result is empty exactly when every line
      is blank. */
  function NonBlankLines(lines: seq<string>): (r: seq<string>)
    ensures |r| <= |lines|
    ensures forall i :: 0 <= i < |r| ==> !IsBlank(r[i])
    ensures r == [] <==> forall i :: 0 <= i < |lines| ==> IsBlank(lines[i])
  {
    if lines == [] then []
    else
      var rest := NonBlankLines(lines[1..]);
      if IsBlank(lines[0]) then rest else [lines[0]] + rest
  }

  /** Filtering distributes over concatenation, so the kept lines keep
      their relative order. */
  lemma {:induction false} NonBlankLinesConcat(a: seq<string>, b: seq<string>)
    ensures NonBlankLines(a + b) == NonBlankLines(a) + NonBlankLines(b)
  {
    if a == [] {
      assert a + b == b;
    } else {
      assert (a + b)[1..] == a[1..] + b;
      NonBlankLinesConcat(a[1..], b);
    }
  }

  /** Every line that is not blank is kept as often as it occurs, and no
      blank line is kept: together with the order kept by
      `NonBlankLinesConcat`, the filter drops the blank lines and nothing
      else. */
  lemma {:induction false} NonBlankLinesCounts(lines: seq<string>)
    ensures forall x :: multiset(NonBlankLines(lines))[x] == if IsBlank(x) then 0 else multiset(lines)[x]
  {
    if lines != [] {
      var head, rest := lines[0], NonBlankLines(lines[1..]);
      NonBlankLinesCounts(lines[1..]);
      assert lines == [head] + lines[1..];
      assert multiset(lines) == multiset([head]) + multiset(lines[1..]);
      if IsBlank(head) {
        assert NonBlankLines(lines) == rest;
      } else {
        assert NonBlankLines(lines) == [head] + rest;
        assert multiset(NonBlankLines(lines)) == multiset([head]) + multiset(rest);
      }
    }
  }

  /** `{ url }` */
  function UrlRecord(url: string): ImportRecord {
    ImportRecord(url, "", "", NoTopics)
  }

  function UrlRecords(urls: seq<string>): (r: seq<ImportRecord>)
    ensures |r| == |urls|
    ensures forall i :: 0 <= i < |urls| ==> r[i] == UrlRecord(urls[i])
  {
    if urls == [] then [] else [UrlRecord(urls[0])] + UrlRecords(urls[1..])
  }

  /** The records carry the given URLs, in order, and nothing else. */
  lemma UrlRecordsUrls(urls: seq<string>)
    ensures NewPlaylist(UrlRecords(urls)).urls == urls
    ensures forall i :: 0 <= i < |urls| ==> UrlRecords(urls)[i] == UrlRecord(UrlRecords(urls)[i].url)
  {
    assert NewPlaylist(UrlRecords(urls)).urls == urls;
  }

  /** Joining pieces that are all whitespace with newlines gives whitespace. */
  lemma {:induction false} JoinBlankLines(lines: seq<string>)
    requires forall i :: 0 <= i < |lines| ==> AllSpace(lines[i])
    ensures AllSpace(Join(lines, '\n'))
  {
    if |lines| > 1 {
      JoinBlankLines(lines[1..]);
      var tail := Join(lines[1..], '\n');
      var j := lines[0] + ['\n'] + tail;
      assert forall k :: 0 <= k < |j| ==> j[k] == (if k < |lines[0]| then lines[0][k] else if k == |lines[0]| then '\n' else tail[k - |lines[0]| - 1]);
    }
  }

  /** Text that is not blank has at least one line that is not blank. */
  lemma NonBlankTextHasLine(text: string)
    ensures !IsBlank(text) ==> NonBlankLines(Split(text, '\n')) != []
  {
    var lines := Split(text, '\n');
    if !IsBlank(text) && NonBlankLines(lines) == [] {
      JoinBlankLines(lines);
      assert false;
    }
  }

  /** `playlistUrls.split('\n').filter(...).map(url => ({ url }))`: one
      record per non-blank line, untrimmed, in order, carrying nothing but
      its URL; none has a blank URL, and text that is not blank gives at
      least one record. */
  function LineRecords(text: string): (records: seq<ImportRecord>)
    ensures NewPlaylist(records).urls == NonBlankLines(Split(text, '\n'))
    ensures forall i :: 0 <= i < |records| ==> records[i] == UrlRecord(records[i].url)
    ensures forall i :: 0 <= i < |records| ==> !IsBlank(records[i].url)
    ensures !IsBlank(text) ==> |records| >= 1
  {
    var lines := NonBlankLines(Split(text, '\n'));
    NonBlankTextHasLine(text);
    UrlRecordsUrls(lines);
    UrlRecords(lines)
  }

  /** The URLs of the records are the lines of the text that are not blank,
      each as often as it occurs there, and no blank line. */
  lemma {:induction false} LineRecordsKeepEveryLine(text: string)
    ensures forall x ::
      multiset(NewPlaylist(LineRecords(text)).urls)[x] == (if IsBlank(x) then 0 else multiset(Split(text, '\n'))[x])
  {
    NonBlankLinesCounts(Split(text, '\n'));
  }

  /** `handleManualSave`: refused when the name or the text is blank after
      trimming; otherwise the name exactly as typed and one `{url}` record
      per non-blank line. */
  function ManualSave(playlistName: string, playlistUrls: string): (r: Result<SaveRequest, ImportError>)
    ensures r.Err? <==> IsBlank(playlistName) || IsBlank(playlistUrls)
    ensures r.Err? ==> r.error == MissingNameOrUrls
    ensures r.Ok? ==> r.value == SaveRequest(playlistName, LineRecords(playlistUrls))
    ensures r.Ok? ==> |r.value.records| >= 1
  {
    if IsBlank(playlistName) || IsBlank(playlistUrls) then Err(MissingNameOrUrls)
    else Ok(SaveRequest(playlistName, LineRecords(playlistUrls)))
  }

  /** `handleFileImport` with the parser's callbacks: nothing happens
      without a file; a blank name is refused before parsing; an empty
      result or a first row without `url` is refused; a parser error is
      reported; otherwise the rows go to the save as they are. */
  function FileImport(playlistName: string, file: Option<CsvOutcome>): (r: Result<SaveRequest, ImportError>)
    ensures file.None? ==> r == Err(NoFileChosen)
    ensures file.Some? && IsBlank(playlistName) ==> r == Err(BlankName)
    ensures r.Ok? <==>
      file.Some? && !IsBlank(playlistName) && file.value.Parsed?
      && |file.value.rows| > 0 && file.value.rows[0].url != ""
    ensures r.Ok? ==> r.value == SaveRequest(playlistName, file.value.rows)
    ensures file.Some? && !IsBlank(playlistName) && file.value.ParseError? ==> r == Err(CsvParseFailed)
    ensures (file.Some? && !IsBlank(playlistName) && file.value.Parsed?
             && (|file.value.rows| == 0 || file.value.rows[0].url == "")) ==> r == Err(CsvWithoutUrl)
  {
    match file
    case None => Err(NoFileChosen)
    case Some(outcome) =>
      if IsBlank(playlistName) then Err(BlankName)
      else match outcome
        case ParseError => Err(CsvParseFailed)
        case Parsed(rows) =>
          if |rows| == 0 || rows[0].url == "" then Err(CsvWithoutUrl)
          else Ok(SaveRequest(playlistName, rows))
  }

  /** After a manual save, every URL of the new playlist has a question
      entry, so a playlist entered by hand has no dangling references. */
  lemma ManualSaveHasNoDanglingUrl(playlistName: string, playlistUrls: string, questions: AppData.Questions, i: nat)
    requires ManualSave(playlistName, playlistUrls).Ok?
    requires i < |ManualSave(playlistName, playlistUrls).value.records|
    ensures var records := ManualSave(playlistName, playlistUrls).value.records;
      NewPlaylist(records).urls[i] in ImportAll(questions, records)
  {
    var records := ManualSave(playlistName, playlistUrls).value.records;
    ImportAllKeys(questions, records);
    assert records[i].url != "";
    assert records[i].url in RecordUrls(records);
  }
}
