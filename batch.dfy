/** Downloading every URL of a list file. `download_youtube_folder.py` keeps a statistics
    record while it goes; `download_youtube_folder_working.py` and `download_youtube.py`
    only dispatch the URLs one after the other. A download is one call of
    `download_video`; what the extraction library then does is an outcome given from
    outside, one boolean per call, since `download_video` catches every exception and
    answers `True` or `False`. */
module Batch {

  import opened Wrappers
  import opened UrlList
  import opened Folders
  import opened FormatOptions

  /** What opening and reading the list file gives: no such file, some other failure
      while reading (a decoding error, say), or its lines. */
  datatype ListFile = Missing | Unreadable | Lines(lines: seq<string>)

  /** The `stats` dictionary of `download_from_file`. */
  datatype Stats = Stats(total: nat, success: nat, errors: nat, errorUrls: seq<string>)

  /** The statistics returned when nothing was downloaded. */
  const NoStats: Stats := Stats(0, 0, 0, [])

  /** One call of `download_video(url, output_dir)` in the two older scripts. */
  datatype Call = Call(url: string, outputDir: Option<string>)

  /** One call of `YouTubeDownloader.download_video`: the URL and the options record it
      hands to the library. */
  datatype Download = Download(url: string, options: YdlOptions)

  /** How many downloads succeeded. */
  function CountSuccesses(outcomes: seq<bool>): (n: nat)
  {
    if outcomes == [] then 0
    else CountSuccesses(outcomes[..|outcomes| - 1]) + (if outcomes[|outcomes| - 1] then 1 else 0)
  }

  /** The URLs whose download failed, in list order and with repetitions. */
  function FailedUrls(urls: seq<string>, outcomes: seq<bool>): (r: seq<string>)
    requires |urls| == |outcomes|
  {
    if urls == [] then []
    else
      var n := |urls| - 1;
      FailedUrls(urls[..n], outcomes[..n]) + (if outcomes[n] then [] else [urls[n]])
  }

  /** Every download either succeeds or is listed as failed. */
  lemma {:induction false} TallyBalance(urls: seq<string>, outcomes: seq<bool>)
    requires |urls| == |outcomes|
    ensures CountSuccesses(outcomes) + |FailedUrls(urls, outcomes)| == |urls|
  {
    if urls != [] {
      var n := |urls| - 1;
      TallyBalance(urls[..n], outcomes[..n]);
    }
  }

  /** A URL is listed as failed exactly when one of its downloads failed. */
  lemma {:induction false} FailedUrlsMember(urls: seq<string>, outcomes: seq<bool>, x: string)
    requires |urls| == |outcomes|
    ensures x in FailedUrls(urls, outcomes) <==> exists k :: 0 <= k < |urls| && urls[k] == x && !outcomes[k]
  {
    if urls != [] {
      var n := |urls| - 1;
      var u, o := urls[..n], outcomes[..n];
      FailedUrlsMember(u, o, x);
      if exists k :: 0 <= k < |urls| && urls[k] == x && !outcomes[k] {
        var k :| 0 <= k < |urls| && urls[k] == x && !outcomes[k];
        if k < n { assert u[k] == x && !o[k]; }
      }
      if exists k :: 0 <= k < |u| && u[k] == x && !o[k] {
        var k :| 0 <= k < |u| && u[k] == x && !o[k];
        assert urls[k] == u[k] && outcomes[k] == o[k];
      }
    }
  }

  /** When every download succeeds nothing is listed as failed, and conversely. */
  lemma {:induction false} NoFailures(urls: seq<string>, outcomes: seq<bool>)
    requires |urls| == |outcomes|
    ensures FailedUrls(urls, outcomes) == [] <==> CountSuccesses(outcomes) == |outcomes|
  {
    TallyBalance(urls, outcomes);
  }

  /** The calls the dispatch loop makes: each URL once, in order, with the same folder. */
  predicate DispatchedInOrder(calls: seq<Call>, urls: seq<string>, outputDir: Option<string>)
  {
    |calls| == |urls| && forall k :: 0 <= k < |urls| ==> calls[k] == Call(urls[k], outputDir)
  }

  /** Each URL downloaded once, in order, with the same options. */
  predicate DownloadedInOrder(downloads: seq<Download>, urls: seq<string>, options: YdlOptions)
  {
    |downloads| == |urls| && forall k :: 0 <= k < |urls| ==> downloads[k] == Download(urls[k], options)
  }

  /** The loop of `download_from_file` in `download_youtube_folder.py`, from the moment
      `stats['total']` is set: one download per URL, counting successes and failures and
      collecting the failed URLs. A failure does not stop the loop. Every download gets
      the batch folder, the quality, the audio flag and the merge tool found at start-up. */
  method RunBatch(urls: seq<string>, outputDir: string, quality: string, audioOnly: bool,
                  ffmpegPath: Option<string>, outcomes: seq<bool>)
    returns (stats: Stats, downloads: seq<Download>)
    requires |outcomes| == |urls|
    ensures stats.total == |urls|
    ensures stats.success == CountSuccesses(outcomes)
    ensures stats.errorUrls == FailedUrls(urls, outcomes)
    ensures stats.errors == |stats.errorUrls| && stats.success + stats.errors == stats.total
    ensures DownloadedInOrder(downloads, urls, BuildOptions(Some(outputDir), quality, audioOnly, ffmpegPath))
  {
    var options := BuildOptions(Some(outputDir), quality, audioOnly, ffmpegPath);
    stats := NoStats.(total := |urls|);
    downloads := [];
    var i := 0;
    while i < |urls|
      invariant 0 <= i <= |urls|
      invariant stats.total == |urls|
      invariant stats.success == CountSuccesses(outcomes[..i])
      invariant stats.errorUrls == FailedUrls(urls[..i], outcomes[..i])
      invariant stats.errors == |stats.errorUrls| && stats.success + stats.errors == i
      invariant DownloadedInOrder(downloads, urls[..i], options)
    {
      downloads := downloads + [Download(urls[i], options)];
      if outcomes[i] {
        stats := stats.(success := stats.success + 1);
      } else {
        stats := stats.(errors := stats.errors + 1, errorUrls := stats.errorUrls + [urls[i]]);
      }
      assert urls[..i + 1][..i] == urls[..i] && outcomes[..i + 1][..i] == outcomes[..i];
      i := i + 1;
    }
    assert urls[..i] == urls && outcomes[..i] == outcomes;
  }

  /** The `for` loop of the two older scripts: `download_video` on every URL, in order,
      with the same folder; nothing is accumulated and no failure stops it. */
  method Dispatch(urls: seq<string>, outputDir: Option<string>) returns (calls: seq<Call>)
    ensures DispatchedInOrder(calls, urls, outputDir)
  {
    calls := [];
    var i := 0;
    while i < |urls|
      invariant 0 <= i <= |urls|
      invariant DispatchedInOrder(calls, urls[..i], outputDir)
    {
      calls := calls + [Call(urls[i], outputDir)];
      i := i + 1;
    }
  }

  /** `YouTubeDownloader.download_from_file` in `download_youtube_folder.py`. The file
      system is the set `existing` of paths that exist and `mkdirOk` says whether
      `os.makedirs` succeeds; `parent` and `stem` are the list file's directory and name
      without extension, `now` the clock, `outcomes` the answer of each download. The
      returned folder is the one created, if any. */
  method DownloadFromFile(file: ListFile, quality: string, audioOnly: bool, ffmpegPath: Option<string>,
                          parent: string, stem: string, now: DateTime,
                          existing: set<string>, mkdirOk: bool, outcomes: seq<bool>)
    returns (stats: Stats, folder: Option<string>, downloads: seq<Download>)
    requires now.Valid()
    requires file.Lines? ==> |outcomes| == |CommentFreeUrls(file.lines)|
    ensures file.Missing? || file.Unreadable? ==> stats == NoStats && folder.None? && downloads == []
    ensures file.Lines? && CommentFreeUrls(file.lines) == [] ==> stats == NoStats && folder.None? && downloads == []
    ensures file.Lines? && CommentFreeUrls(file.lines) != [] && !mkdirOk ==>
      stats == NoStats && folder.None? && downloads == []
    ensures folder.Some? <==> file.Lines? && CommentFreeUrls(file.lines) != [] && mkdirOk
    ensures folder.Some? ==>
      var urls := CommentFreeUrls(file.lines);
      IsFirstFree(DatedFolder(parent, stem, now), existing, folder.value) &&
      stats.total == |urls| && stats.success == CountSuccesses(outcomes) &&
      stats.errorUrls == FailedUrls(urls, outcomes) && stats.errors == |stats.errorUrls| &&
      DownloadedInOrder(downloads, urls, BuildOptions(folder, quality, audioOnly, ffmpegPath))
  {
    stats, folder, downloads := NoStats, None, [];
    if file.Missing? || file.Unreadable? {
      return;
    }
    var urls := CommentFreeUrls(file.lines);
    if urls == [] {
      return;
    }
    var outputDir := UniqueFolder(DatedFolder(parent, stem, now), existing);
    if !mkdirOk {
      return;
    }
    folder := Some(outputDir);
    stats, downloads := RunBatch(urls, outputDir, quality, audioOnly, ffmpegPath, outcomes);
  }

  /** `download_from_file` in `download_youtube_folder_working.py`: `dirname` and
      `baseName` are `os.path.dirname(file_path)` and the file name without extension. */
  method DownloadFromFileWorking(file: ListFile, dirname: string, baseName: string, now: DateTime,
                                 existing: set<string>, mkdirOk: bool)
    returns (folder: Option<string>, calls: seq<Call>)
    requires now.Valid()
    ensures !file.Lines? || NonBlankUrls(file.lines) == [] || !mkdirOk ==> folder.None? && calls == []
    ensures folder.Some? <==> file.Lines? && NonBlankUrls(file.lines) != [] && mkdirOk
    ensures folder.Some? ==>
      IsFirstFree(WorkingDatedFolder(dirname, baseName, now), existing, folder.value) &&
      DispatchedInOrder(calls, NonBlankUrls(file.lines), folder)
  {
    folder, calls := None, [];
    if !file.Lines? {
      return;
    }
    var urls := NonBlankUrls(file.lines);
    if urls == [] {
      return;
    }
    var outputDir := UniqueFolder(WorkingDatedFolder(dirname, baseName, now), existing);
    if !mkdirOk {
      return;
    }
    folder := Some(outputDir);
    calls := Dispatch(urls, folder);
  }

  /** `download_from_file` in `download_youtube.py`: every non-blank line, comments
      included, is downloaded into the current directory. */
  method DownloadFromFileSimple(file: ListFile) returns (calls: seq<Call>)
    ensures !file.Lines? ==> calls == []
    ensures file.Lines? ==> DispatchedInOrder(calls, NonBlankUrls(file.lines), None)
  {
    calls := [];
    if file.Lines? {
      calls := Dispatch(NonBlankUrls(file.lines), None);
    }
  }

}
