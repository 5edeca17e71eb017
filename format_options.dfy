/** The `ydl_opts` record that `YouTubeDownloader.download_video` builds before it calls
    the extraction library: the format selector for a quality, the output template, the
    audio-only switches and the location of the merge tool. */
module FormatOptions {

  import opened Wrappers
  import opened Text

  /** The qualities the command line accepts (`--quality` choices). */
  const Choices: seq<string> :=
    ["best", "worst", "144p", "240p", "360p", "480p", "720p", "1080p", "1440p", "2160p"]

  /** The qualities that name a maximal frame height. */
  const HeightTokens: seq<string> :=
    ["144p", "240p", "360p", "480p", "720p", "1080p", "1440p", "2160p"]

  /** A bracketed upper bound on the frame height, `[height<=v]`. */
  function HeightFilter(v: string): (r: string)
  {
    "[" + (CapKey + (v + "]"))
  }

  /** The `best` selector: the best mp4/m4a pair, optionally bounded by 2160 lines, else
      the best pair, else the best single file. */
  const BestSelector: string :=
    "bestvideo[ext=mp4]" + (HeightFilter("?2160") + "+bestaudio[ext=m4a]/bestvideo+bestaudio/best")

  const AudioSelector: string := "bestaudio/best"

  /** The file-name template inside the output directory. */
  const TitleTemplate: string := "%(title)s.%(ext)s"

  /** The options handed to the library; a key the script leaves out, or sets to `None`,
      is `None` here. */
  datatype YdlOptions = YdlOptions(
    outtmpl: string,
    extractAudio: bool,
    audioFormat: Option<string>,
    format: string,
    mergeOutputFormat: Option<string>,
    ffmpegLocation: Option<string>)

  /** `'/'.join(alts)`: a selector that falls back from each alternative to the next. */
  function JoinAlternatives(alts: seq<string>): (s: string)
    requires alts != []
  {
    if |alts| == 1 then alts[0] else alts[0] + ("/" + JoinAlternatives(alts[1..]))
  }

  /** `s.split('/')`: the alternatives of a selector, left to right. */
  function Alternatives(s: string): (r: seq<string>)
    ensures r != []
    ensures forall a :: a in r ==> '/' !in a
    decreases |s|
  {
    if s == [] then [[]]
    else if s[0] == '/' then [[]] + Alternatives(s[1..])
    else
      var rest := Alternatives(s[1..]);
      [[s[0]] + rest[0]] + rest[1..]
  }

  /** The alternatives of the selector for a height token: the best mp4/m4a pair no taller
      than `height`, else the best pair no taller, else the best single file no taller. */
  function HeightAlternatives(height: string): (r: seq<string>)
    ensures |r| == 3 && forall a :: a in r ==> StartsWith(a, "best")
  {
    ["bestvideo" + (HeightFilter(height) + "[ext=mp4]+bestaudio[ext=m4a]"),
     "bestvideo" + (HeightFilter(height) + "+bestaudio"),
     "best" + HeightFilter(height)]
  }

  /** The selector for a height token: its three alternatives, separated by `/`. */
  function HeightSelector(height: string): (r: string)
    ensures StartsWith(r, "bestvideo" + HeightFilter(height))
  {
    var alts := HeightAlternatives(height);
    assert alts[0] == "bestvideo" + HeightFilter(height) + "[ext=mp4]+bestaudio[ext=m4a]";
    JoinAlternatives(alts)
  }

  /** The `format` entry for a quality and the audio-only flag. */
  function FormatSelector(quality: string, audioOnly: bool): (r: string)
    ensures r == [] ==> !audioOnly && quality == []
  {
    if audioOnly then AudioSelector
    else if quality == "best" then BestSelector
    else if quality == "worst" then "worst"
    else if quality in HeightTokens then HeightSelector(quality[..|quality| - 1])
    else quality
  }

  /** The `outtmpl` entry: the title template inside the output directory, or alone
      when no directory (or an empty one) is given. */
  function OutputTemplate(outputDir: Option<string>): (t: string)
    ensures |t| >= |TitleTemplate| && t[|t| - |TitleTemplate|..] == TitleTemplate
    ensures outputDir.Some? && outputDir.value != "" ==> StartsWith(t, outputDir.value)
    ensures outputDir.None? || outputDir.value == "" ==> t == TitleTemplate
  {
    JoinPath(if outputDir.Some? then outputDir.value else "", TitleTemplate)
  }

  /** The whole options record for one download. */
  function BuildOptions(outputDir: Option<string>, quality: string, audioOnly: bool,
                        ffmpegPath: Option<string>): (o: YdlOptions)
    ensures o.outtmpl == OutputTemplate(outputDir)
    ensures o.extractAudio == audioOnly
    ensures o.audioFormat == (if audioOnly then Some("mp3") else None)
    ensures o.mergeOutputFormat == (if audioOnly then None else Some("mp4"))
    ensures o.ffmpegLocation.Some? <==> (ffmpegPath.Some? && ffmpegPath.value != "")
    ensures o.ffmpegLocation.Some? ==> o.ffmpegLocation == ffmpegPath
    ensures o.format == FormatSelector(quality, audioOnly)
  {
    YdlOptions(
      outtmpl := OutputTemplate(outputDir),
      extractAudio := audioOnly,
      audioFormat := if audioOnly then Some("mp3") else None,
      format := FormatSelector(quality, audioOnly),
      mergeOutputFormat := if audioOnly then None else Some("mp4"),
      ffmpegLocation := if ffmpegPath.Some? && ffmpegPath.value != "" then ffmpegPath else None)
  }

  /** The selector for each kind of quality: audio-only overrides everything, `best` and
      `worst` are fixed, a height token gives the height selector, and any other string
      passes through verbatim. */
  lemma SelectorCases(quality: string, audioOnly: bool)
    ensures audioOnly ==> FormatSelector(quality, audioOnly) == AudioSelector
    ensures !audioOnly && quality == "best" ==> FormatSelector(quality, audioOnly) == BestSelector
    ensures !audioOnly && quality == "worst" ==> FormatSelector(quality, audioOnly) == "worst"
    ensures !audioOnly && quality !in Choices ==> FormatSelector(quality, audioOnly) == quality
  {
  }

  /** In audio-only mode the quality has no effect on the options at all. */
  lemma AudioIgnoresQuality(outputDir: Option<string>, q1: string, q2: string, ffmpegPath: Option<string>)
    ensures BuildOptions(outputDir, q1, true, ffmpegPath) == BuildOptions(outputDir, q2, true, ffmpegPath)
  {
  }

  // ---------------------------------------------------------------------------
  // Height caps written into a selector

  const CapKey: string := "height<="

  /** The text after a cap key, up to the closing bracket. */
  function CapValue(s: string): (r: string)
  {
    if s == [] || s[0] == ']' then [] else [s[0]] + CapValue(s[1..])
  }

  /** Every `height<=` bound a selector string contains, left to right. */
  function Caps(s: string): (r: seq<string>)
    decreases |s|
  {
    if |s| < |CapKey| then []
    else if s[..|CapKey|] == CapKey then [CapValue(s[|CapKey|..])] + Caps(s[|CapKey|..])
    else Caps(s[1..])
  }

  /** Text without the letter `h` contributes no cap. */
  lemma {:induction false} CapsSkip(p: string, rest: string)
    requires 'h' !in p
    ensures Caps(p + rest) == Caps(rest)
  {
    if p == [] {
      assert p + rest == rest;
    } else {
      var s := p + rest;
      assert s[0] == p[0];
      assert s[0] != CapKey[0];
      if |s| < |CapKey| {
        assert Caps(rest) == [];
      } else {
        assert s[..|CapKey|] != CapKey;
        assert s[1..] == p[1..] + rest;
        assert 'h' !in p[1..];
        CapsSkip(p[1..], rest);
        assert Caps(s) == Caps(s[1..]);
      }
    }
  }

  lemma {:induction false} CapValueUntilBracket(v: string, rest: string)
    requires ']' !in v
    ensures CapValue(v + "]" + rest) == v
  {
    if v != [] {
      assert (v + "]" + rest)[1..] == v[1..] + "]" + rest;
      assert ']' !in v[1..];
      CapValueUntilBracket(v[1..], rest);
    }
  }

  /** A height filter with a bracket-free value contributes exactly that value. */
  lemma CapsFilter(v: string, rest: string)
    requires 'h' !in v && ']' !in v
    ensures Caps(HeightFilter(v) + rest) == [v] + Caps(rest)
  {
    assert HeightFilter(v) + rest == "[" + (CapKey + v + "]" + rest);
    CapsSkip("[", CapKey + v + "]" + rest);
    var s := CapKey + v + "]" + rest;
    assert s[..|CapKey|] == CapKey;
    assert s[|CapKey|..] == v + "]" + rest;
    CapValueUntilBracket(v, rest);
    assert 'h' !in v + "]";
    assert v + "]" + rest == (v + "]") + rest;
    CapsSkip(v + "]", rest);
  }

  /** A height token drops its trailing `p` to give a plain numeral. */
  lemma HeightTokenDigits(q: string)
    requires q in HeightTokens
    ensures |q| > 1 && q[|q| - 1] == 'p' && AllDigits(q[..|q| - 1])
    ensures 'h' !in q[..|q| - 1] && ']' !in q[..|q| - 1]
  {
  }

  /** The fixed pieces of the height selector name no height. */
  lemma HeightPiecesWithoutCap()
    ensures 'h' !in "bestvideo" && 'h' !in "[ext=mp4]+bestaudio[ext=m4a]" && 'h' !in "+bestaudio"
    ensures 'h' !in "best" && 'h' !in "/" && 'h' !in ""
  {
  }

  /** Nor do they hold a `/`. */
  lemma HeightPiecesWithoutSlash()
    ensures '/' !in "bestvideo" && '/' !in "[ext=mp4]+bestaudio[ext=m4a]" && '/' !in "+bestaudio"
    ensures '/' !in "best" && '/' !in "[" && '/' !in CapKey && '/' !in "]"
  {
  }

  /** Nor do those of the `best` selector. */
  lemma BestPiecesWithoutCap()
    ensures 'h' !in "bestvideo[ext=mp4]" && 'h' !in "+bestaudio[ext=m4a]/bestvideo+bestaudio/best"
  {
  }

  /** A fixed piece, a height filter and a fixed piece, neither piece naming a height,
      contribute exactly the filter's value. */
  lemma CapsAround(p: string, v: string, q: string, rest: string)
    requires 'h' !in p && 'h' !in q && 'h' !in v && ']' !in v
    ensures Caps(p + (HeightFilter(v) + q) + rest) == [v] + Caps(rest)
  {
    assert p + (HeightFilter(v) + q) + rest == p + (HeightFilter(v) + (q + rest));
    CapsSkip(p, HeightFilter(v) + (q + rest));
    CapsFilter(v, q + rest);
    CapsSkip(q, rest);
  }

  /** Each alternative of a height selector carries the one cap `h`. */
  lemma HeightAlternativeCaps(h: string)
    requires AllDigits(h)
    ensures forall a :: a in HeightAlternatives(h) ==> Caps(a) == [h]
  {
    assert 'h' !in h && ']' !in h;
    HeightPiecesWithoutCap();
    var alts := HeightAlternatives(h);
    var f := HeightFilter(h);
    CapsAround("bestvideo", h, "[ext=mp4]+bestaudio[ext=m4a]", []);
    assert alts[0] + [] == alts[0];
    CapsAround("bestvideo", h, "+bestaudio", []);
    assert alts[1] + [] == alts[1];
    CapsAround("best", h, "", []);
    assert "best" + (f + "") + [] == alts[2];
  }

  /** The height selector spelled out: three alternatives joined by `/`. */
  lemma HeightSelectorJoined(h: string)
    ensures HeightSelector(h) ==
      HeightAlternatives(h)[0] + ("/" + (HeightAlternatives(h)[1] + ("/" + HeightAlternatives(h)[2])))
  {
    var alts := HeightAlternatives(h);
    assert alts[1..][1..] == [alts[2]];
    assert JoinAlternatives(alts[1..][1..]) == alts[2];
    assert JoinAlternatives(alts[1..]) == alts[1] + ("/" + alts[2]);
  }

  /** A height selector carries exactly three caps, each the requested height. */
  lemma HeightSelectorCaps(h: string)
    requires AllDigits(h)
    ensures Caps(HeightSelector(h)) == [h, h, h]
  {
    assert 'h' !in h && ']' !in h;
    HeightPiecesWithoutCap();
    var f := HeightFilter(h);
    var alts := HeightAlternatives(h);
    HeightSelectorJoined(h);
    var tail2 := "/" + alts[2];
    var tail1 := "/" + (alts[1] + tail2);
    CapsAround("bestvideo", h, "[ext=mp4]+bestaudio[ext=m4a]", tail1);
    CapsSkip("/", alts[1] + tail2);
    CapsAround("bestvideo", h, "+bestaudio", tail2);
    CapsSkip("/", alts[2]);
    CapsAround("best", h, "", []);
    assert "best" + (f + "") + [] == alts[2];
  }

  /** Splitting a joined selector on `/` gives back its alternatives, as long as none of
      them holds a `/` itself. */
  lemma {:induction false} AlternativesOfJoin(alts: seq<string>)
    requires alts != [] && forall a :: a in alts ==> '/' !in a
    ensures Alternatives(JoinAlternatives(alts)) == alts
  {
    AlternativesPrefix(alts[0], if |alts| == 1 then [] else "/" + JoinAlternatives(alts[1..]));
    if |alts| == 1 {
      assert alts[0] + [] == alts[0];
    } else {
      var j := JoinAlternatives(alts[1..]);
      assert ("/" + j)[1..] == j;
      AlternativesOfJoin(alts[1..]);
      assert Alternatives("/" + j) == [[]] + alts[1..];
      assert alts[0] + [] == alts[0];
    }
  }

  /** Text without `/` lengthens the first alternative and leaves the others alone. */
  lemma {:induction false} AlternativesPrefix(p: string, rest: string)
    requires '/' !in p
    ensures Alternatives(p + rest) == [p + Alternatives(rest)[0]] + Alternatives(rest)[1..]
  {
    if p == [] {
      var r := Alternatives(rest);
      assert p + rest == rest && p + r[0] == r[0];
      assert [r[0]] + r[1..] == r;
    } else {
      var s := p + rest;
      assert s[0] == p[0] && s[1..] == p[1..] + rest;
      assert '/' !in p[1..];
      AlternativesPrefix(p[1..], rest);
      assert [p[0]] + (p[1..] + Alternatives(rest)[0]) == p + Alternatives(rest)[0];
    }
  }

  /** Every alternative of a height selector is bounded by that height and by nothing
      else, so no alternative lets a taller video through. */
  lemma HeightAlternativesCapped(h: string)
    requires AllDigits(h)
    ensures Alternatives(HeightSelector(h)) == HeightAlternatives(h)
    ensures forall a :: a in Alternatives(HeightSelector(h)) ==> Caps(a) == [h]
  {
    HeightPiecesWithoutSlash();
    assert '/' !in h;
    var f := HeightFilter(h);
    assert '/' !in f;
    var alts := HeightAlternatives(h);
    assert '/' !in alts[0] && '/' !in alts[1] && '/' !in alts[2];
    AlternativesOfJoin(alts);
    HeightAlternativeCaps(h);
  }

  /** For a height token the only height bounds in the selector are the requested
      height, once in each of its three alternatives. */
  lemma HeightQualityCaps(quality: string)
    requires quality in HeightTokens
    ensures FormatSelector(quality, false) == HeightSelector(quality[..|quality| - 1])
    ensures Caps(FormatSelector(quality, false)) == [quality[..|quality| - 1], quality[..|quality| - 1], quality[..|quality| - 1]]
    ensures |Alternatives(FormatSelector(quality, false))| == 3
    ensures forall a :: a in Alternatives(FormatSelector(quality, false)) ==> Caps(a) == [quality[..|quality| - 1]]
    ensures quality[..|quality| - 1] + "p" == quality
  {
    HeightTokenDigits(quality);
    HeightSelectorCaps(quality[..|quality| - 1]);
    HeightAlternativesCapped(quality[..|quality| - 1]);
  }

  /** `720p` asks for video at most 720 lines high, in each of its three alternatives. */
  lemma Quality720Caps()
    ensures Caps(BuildOptions(None, "720p", false, None).format) == ["720", "720", "720"]
    ensures |Alternatives(BuildOptions(None, "720p", false, None).format)| == 3
    ensures forall a :: a in Alternatives(BuildOptions(None, "720p", false, None).format) ==> Caps(a) == ["720"]
  {
    assert "720p" in HeightTokens;
    assert "720p"[..3] == "720";
    HeightQualityCaps("720p");
  }

  /** `best` carries the single optional cap `?2160`. */
  lemma BestCaps()
    ensures Caps(FormatSelector("best", false)) == ["?2160"]
  {
    BestPiecesWithoutCap();
    var b := "+bestaudio[ext=m4a]/bestvideo+bestaudio/best";
    assert 'h' !in "?2160" && ']' !in "?2160";
    CapsSkip(b, []);
    assert b + [] == b;
    CapsFilter("?2160", b);
    CapsSkip("bestvideo[ext=mp4]", HeightFilter("?2160") + b);
  }

  /** Audio-only and `worst` selectors set no height bound at all. */
  lemma UncappedSelectors(quality: string)
    ensures Caps(FormatSelector(quality, true)) == []
    ensures Caps(FormatSelector("worst", false)) == []
  {
    assert 'h' !in AudioSelector && 'h' !in "worst";
    CapsSkip(AudioSelector, []);
    assert AudioSelector + [] == AudioSelector;
    CapsSkip("worst", []);
    assert "worst" + [] == "worst";
  }

}
