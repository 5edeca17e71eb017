# youtube_downloader, modelled in Dafny

The repository is a command-line wrapper around the `yt_dlp` extraction library. Three
scripts read a list of video URLs from a text file and download them one after another:

- `download_youtube_folder.py` is the full version. Its `YouTubeDownloader` class builds
  the `ydl_opts` record for each download from a quality and an audio-only flag. It puts
  the files of one batch in a fresh folder named after the list file and the time, and
  keeps statistics of successes and failures. It also has an interactive menu.
- `download_youtube_folder_working.py` makes the same kind of folder (with a slightly
  different time stamp) and dispatches every URL.
- `download_youtube.py` only dispatches every URL into the current directory.

This project models the deterministic logic around the library calls, in seven modules:

- `Wrappers`: `Option`, for Python's `None`, for a dictionary key that is absent, and for
  an operation that raises.
- `Text`: the string built-ins the scripts use. These are `str.strip`, `str.startswith`,
  `str.lower`, `str(n)` for a natural number, `int(s)`, and `os.path.join` with POSIX
  separators.
- `FormatOptions`: the options record of `download_video`. It covers the format selector
  for each quality, the output template, the audio switches and the merge-tool location.
  `Caps` lists every `height<=` bound written into a selector, and `Alternatives` splits a
  selector on `/` into the fallbacks the library tries in turn; together they state what a
  selector asks for.
- `UrlList`: the two URL filters. The first script drops raw lines that start with `#`.
  The other two keep every non-blank line.
- `Folders`: `get_unique_folder` as a `while` loop over a finite set of existing paths, and
  the dated folder name of each script.
- `Batch`: the statistics loop of the first script and the dispatch loops of the other two.
  Each download's answer is an input, one boolean per URL. This is sound because
  `download_video` catches every exception and returns `True` or `False`.
- `Menu`: the interactive quality menu (`int()` plus Python's negative indexing, with any
  error falling back to `best`) and the yes/no audio question.

Behaviour worth knowing:

- A comment is recognised only when the raw line starts with `#`, so an indented `# x` is
  kept as the URL `# x` (`UrlList.IndentedCommentKept`). The two older scripts keep
  comment lines altogether.
- The numbered folder is `base_k` for the smallest free `k >= 1`.
- `ffmpeg_location` is set when the discovered path is truthy, so an empty path counts as
  absent as well as `None`.
- `os.makedirs(..., exist_ok=True)` would accept an existing folder, but the folder chosen
  never exists (`Folders.UniqueFolder`).

## Model

| member | source | states |
|---|---|---|
| Text.IsSpace | download_youtube_folder.py:161 | exactly the characters of Python's `str.isspace`, which `str.strip()` removes; none of them is a digit, a sign or `#` |
| Text.Strip | download_youtube_folder.py:161 | `line.strip()`: whitespace dropped from both ends; the result is no longer than the line and neither of its ends is whitespace |
| Text.StripIsSlice | download_youtube_folder.py:161 | `line.strip()` is a contiguous slice of the line, and everything it drops on either side is whitespace |
| Text.StripEmptyIff | download_youtube_folder.py:161 | a line strips to the empty string exactly when all of its characters are whitespace |
| Text.StripIdempotent | download_youtube_folder.py:161 | stripping a stripped line changes nothing |
| Text.StripPadded | download_youtube_folder.py:297 | whitespace typed around a word is exactly what `.strip()` removes again |
| Text.StartsWith | download_youtube_folder.py:161 | `line.startswith(p)`: the line is at least as long as `p` and agrees with it at every position of `p` |
| Text.LowerChar | download_youtube_folder.py:304 | `str.lower` on one character: Latin and basic Cyrillic capitals become their small letters, and every other character is left as it is |
| Text.Lower | download_youtube_folder.py:304 | the model's lower-casing keeps the length and maps every character on its own |
| Text.Decimal | download_youtube_folder.py:144 | `str(counter)` is a non-empty string of digits with no leading zero |
| Text.DecimalValue | download_youtube_folder.py:144 | reading back the numeral `str(n)` gives `n` |
| Text.DecimalInjective | download_youtube_folder.py:144 | different counters are written differently |
| Text.ParseInt | download_youtube_folder.py:299 | `int(s)` on a string: surrounding whitespace, an optional sign, then digits with single underscores between them, at most 4300 digits (the default `sys.get_int_max_str_digits()`), and `None` where `int()` raises; a blank string is rejected |
| Text.ParseIntDigits | download_youtube_folder.py:299 | `int()` reads a numeral of at most 4300 digits, with or without a minus sign, as the number it denotes |
| Text.ParseIntTooLong | download_youtube_folder.py:299 | a numeral of more than 4300 digits, leading zeros counted, is refused with or without a minus sign |
| Text.ParseIntNeedsDigit | download_youtube_folder.py:299 | every string `int()` accepts contains a digit |
| Text.JoinPath | download_youtube_folder.py:89 | `os.path.join(d, name)` is `name` for an empty `d`; otherwise it starts with `d` and ends with a separator followed by `name` |
| FormatOptions.FormatSelector | download_youtube_folder.py:96-107 | the `format` entry: `bestaudio/best` in audio mode, else the fixed `best` selector, `worst`, the height selector for a height token without its `p`, or the quality itself; it is empty only when an empty quality passes through |
| FormatOptions.OutputTemplate | download_youtube_folder.py:89 | the output template always ends in the title template, lies inside the output folder when one is given, and is the bare template otherwise |
| FormatOptions.BuildOptions | download_youtube_folder.py:88-113 | `extractaudio` equals the audio-only flag; `audioformat` is `mp3` exactly in audio mode and `merge_output_format` is `mp4` exactly otherwise; `ffmpeg_location` is present exactly when the discovered path is truthy, and is then that path; `format` is the selector for the quality |
| FormatOptions.SelectorCases | download_youtube_folder.py:96-107 | audio-only yields `bestaudio/best` whatever the quality; `best` and `worst` yield their fixed selectors; a string outside the command-line choices passes through verbatim |
| FormatOptions.AudioIgnoresQuality | download_youtube_folder.py:96-97 | in audio mode two different qualities give identical options |
| FormatOptions.HeightTokenDigits | download_youtube_folder.py:103-104 | every height token is a numeral followed by `p`, so `quality[:-1]` is the height |
| FormatOptions.HeightAlternatives | download_youtube_folder.py:105 | the three alternatives of the f-string for a height, each a `best` stream with the height filter: the mp4/m4a pair, the pair, the single file |
| FormatOptions.HeightSelector | download_youtube_folder.py:105 | the f-string for a height: its three alternatives joined by `/`, opening with the bounded video stream |
| FormatOptions.HeightSelectorCaps | download_youtube_folder.py:105 | the height selector for `h` carries exactly three bounds, each `height<=h` |
| FormatOptions.AlternativesOfJoin | download_youtube_folder.py:105 | splitting a `/`-joined selector on `/` gives back its alternatives when none holds a `/` |
| FormatOptions.HeightAlternativesCapped | download_youtube_folder.py:105 | the height selector for `h` splits on `/` into exactly its three alternatives, and each carries the single bound `height<=h` |
| FormatOptions.HeightQualityCaps | download_youtube_folder.py:103-105 | for a height token the selector is the height selector for its numeral; its only bounds are that height, three times, and each of its three `/`-alternatives carries exactly that one bound, so no alternative allows a taller video |
| FormatOptions.Quality720Caps | download_youtube_folder.py:103-105 | `720p` has three `/`-alternatives, each bounded by `height<=720` and nothing else |
| FormatOptions.BestCaps | download_youtube_folder.py:99-100 | `best` carries the single optional bound `?2160` |
| FormatOptions.UncappedSelectors | download_youtube_folder.py:96-102 | the audio and `worst` selectors carry no height bound |
| UrlList.CommentFreeUrls | download_youtube_folder.py:161 | the comprehension of the first script: the stripped text of every line that is not blank and whose raw text does not start with `#`, in file order; never more URLs than lines, and none empty |
| UrlList.NonBlankUrls | download_youtube_folder_working.py:38 | the comprehension of the older scripts (`download_youtube.py` line 24 is the same): the stripped text of every non-blank line, in file order; never more URLs than lines, and none empty |
| UrlList.SingleLine | download_youtube_folder.py:161 | a single line yields its stripped text when kept, and nothing otherwise, under either filter |
| UrlList.CommentFreeUrlsAppend | download_youtube_folder.py:161 | the comment-skipping filter works line by line: order and duplicates are kept |
| UrlList.NonBlankUrlsAppend | download_youtube.py:24 | the plain filter works line by line: order and duplicates are kept |
| UrlList.CommentFreeUrlsMember | download_youtube_folder.py:161 | a URL is kept exactly when it is non-empty and some line not starting with `#` strips to it |
| UrlList.NonBlankUrlsMember | download_youtube_folder_working.py:38 | a URL is kept exactly when it is non-empty and some line strips to it |
| UrlList.UrlsStripped | download_youtube_folder.py:161 | every kept URL is non-empty and has no surrounding whitespace |
| UrlList.CommentFreeIsNonBlankOfNonComment | download_youtube_folder.py:161 | the comment-skipping filter is the plain filter applied to the lines that do not start with `#` |
| UrlList.CommentLineNotBlank | download_youtube_folder_working.py:38 | a `#` line is never blank, so the plain filter keeps it |
| UrlList.ExampleFileCommentFree | download_youtube_folder.py:161 | a URL, a blank line, a comment and a URL give exactly the two URLs |
| UrlList.ExampleFileNonBlank | download_youtube.py:24 | the same file gives three entries, the stripped comment in the middle |
| UrlList.IndentedCommentKept | download_youtube_folder.py:161 | a comment indented by whitespace is kept, as a URL starting with `#` |
| Folders.Candidate | download_youtube_folder.py:141-144 | the name tried at step `k`: `base` first, then `base_k`; it always starts with `base`, and is `base` itself exactly at step 0 |
| Folders.CandidateInjective | download_youtube_folder.py:144 | the candidates `base`, `base_1`, `base_2`, ... are pairwise different |
| Folders.UniqueFolder | download_youtube_folder.py:139-146 | the result does not exist, it is the first candidate that does not exist, and it is `base` itself when `base` does not exist; `download_youtube_folder_working.py` (lines 12-18) has the same loop |
| Folders.Stamp | download_youtube_folder.py:169 | `strftime("%y-%m-%d_%H-%M")`, with the separator before the time as a parameter (a space at `download_youtube_folder_working.py` line 44); fourteen characters, the separator at position 8 |
| Folders.Pad2 | download_youtube_folder.py:169 | each two-digit field of the stamp consists of two digits that denote the field's value |
| Folders.StampLayout | download_youtube_folder.py:169 | the stamp is 14 characters, with dashes at 2, 5 and 11, the separator at 8, and the year mod 100, month, day, hour and minute in the fields |
| Folders.StampsDifferOnlyInSeparator | download_youtube_folder_working.py:44 | the two scripts' stamps for one moment differ only at position 8, `_` against a space |
| Folders.DatedFolder | download_youtube_folder.py:168-170 | `Path(file_path).parent / f"{stem}_{date}"`: the name plus stamp is 15 characters longer than the stem, and the parent adds at most itself and one separator |
| Folders.DatedFolderShape | download_youtube_folder.py:168-170 | the dated folder lies in the list file's directory and is named stem, `_`, stamp |
| Folders.WorkingDatedFolder | download_youtube_folder_working.py:43-45 | `os.path.join(os.path.dirname(file_path), f"{base_name}_{date}")` with the space-separated stamp: 15 characters longer than the base name, plus at most the directory and one separator |
| Folders.WorkingDatedFolderShape | download_youtube_folder_working.py:43-45 | the working script's folder lies in the list file's directory and is named base name, `_`, stamp with a space before the time |
| Batch.TallyBalance | download_youtube_folder.py:184-194 | successes plus failed URLs add up to the number of URLs |
| Batch.FailedUrlsMember | download_youtube_folder.py:191-193 | a URL is listed as failed exactly when one of its downloads failed |
| Batch.NoFailures | download_youtube_folder.py:188-193 | no URL is listed as failed exactly when every download succeeded |
| Batch.RunBatch | download_youtube_folder.py:181-194 | after the loop `total` is the number of URLs, `success` the number of successes, `error_urls` the failed URLs in order, `errors` their number, and `success + errors == total`; every URL is downloaded once, in order, whatever the earlier outcomes, with the one options record built from the folder, the quality, the audio flag and the merge tool |
| Batch.DownloadFromFile | download_youtube_folder.py:148-219 | a missing or unreadable file, an empty list, or a failing `makedirs` returns all-zero stats with no folder and no download; otherwise the folder is the first free candidate of the dated name, the stats are those of the loop, and every kept URL is downloaded with the options for that folder |
| Batch.Dispatch | download_youtube_folder_working.py:50-52 | each URL is passed to `download_video` exactly once, in order, with the same folder, and no failure stops the loop; `download_youtube.py` (lines 29-31) has the same loop with no folder |
| Batch.DownloadFromFileWorking | download_youtube_folder_working.py:35-56 | nothing is created or downloaded for an unreadable file, an empty list or a failing `makedirs`; otherwise every non-blank line, comments included, is downloaded into the first free candidate of the dated name |
| Batch.DownloadFromFileSimple | download_youtube.py:21-35 | nothing is downloaded for an unreadable file; otherwise every non-blank line is downloaded in order, with no folder |
| Menu.PyIndex | download_youtube_folder.py:299 | Python indexing succeeds exactly for `-len <= i < len`, counting negative indices from the end |
| Menu.Pick | download_youtube_folder.py:299-301 | the entry chosen for an integer is always one of the six; `1..6` pick that entry, `-5..0` count from the end, and anything else gives `best` |
| Menu.MenuQuality | download_youtube_folder.py:297-301 | every answer selects one of the six menu entries |
| Menu.MenuReadsInt | download_youtube_folder.py:299 | an answer that `int()` reads as `n` selects what `qualities[n - 1]` gives |
| Menu.MenuNumber | download_youtube_folder.py:293-299 | typing the number `k` of an entry, in at most 4300 digits, selects that entry |
| Menu.MenuZero | download_youtube_folder.py:299 | `0`, in at most 4300 digits, reaches index -1 and selects `worst` |
| Menu.MenuNegative | download_youtube_folder.py:299-301 | `-k`, with `k` in at most 4300 digits, selects entry `5 - k` for `k <= 5`, and `best` from `-6` on |
| Menu.MenuTooLong | download_youtube_folder.py:298-301 | a numeral of more than 4300 digits, signed or not, is a `ValueError` and selects `best`, even when it denotes a menu number |
| Menu.MenuPadded | download_youtube_folder.py:297 | spaces around the answer make no difference |
| Menu.MenuNotANumber | download_youtube_folder.py:298-301 | an answer that is not an integer selects `best` |
| Menu.MenuOutOfRange | download_youtube_folder.py:298-301 | an integer above 6 or below -5 selects `best` |
| Menu.MenuBlank | download_youtube_folder.py:297-299 | an empty or blank answer takes the default `best` |
| Menu.PickBestIff | download_youtube_folder.py:299-301 | `qualities[n - 1]` with the `IndexError` fallback differs from `best` exactly for `n` in `2..6` and `-4..0` |
| Menu.MenuBestIff | download_youtube_folder.py:297-301 | the selection differs from `best` exactly for the integers `2..6` and `-4..0` |
| Menu.MenuQualityIsChoice | download_youtube_folder.py:239 | every menu selection is one of the qualities the command line accepts |
| Menu.AudioAnswer | download_youtube_folder.py:304-305 | `audio_choice.strip().lower() in ['y', 'yes', 'да']`; only a non-blank answer can mean yes |
| Menu.AudioBlankIsNo | download_youtube_folder.py:304-305 | a blank answer means no |
| Menu.AudioYesIsShort | download_youtube_folder.py:304-305 | a yes answer has one to three characters once stripped |
| Menu.AudioPadded | download_youtube_folder.py:304-305 | spaces around the audio answer make no difference |
| Menu.AudioUpperCaseYes | download_youtube_folder.py:304-305 | `Y`, `YES` and `Yes` mean yes |
| Menu.AudioCyrillicYes | download_youtube_folder.py:304-305 | `ДА` and `Да` mean yes |
| Menu.AudioNo | download_youtube_folder.py:304-305 | `n`, `no` and `нет` mean no |

## Left out

- The `yt_dlp` calls (`YoutubeDL`, `extract_info`, `download`) and `get_video_info` are out of scope. A download is a `Batch.Download` or `Batch.Call` record plus an outcome supplied from outside.
- `_progress_hook` is left out: it does floating-point percentages and console output.
- The title, author and duration printing in `download_video` is left out: it is output only, and the library may report durations as floats.
- `_find_ffmpeg` is left out: it probes `PATH` and fixed Windows locations. The path it finds is the `ffmpegPath` parameter of `FormatOptions.BuildOptions`.
- `progress_hooks` in the options record is left out: it only points at the progress hook.
- The `download_video` of the two older scripts is left out beyond the call itself. Its format, its `mp4` merge and its Windows merge-tool path are constants; its output template follows the folder carried in `Batch.Call` (`download_youtube_folder_working.py` line 24), or is the bare title template in `download_youtube.py`.
- `datetime.now()` is the `now` parameter. The model does not check that the day exists in its month, and the year is printed modulo 100 as `%y` does.
- `Path(file_path).stem` and `.parent`, and `os.path.basename`, `splitext` and `dirname`, are parameters. The current directory is the empty string, as `Path('.') / name` prints.
- `os.path.exists` is membership in a finite set of existing paths.
- Of `os.makedirs`, only whether it succeeds is modelled.
- `time.sleep(2)` between downloads, `print`, `input`, `argparse`, the existence check in `main`, the final "press Enter" prompt and `KeyboardInterrupt` are left out: they are pacing and user interface only.
- The second menu in `main` (`download_youtube_folder.py:315-329`) is the same code as the first, and `Menu` models both.
- `download_youtube1.py` is left out: it reads one URL and makes one library call with fixed options.
- Text.ParseInt: reads ASCII digits only. Python's `int()` also accepts the other Unicode decimal digits. It also drops the separators U+001C to U+001F at either end, which `int()` refuses; the menu strips the answer first, so that clause does not reach it.
- Text.Lower: Python's `.lower()` can lengthen a string (`'İ'.lower()` has two code points); the model's lower-casing never does, which makes no difference for the yes answers.
- Text.Decimal: `str(n)` also refuses more than 4300 digits; a folder counter never gets there.
- Menu.MenuQuality: an answer in non-ASCII decimal digits, such as `３` (U+FF13), is read by `int()` and selects its entry, but the model selects `best`; `Menu.MenuNotANumber` and `Menu.MenuBestIff` inherit this.
- Text.LowerChar: lowers only the Latin and basic Cyrillic capitals. Every other character is left as it is.
- Text.JoinPath: joins with POSIX separators only. It does not model an absolute second component or Windows drive letters.
- Reading the file is modelled as a `Batch.ListFile`: missing, unreadable, or its lines. Text decoding and newline translation are left to that step.
