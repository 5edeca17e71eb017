/** The interactive questions of `main` in `download_youtube_folder.py`: the quality menu,
    answered with a number, and the yes/no audio question. Both take the line the user
    typed, before `.strip()`. */
module Menu {

  import opened Wrappers
  import opened Text
  import FormatOptions

  /** The menu, numbered from 1. */
  const Qualities: seq<string> := ["best", "1080p", "720p", "480p", "360p", "worst"]

  /** The answers that mean yes. */
  const YesAnswers: seq<string> := ["y", "yes", "да"]

  /** Python's `s[i]` for an integer `i`: negative indices count from the end, and
      `None` stands for `IndexError`. */
  function PyIndex<T>(s: seq<T>, i: int): (r: Option<T>)
    ensures r.Some? <==> -|s| <= i < |s|
    ensures 0 <= i < |s| ==> r == Some(s[i])
    ensures -|s| <= i < 0 ==> r == Some(s[|s| + i])
  {
    if 0 <= i < |s| then Some(s[i])
    else if -|s| <= i < 0 then Some(s[|s| + i])
    else None
  }

  /** `qualities[n - 1]`, with `IndexError` falling back to `'best'`. */
  function Pick(n: int): (q: string)
    ensures q in Qualities
    ensures 1 <= n <= |Qualities| ==> q == Qualities[n - 1]
    ensures -|Qualities| < n <= 0 ==> q == Qualities[|Qualities| + n - 1]
    ensures n > |Qualities| || n <= -|Qualities| ==> q == "best"
  {
    match PyIndex(Qualities, n - 1)
    case None => "best"
    case Some(q) => q
  }

  /** `qualities[int(q_choice) - 1] if q_choice else 'best'`, with `ValueError` and
      `IndexError` both falling back to `'best'`. */
  function MenuQuality(answer: string): (q: string)
    ensures q in Qualities
  {
    var choice := Strip(answer);
    if choice == [] then "best"
    else match ParseInt(choice)
      case None => "best"
      case Some(n) => Pick(n)
  }

  /** An answer that `int()` reads as `n` selects entry `n` of the menu, Python style. */
  lemma MenuReadsInt(answer: string, n: int)
    requires ParseInt(Strip(answer)) == Some(n)
    ensures MenuQuality(answer) == Pick(n)
  {
  }

  /** Typing the number `k` of an entry selects that entry. */
  lemma MenuNumber(d: string)
    requires |d| > 0 && AllDigits(d) && |d| <= MaxStrDigits && 1 <= DigitsValue(d) <= |Qualities|
    ensures MenuQuality(d) == Qualities[DigitsValue(d) - 1]
  {
    var n := DigitsValue(d) as int;
    ParseIntDigits(d);
    StripDigits(d);
    assert ParseInt(Strip(d)) == Some(n);
    MenuReadsInt(d, n);
    assert Pick(n) == Qualities[n - 1];
  }

  /** `0` reaches index -1: the last entry, `worst`. */
  lemma MenuZero(d: string)
    requires |d| > 0 && AllDigits(d) && |d| <= MaxStrDigits && DigitsValue(d) == 0
    ensures MenuQuality(d) == "worst"
  {
    StripDigits(d);
    ParseIntDigits(d);
    MenuReadsInt(d, 0);
  }

  /** `-k` reaches index `-k-1`, counted from the end, while that is inside the menu; from
      `-6` on it is out of range and gives `best`. */
  lemma MenuNegative(d: string)
    requires |d| > 0 && AllDigits(d) && |d| <= MaxStrDigits
    ensures DigitsValue(d) <= 5 ==> MenuQuality("-" + d) == Qualities[5 - DigitsValue(d)]
    ensures DigitsValue(d) >= 6 ==> MenuQuality("-" + d) == "best"
  {
    StripNegativeDigits(d);
    ParseIntDigits(d);
    MenuReadsInt("-" + d, -(DigitsValue(d) as int));
  }

  /** A numeral longer than `int()` accepts, even `0` padded with zeros, selects `best`. */
  lemma MenuTooLong(d: string)
    requires AllDigits(d) && |d| > MaxStrDigits
    ensures MenuQuality(d) == "best" && MenuQuality("-" + d) == "best"
  {
    ParseIntTooLong(d);
    StripDigits(d);
    StripNegativeDigits(d);
  }

  /** Spaces around the answer make no difference. */
  lemma MenuPadded(w1: string, a: string, w2: string)
    requires AllSpace(w1) && AllSpace(w2)
    requires a != [] && !IsSpace(a[0]) && !IsSpace(a[|a| - 1])
    ensures MenuQuality(w1 + a + w2) == MenuQuality(a)
  {
    StripPadded(w1, a, w2);
    StripUnchanged(a);
  }

  /** Anything that is not an integer, blank input included, selects `best`. */
  lemma MenuNotANumber(answer: string)
    requires ParseInt(Strip(answer)).None?
    ensures MenuQuality(answer) == "best"
  {
  }

  /** An integer outside `-5..6` is an `IndexError` and selects `best`. */
  lemma MenuOutOfRange(answer: string)
    requires ParseInt(Strip(answer)).Some?
    requires ParseInt(Strip(answer)).value > 6 || ParseInt(Strip(answer)).value < -5
    ensures MenuQuality(answer) == "best"
  {
  }

  /** An empty or all-blank answer takes the default, `best`. */
  lemma MenuBlank(answer: string)
    requires AllSpace(answer)
    ensures MenuQuality(answer) == "best"
  {
    StripEmptyIff(answer);
  }

  /** Exactly the integers `2..6` and `-4..0` select something other than `best`. */
  lemma MenuBestIff(answer: string)
    ensures MenuQuality(answer) != "best" <==>
      ParseInt(Strip(answer)).Some? &&
      (2 <= ParseInt(Strip(answer)).value <= 6 || -4 <= ParseInt(Strip(answer)).value <= 0)
  {
    match ParseInt(Strip(answer))
    case None =>
      MenuNotANumber(answer);
    case Some(n) =>
      MenuReadsInt(answer, n);
      PickBestIff(n);
  }

  /** Exactly the indices `2..6` and `-4..0` pick an entry other than `best`. */
  lemma PickBestIff(n: int)
    ensures Pick(n) != "best" <==> 2 <= n <= 6 || -4 <= n <= 0
  {
    assert forall k :: 1 <= k < |Qualities| ==> Qualities[k] != "best";
  }

  /** Every menu entry is a quality the command line accepts. */
  lemma MenuQualityIsChoice(answer: string)
    ensures MenuQuality(answer) in FormatOptions.Choices
  {
  }

  /** `audio_choice.strip().lower() in ['y', 'yes', 'да']`. */
  predicate AudioAnswer(answer: string): (yes: bool)
    ensures yes ==> Strip(answer) != []
  {
    Lower(Strip(answer)) in YesAnswers
  }

  /** The default is no: a blank answer does not ask for audio only. */
  lemma AudioBlankIsNo(answer: string)
    requires AllSpace(answer)
    ensures !AudioAnswer(answer)
  {
    StripEmptyIff(answer);
  }

  /** Only answers of one to three visible characters can mean yes. */
  lemma AudioYesIsShort(answer: string)
    requires AudioAnswer(answer)
    ensures 1 <= |Strip(answer)| <= 3
  {
    assert |Lower(Strip(answer))| == |Strip(answer)|;
  }

  /** Spaces around an answer make no difference. */
  lemma AudioPadded(w1: string, a: string, w2: string)
    requires AllSpace(w1) && AllSpace(w2)
    requires a != [] && !IsSpace(a[0]) && !IsSpace(a[|a| - 1])
    ensures AudioAnswer(w1 + a + w2) == AudioAnswer(a)
  {
    StripPadded(w1, a, w2);
    StripUnchanged(a);
  }

  /** Upper-case forms count as yes. */
  lemma AudioUpperCaseYes()
    ensures AudioAnswer("Y") && AudioAnswer("YES") && AudioAnswer("Yes")
  {
    StripUnchanged("Y");
    StripUnchanged("YES");
    StripUnchanged("Yes");
    assert Lower("Y") == "y";
    assert Lower("YES") == "yes";
    assert Lower("Yes") == "yes";
  }

  /** So do the Cyrillic capitals of `да`. */
  lemma AudioCyrillicYes()
    ensures AudioAnswer("ДА") && AudioAnswer("Да")
  {
    StripUnchanged("ДА");
    StripUnchanged("Да");
    assert Lower("ДА") == "да";
    assert Lower("Да") == "да";
  }

  /** `n`, `no` and `нет` are no. */
  lemma AudioNo()
    ensures !AudioAnswer("n") && !AudioAnswer("no") && !AudioAnswer("нет")
  {
    StripUnchanged("n");
    StripUnchanged("no");
    StripUnchanged("нет");
  }

}
