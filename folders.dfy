/** Naming the output folder of a batch: the dated base name next to the URL list
    file, and `get_unique_folder`, which numbers it until it names nothing that exists.
    The file system is the finite set of paths that exist. */
module Folders {

  import opened Text

  /** The `k`-th name `get_unique_folder` tries: `base`, then `base_1`, `base_2`, ... */
  function Candidate(base: string, k: nat): (r: string)
    ensures StartsWith(r, base)
    ensures k == 0 <==> |r| == |base|
  {
    if k == 0 then base else base + "_" + Decimal(k)
  }

  /** Different counters give different names, so the search never retries a name. */
  lemma CandidateInjective(base: string, i: nat, j: nat)
    requires Candidate(base, i) == Candidate(base, j)
    ensures i == j
  {
    if i != 0 && j != 0 {
      var ci, cj := Candidate(base, i), Candidate(base, j);
      assert Decimal(i) == ci[|base| + 1..];
      assert Decimal(j) == cj[|base| + 1..];
      DecimalInjective(i, j);
    }
  }

  /** `folder` is the first of `base`, `base_1`, `base_2`, ... that does not exist. */
  ghost predicate IsFirstFree(base: string, existing: set<string>, folder: string)
  {
    folder !in existing &&
    exists k: nat :: folder == Candidate(base, k) && forall j: nat :: j < k ==> Candidate(base, j) in existing
  }

  /** `get_unique_folder(base_folder)`, the same in `download_youtube_folder.py` and
      `download_youtube_folder_working.py`. */
  method UniqueFolder(base: string, existing: set<string>) returns (folder: string)
    ensures folder !in existing
    ensures IsFirstFree(base, existing, folder)
    ensures base !in existing ==> folder == base
  {
    folder := base;
    var counter: nat := 1;
    ghost var tried: set<string> := {};
    while folder in existing
      invariant folder == Candidate(base, counter - 1)
      invariant forall j: nat :: j < counter - 1 ==> Candidate(base, j) in existing
      invariant tried <= existing
      invariant forall x :: x in tried ==> exists j: nat :: j < counter - 1 && x == Candidate(base, j)
      decreases existing - tried
    {
      assert folder !in tried by {
        if folder in tried {
          var j: nat :| j < counter - 1 && folder == Candidate(base, j);
          CandidateInjective(base, j, counter - 1);
        }
      }
      tried := tried + {folder};
      folder := base + "_" + Decimal(counter);
      counter := counter + 1;
    }
    assert folder == Candidate(base, counter - 1);
  }

  /** A wall-clock reading, as `datetime.now()` gives it. */
  datatype DateTime = DateTime(year: nat, month: nat, day: nat, hour: nat, minute: nat)
  {
    predicate Valid()
    {
      1 <= year <= 9999 && 1 <= month <= 12 && 1 <= day <= 31 && hour < 24 && minute < 60
    }
  }

  /** A two-digit field of `strftime` (`%y`, `%m`, `%d`, `%H`, `%M`). */
  function Pad2(n: nat): (r: string)
    requires n < 100
    ensures |r| == 2 && AllDigits(r) && DigitsValue(r) == n
  {
    var hi, lo := DigitChar(n / 10), DigitChar(n % 10);
    var r := [hi, lo];
    assert r[..1] == [hi] && [hi][..0] == [];
    assert DigitsValue([hi]) == n / 10;
    assert DigitsValue(r) == DigitsValue([hi]) * 10 + DigitValue(lo);
    r
  }

  /** `strftime("%y-%m-%d" + sep + "%H-%M")`. */
  function Stamp(t: DateTime, sep: char): (r: string)
    requires t.Valid()
    ensures |r| == 14 && r[8] == sep
  {
    Pad2(t.year % 100) + "-" + Pad2(t.month) + "-" + Pad2(t.day) + [sep] + Pad2(t.hour) + "-" + Pad2(t.minute)
  }

  /** The stamp has a fixed layout: fourteen characters, dashes at 2, 5 and 11, the
      separator at 8, two-digit fields everywhere else. */
  lemma StampLayout(t: DateTime, sep: char)
    requires t.Valid()
    ensures |Stamp(t, sep)| == 14
    ensures Stamp(t, sep)[2] == '-' && Stamp(t, sep)[5] == '-' && Stamp(t, sep)[8] == sep && Stamp(t, sep)[11] == '-'
    ensures DigitsValue(Stamp(t, sep)[0..2]) == t.year % 100 && DigitsValue(Stamp(t, sep)[3..5]) == t.month
    ensures DigitsValue(Stamp(t, sep)[6..8]) == t.day && DigitsValue(Stamp(t, sep)[9..11]) == t.hour
    ensures DigitsValue(Stamp(t, sep)[12..14]) == t.minute
  {
    var s := Stamp(t, sep);
    assert s[0..2] == Pad2(t.year % 100);
    assert s[3..5] == Pad2(t.month);
    assert s[6..8] == Pad2(t.day);
    assert s[9..11] == Pad2(t.hour);
    assert s[12..14] == Pad2(t.minute);
  }

  /** The two scripts' stamps for the same moment differ only at the separator:
      `_` in `download_youtube_folder.py`, a space in `download_youtube_folder_working.py`. */
  lemma StampsDifferOnlyInSeparator(t: DateTime)
    requires t.Valid()
    ensures |Stamp(t, '_')| == |Stamp(t, ' ')| == 14
    ensures forall k :: 0 <= k < 14 && k != 8 ==> Stamp(t, '_')[k] == Stamp(t, ' ')[k]
    ensures Stamp(t, '_')[8] == '_' && Stamp(t, ' ')[8] == ' '
  {
    StampLayout(t, '_');
    StampLayout(t, ' ');
  }

  /** `Path(file_path).parent / f"{stem}_{date}"` in `download_youtube_folder.py`; the
      current directory is written `""`. */
  function DatedFolder(parent: string, stem: string, now: DateTime): (r: string)
    requires now.Valid()
    ensures |stem| + 15 <= |r| <= |parent| + |stem| + 16
  {
    JoinPath(parent, stem + "_" + Stamp(now, '_'))
  }

  /** `os.path.join(os.path.dirname(file_path), f"{base_name}_{date}")` in
      `download_youtube_folder_working.py`. */
  function WorkingDatedFolder(dirname: string, baseName: string, now: DateTime): (r: string)
    requires now.Valid()
    ensures |baseName| + 15 <= |r| <= |dirname| + |baseName| + 16
  {
    JoinPath(dirname, baseName + "_" + Stamp(now, ' '))
  }

  /** The dated folder lies in the list file's directory and its name is the stem, an
      underscore and the stamp. */
  lemma DatedFolderShape(parent: string, stem: string, now: DateTime)
    requires now.Valid()
    ensures parent != [] ==> StartsWith(DatedFolder(parent, stem, now), parent)
    ensures parent == [] ==> DatedFolder(parent, stem, now) == stem + "_" + Stamp(now, '_')
    ensures parent != [] ==>
      DatedFolder(parent, stem, now)[|DatedFolder(parent, stem, now)| - |stem| - 15..] == stem + "_" + Stamp(now, '_')
  {
    StampLayout(now, '_');
  }

  /** The working script's folder lies in the list file's directory and its name is the
      file name without extension, an underscore and the stamp with a space before the
      time. */
  lemma WorkingDatedFolderShape(dirname: string, baseName: string, now: DateTime)
    requires now.Valid()
    ensures dirname != [] ==> StartsWith(WorkingDatedFolder(dirname, baseName, now), dirname)
    ensures dirname == [] ==> WorkingDatedFolder(dirname, baseName, now) == baseName + "_" + Stamp(now, ' ')
    ensures dirname != [] ==>
      WorkingDatedFolder(dirname, baseName, now)[|WorkingDatedFolder(dirname, baseName, now)| - |baseName| - 15..] ==
      baseName + "_" + Stamp(now, ' ')
  {
    StampLayout(now, ' ');
  }

}
