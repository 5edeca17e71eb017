/** Reading the list of URLs out of the lines of a text file. `download_youtube_folder.py`
    keeps the stripped non-blank lines whose raw text does not start with `#`;
    `download_youtube_folder_working.py` and `download_youtube.py` keep every stripped
    non-blank line, comments included. */
module UrlList {

  import opened Text

  /** The test `line.strip() and not line.startswith('#')`: note that it looks for `#` in the
      raw line, so an indented `#` line is kept. */
  predicate KeepsLine(line: string)
  {
    Strip(line) != [] && !StartsWith(line, "#")
  }

  /** A line that the comment-skipping filter turns into the URL `x`. */
  predicate YieldsUrl(line: string, x: string)
  {
    !StartsWith(line, "#") && Strip(line) == x
  }

  /** What the comment-skipping filter takes from one line. */
  function CommentFreeLine(line: string): (r: seq<string>)
  {
    if KeepsLine(line) then [Strip(line)] else []
  }

  /** What the plain filter takes from one line. */
  function NonBlankLine(line: string): (r: seq<string>)
  {
    if Strip(line) != [] then [Strip(line)] else []
  }

  /** `[line.strip() for line in file if line.strip() and not line.startswith('#')]`. */
  function CommentFreeUrls(lines: seq<string>): (r: seq<string>)
    ensures |r| <= |lines|
    ensures forall k :: 0 <= k < |r| ==> r[k] != []
  {
    if lines == [] then [] else CommentFreeLine(lines[0]) + CommentFreeUrls(lines[1..])
  }

  /** `[line.strip() for line in file if line.strip()]`. */
  function NonBlankUrls(lines: seq<string>): (r: seq<string>)
    ensures |r| <= |lines|
    ensures forall k :: 0 <= k < |r| ==> r[k] != []
  {
    if lines == [] then [] else NonBlankLine(lines[0]) + NonBlankUrls(lines[1..])
  }

  /** The lines whose raw text does not start with `#`, in order. */
  function NonCommentLines(lines: seq<string>): (r: seq<string>)
  {
    if lines == [] then []
    else (if StartsWith(lines[0], "#") then [] else [lines[0]]) + NonCommentLines(lines[1..])
  }

  /** Reading the two halves of a file separately gives the two halves of the list:
      order and duplicates are kept, line by line. */
  lemma {:induction false} NonBlankUrlsAppend(a: seq<string>, b: seq<string>)
    ensures NonBlankUrls(a + b) == NonBlankUrls(a) + NonBlankUrls(b)
  {
    if a == [] {
      assert a + b == b;
    } else {
      assert (a + b)[0] == a[0];
      assert (a + b)[1..] == a[1..] + b;
      NonBlankUrlsAppend(a[1..], b);
      assert NonBlankUrls(a + b) == NonBlankLine(a[0]) + (NonBlankUrls(a[1..]) + NonBlankUrls(b));
    }
  }

  /** The same for the comment-skipping filter. */
  lemma {:induction false} CommentFreeUrlsAppend(a: seq<string>, b: seq<string>)
    ensures CommentFreeUrls(a + b) == CommentFreeUrls(a) + CommentFreeUrls(b)
  {
    if a == [] {
      assert a + b == b;
    } else {
      assert (a + b)[0] == a[0];
      assert (a + b)[1..] == a[1..] + b;
      CommentFreeUrlsAppend(a[1..], b);
      assert CommentFreeUrls(a + b) == CommentFreeLine(a[0]) + (CommentFreeUrls(a[1..]) + CommentFreeUrls(b));
    }
  }

  /** One line on its own yields its stripped text when kept and nothing otherwise. */
  lemma SingleLine(line: string)
    ensures NonBlankUrls([line]) == if Strip(line) != [] then [Strip(line)] else []
    ensures CommentFreeUrls([line]) == if KeepsLine(line) then [Strip(line)] else []
  {
    assert [line][1..] == [];
  }

  /** A URL is in the non-blank list exactly when some line strips to it. */
  lemma {:induction false} NonBlankUrlsMember(lines: seq<string>, x: string)
    ensures x in NonBlankUrls(lines) <==> x != [] && exists i :: 0 <= i < |lines| && Strip(lines[i]) == x
  {
    if lines != [] {
      NonBlankUrlsMember(lines[1..], x);
      if exists i :: 0 <= i < |lines| && Strip(lines[i]) == x {
        var i :| 0 <= i < |lines| && Strip(lines[i]) == x;
        if i > 0 { assert lines[1..][i - 1] == lines[i]; }
      }
      if exists i :: 0 <= i < |lines[1..]| && Strip(lines[1..][i]) == x {
        var i :| 0 <= i < |lines[1..]| && Strip(lines[1..][i]) == x;
        assert lines[i + 1] == lines[1..][i];
      }
    }
  }

  /** A URL is in the comment-free list exactly when some line that does not start
      with `#` strips to it. */
  lemma {:induction false} CommentFreeUrlsMember(lines: seq<string>, x: string)
    ensures x in CommentFreeUrls(lines) <==> x != [] && exists i :: 0 <= i < |lines| && YieldsUrl(lines[i], x)
  {
    if lines != [] {
      CommentFreeUrlsMember(lines[1..], x);
      if exists i :: 0 <= i < |lines| && YieldsUrl(lines[i], x) {
        var i :| 0 <= i < |lines| && YieldsUrl(lines[i], x);
        if i > 0 { assert lines[1..][i - 1] == lines[i]; }
      }
      if exists i :: 0 <= i < |lines[1..]| && YieldsUrl(lines[1..][i], x) {
        var i :| 0 <= i < |lines[1..]| && YieldsUrl(lines[1..][i], x);
        assert lines[i + 1] == lines[1..][i];
      }
    }
  }

  /** Every URL either filter produces is non-empty and already stripped. */
  lemma {:induction false} UrlsStripped(lines: seq<string>)
    ensures forall k :: 0 <= k < |NonBlankUrls(lines)| ==>
      NonBlankUrls(lines)[k] != [] && Strip(NonBlankUrls(lines)[k]) == NonBlankUrls(lines)[k]
    ensures forall k :: 0 <= k < |CommentFreeUrls(lines)| ==>
      CommentFreeUrls(lines)[k] != [] && Strip(CommentFreeUrls(lines)[k]) == CommentFreeUrls(lines)[k]
  {
    if lines != [] {
      UrlsStripped(lines[1..]);
      StripIdempotent(lines[0]);
    }
  }

  /** The comment-skipping filter is the plain filter applied after dropping the lines
      that start with `#`. */
  lemma {:induction false} CommentFreeIsNonBlankOfNonComment(lines: seq<string>)
    ensures CommentFreeUrls(lines) == NonBlankUrls(NonCommentLines(lines))
  {
    if lines != [] {
      CommentFreeIsNonBlankOfNonComment(lines[1..]);
      var head := if StartsWith(lines[0], "#") then [] else [lines[0]];
      assert NonCommentLines(lines) == head + NonCommentLines(lines[1..]);
      NonBlankUrlsAppend(head, NonCommentLines(lines[1..]));
      SingleLine(lines[0]);
      assert NonBlankUrls([]) == [];
    }
  }

  /** A line starting with `#` is never blank. */
  lemma CommentLineNotBlank(line: string)
    requires StartsWith(line, "#")
    ensures Strip(line) != []
  {
    StripEmptyIff(line);
    assert line[0] == '#';
  }

  /** A file holding a URL, a blank line, a comment and a second URL yields the two URLs
      in the first script. */
  lemma ExampleFileCommentFree(u1: string, blank: string, comment: string, u2: string)
    requires Strip(u1) == u1 && u1 != [] && !StartsWith(u1, "#")
    requires Strip(u2) == u2 && u2 != [] && !StartsWith(u2, "#")
    requires AllSpace(blank)
    requires StartsWith(comment, "#")
    ensures CommentFreeUrls([u1, blank, comment, u2]) == [u1, u2]
  {
    StripEmptyIff(blank);
    assert CommentFreeLine(blank) == [] && CommentFreeLine(comment) == [];
    assert [u2][1..] == [] && [comment, u2][1..] == [u2];
    assert [blank, comment, u2][1..] == [comment, u2];
    assert [u1, blank, comment, u2][1..] == [blank, comment, u2];
    assert CommentFreeUrls([u2]) == [u2];
    assert CommentFreeUrls([comment, u2]) == [u2];
    assert CommentFreeUrls([blank, comment, u2]) == [u2];
  }

  /** The same file yields the comment as a third entry in the other two scripts. */
  lemma ExampleFileNonBlank(u1: string, blank: string, comment: string, u2: string)
    requires Strip(u1) == u1 && u1 != []
    requires Strip(u2) == u2 && u2 != []
    requires AllSpace(blank)
    requires StartsWith(comment, "#")
    ensures NonBlankUrls([u1, blank, comment, u2]) == [u1, Strip(comment), u2]
  {
    StripEmptyIff(blank);
    CommentLineNotBlank(comment);
    assert NonBlankLine(blank) == [] && NonBlankLine(comment) == [Strip(comment)];
    assert [u2][1..] == [] && [comment, u2][1..] == [u2];
    assert [blank, comment, u2][1..] == [comment, u2];
    assert [u1, blank, comment, u2][1..] == [blank, comment, u2];
    assert NonBlankUrls([u2]) == [u2];
    assert NonBlankUrls([comment, u2]) == [Strip(comment), u2];
    assert NonBlankUrls([blank, comment, u2]) == [Strip(comment), u2];
  }

  /** A slice with a non-space first character, with only whitespace before it, of a
      line that is an indent followed by a non-space character starts right after the
      indent. */
  lemma SliceAfterIndent(indent: string, rest: string, i: nat, r: string)
    requires AllSpace(indent) && rest != [] && !IsSpace(rest[0])
    requires r != [] && !IsSpace(r[0])
    requires SliceWithin(indent + rest, i, r)
    ensures i == |indent|
  {
    var line := indent + rest;
    assert line[|indent|] == rest[0] && line[i] == r[0];
    assert forall k :: 0 <= k < |indent| ==> line[k] == indent[k];
    assert forall k :: 0 <= k < i ==> IsSpace(line[k]) by {
      forall k | 0 <= k < i ensures IsSpace(line[k]) { assert line[..i][k] == line[k]; }
    }
  }

  /** A comment indented by whitespace is not recognised: the first script keeps it as a
      URL that starts with `#`. */
  lemma IndentedCommentKept(indent: string, comment: string)
    requires indent != [] && AllSpace(indent)
    requires StartsWith(comment, "#")
    ensures CommentFreeUrls([indent + comment]) == [Strip(indent + comment)]
    ensures |Strip(indent + comment)| > 0 && Strip(indent + comment)[0] == '#'
  {
    var line := indent + comment;
    assert comment[0] == '#';
    assert !StartsWith(line, "#") by { assert line[0] == indent[0]; }
    var i := StripIsSlice(line);
    var r := Strip(line);
    assert r != [] by {
      StripEmptyIff(line);
      assert line[|indent|] == '#';
    }
    SliceAfterIndent(indent, comment, i, r);
    assert r[0] == line[|indent|] == '#';
    SingleLine(line);
  }
}
