/**
 * The content-file name test of the watchdog filter: `re.compile(r"\.cb[rz]$").search(path)`.
 *
 * Python's `search` returns the leftmost position where the pattern matches. Without the
 * MULTILINE flag, `$` matches at the end of the string and also just before a newline that
 * is the last character of the string; the model keeps that second case. The pattern is
 * case-sensitive, so ".CBZ" is not a comic name.
 */
module ComicName {
  import opened Wrappers

  /** `$` holds at position j of s. */
  predicate AtEnd(s: string, j: nat)
  {
    j == |s| || (j + 1 == |s| && s[j] == '\n')
  }

  /** The literal part `\.cb[rz]` of the pattern occupies s[i..i+4]. */
  predicate LiteralAt(s: string, i: nat)
  {
    i + 4 <= |s| && s[i] == '.' && s[i + 1] == 'c' && s[i + 2] == 'b' && (s[i + 3] == 'r' || s[i + 3] == 'z')
  }

  /** The whole pattern matches starting at position i. */
  predicate MatchAt(s: string, i: nat)
  {
    LiteralAt(s, i) && AtEnd(s, i + 4)
  }

  /** `pattern.search(s, i)`: the leftmost match position at or after i, if there is one. */
  function SearchFrom(s: string, i: nat): (r: Option<nat>)
    requires i <= |s|
    ensures r.Some? ==> i <= r.value <= |s| && MatchAt(s, r.value)
    ensures r.Some? ==> forall j :: i <= j < r.value ==> !MatchAt(s, j)
    ensures r.None? ==> forall j :: i <= j <= |s| ==> !MatchAt(s, j)
    decreases |s| - i
  {
    if MatchAt(s, i) then Some(i)
    else if i == |s| then None
    else SearchFrom(s, i + 1)
  }

  /** `COMIC_MATCHER.search(path)`. */
  function Search(s: string): (r: Option<nat>)
    ensures r.Some? ==> MatchAt(s, r.value) && forall j :: 0 <= j < r.value ==> !MatchAt(s, j)
    ensures r.None? ==> forall j :: 0 <= j <= |s| ==> !MatchAt(s, j)
  {
    SearchFrom(s, 0)
  }

  /** `COMIC_MATCHER.search(path) is not None`. */
  predicate IsComicName(s: string)
  {
    Search(s).Some?
  }

  predicate HasSuffix(s: string, suffix: string)
  {
    |suffix| <= |s| && s[|s| - |suffix|..] == suffix
  }

  /**
   * The reference reading of the pattern: the name ends in ".cbr" or ".cbz", optionally
   * followed by one final newline.
   */
  predicate EndsWithComicExtension(s: string)
  {
    HasSuffix(s, ".cbr") || HasSuffix(s, ".cbz") || HasSuffix(s, ".cbr\n") || HasSuffix(s, ".cbz\n")
  }

  /** The regular-expression search agrees with the suffix reading in both directions. */
  lemma IsComicNameIffSuffix(s: string)
    ensures IsComicName(s) <==> EndsWithComicExtension(s)
  {
    if IsComicName(s) {
      var i := Search(s).value;
      assert MatchAt(s, i);
      if i + 4 == |s| {
        assert s[|s| - 4..] == s[i..i + 4];
      } else {
        assert s[|s| - 5..] == s[i..i + 4] + ['\n'];
      }
    } else {
      if HasSuffix(s, ".cbr") || HasSuffix(s, ".cbz") {
        assert s[|s| - 4..][0] == '.';
        assert MatchAt(s, |s| - 4);
      } else if HasSuffix(s, ".cbr\n") || HasSuffix(s, ".cbz\n") {
        assert s[|s| - 5..][0] == '.';
        assert MatchAt(s, |s| - 5);
      }
    }
  }

  /** Concrete names: both extensions match, other extensions and upper case do not. */
  lemma ComicNameExamples()
    ensures IsComicName("x.cbr") && IsComicName("b.cbz") && IsComicName("b.cbz\n")
    ensures !IsComicName("a.txt") && !IsComicName("a.CBZ") && !IsComicName("a.cbz.txt")
  {
    IsComicNameIffSuffix("x.cbr");
    IsComicNameIffSuffix("b.cbz");
    IsComicNameIffSuffix("b.cbz\n");
    IsComicNameIffSuffix("a.txt");
    IsComicNameIffSuffix("a.CBZ");
    IsComicNameIffSuffix("a.cbz.txt");
  }
}
