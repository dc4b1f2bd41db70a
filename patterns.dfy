/**
 * The two regular expressions the version scraper applies with `re.search`:
 * `(\S+)` and `<Word> (\S+)`. Both are a fixed literal lead followed by one
 * greedy group of non-whitespace characters (the lead of `(\S+)` is empty),
 * so one leftmost-first, greedy search covers them without a regex engine.
 */
module Patterns {
  import opened Options

  /**
   * Python 3's `\s` on text (`str.isspace`): tab, line feed, vertical tab,
   * form feed, carriage return, the file/group/record/unit separators, space,
   * NEL, no-break space and the Unicode space separators.
   */
  predicate IsSpace(c: char) {
    var n := c as int;
    || 0x09 <= n <= 0x0D
    || 0x1C <= n <= 0x20
    || n == 0x85 || n == 0xA0 || n == 0x1680
    || 0x2000 <= n <= 0x200A
    || n == 0x2028 || n == 0x2029 || n == 0x202F || n == 0x205F || n == 0x3000
  }

  /** The pattern shapes of the registry: `(\S+)`, and `Word (\S+)` for a literal `Word`. */
  datatype Pattern = Token | After(word: string)

  /** The literal text the pattern requires before its group. */
  function Lead(p: Pattern): string {
    match p
    case Token => ""
    case After(word) => word + " "
  }

  /** The pattern can match starting at `i`: the lead is there and at least one non-space follows it. */
  predicate MatchAt(lead: string, s: string, i: nat) {
    i + |lead| < |s| && s[i..i + |lead|] == lead && !IsSpace(s[i + |lead|])
  }

  /** The end of the run of non-spaces that starts at `k` (greedy `\S+`). */
  function RunEnd(s: string, k: nat): (e: nat)
    requires k <= |s|
    ensures k <= e <= |s|
    ensures forall j :: k <= j < e ==> !IsSpace(s[j])
    ensures e == |s| || IsSpace(s[e])
    decreases |s| - k
  {
    if k == |s| || IsSpace(s[k]) then k else RunEnd(s, k + 1)
  }

  /** The leftmost position at or after `from` where the pattern can match. */
  function FirstMatch(lead: string, s: string, from: nat): (r: Option<nat>)
    requires from <= |s|
    ensures r.Some? ==> from <= r.value && MatchAt(lead, s, r.value)
    ensures forall j: nat :: from <= j && (r.None? || j < r.value) ==> !MatchAt(lead, s, j)
    decreases |s| - from
  {
    if from + |lead| >= |s| then None
    else if MatchAt(lead, s, from) then Some(from)
    else FirstMatch(lead, s, from + 1)
  }

  /** `re.search(pattern, s).group(1)`, or None when `re.search` returns no match. */
  function Search(p: Pattern, s: string): (r: Option<string>)
    ensures r.Some? <==> exists i: nat :: MatchAt(Lead(p), s, i)
    ensures r.Some? ==> r.value != [] && forall j :: 0 <= j < |r.value| ==> !IsSpace(r.value[j])
  {
    match FirstMatch(Lead(p), s, 0)
    case None => None
    case Some(i) =>
      var k := i + |Lead(p)|;
      Some(s[k..RunEnd(s, k)])
  }

  /**
   * What Python's `re.search` returns for `lead + "(\S+)"`, stated without an
   * algorithm: the match starts at the leftmost position where the pattern can
   * match at all, and the group `c` there is as long as greedy `\S+` makes it.
   */
  ghost predicate LeftmostGreedy(lead: string, s: string, i: nat, c: string) {
    && i + |lead| + |c| <= |s|
    && s[i..i + |lead|] == lead
    && s[i + |lead|..i + |lead| + |c|] == c
    && c != []
    && (forall j :: 0 <= j < |c| ==> !IsSpace(c[j]))
    && (i + |lead| + |c| == |s| || IsSpace(s[i + |lead| + |c|]))
    && (forall j: nat :: j < i ==> !MatchAt(lead, s, j))
  }

  /** A run of non-spaces ending at a space or at the end is the one RunEnd finds. */
  lemma RunEndUnique(s: string, k: nat, e: nat)
    requires k <= e <= |s|
    requires forall j :: k <= j < e ==> !IsSpace(s[j])
    requires e == |s| || IsSpace(s[e])
    ensures RunEnd(s, k) == e
  {
  }

  /** What Search returns is the leftmost, greedy capture. */
  lemma SearchSound(p: Pattern, s: string)
    requires Search(p, s).Some?
    ensures LeftmostGreedy(Lead(p), s, FirstMatch(Lead(p), s, 0).value, Search(p, s).value)
  {
  }

  /** The leftmost position where the pattern can match is the one FirstMatch finds. */
  lemma FirstMatchLeftmost(lead: string, s: string, i: nat)
    requires MatchAt(lead, s, i)
    requires forall j: nat :: j < i ==> !MatchAt(lead, s, j)
    ensures FirstMatch(lead, s, 0) == Some(i)
  {
  }

  /** A run of non-spaces written out in `s` at `k` and ending at a space or at the end is RunEnd's run. */
  lemma CaptureIsRun(s: string, k: nat, c: string)
    requires k + |c| <= |s| && s[k..k + |c|] == c
    requires forall j :: 0 <= j < |c| ==> !IsSpace(c[j])
    requires k + |c| == |s| || IsSpace(s[k + |c|])
    ensures RunEnd(s, k) == k + |c|
  {
    forall j | k <= j < k + |c| ensures !IsSpace(s[j]) {
      assert s[j] == c[j - k];
    }
    RunEndUnique(s, k, k + |c|);
  }

  /** Whenever a leftmost, greedy capture exists, Search returns it. */
  lemma SearchComplete(p: Pattern, s: string, i: nat, c: string)
    requires LeftmostGreedy(Lead(p), s, i, c)
    ensures Search(p, s) == Some(c)
  {
    var lead := Lead(p);
    var k := i + |lead|;
    assert s[k..k + |c|] == c;
    assert MatchAt(lead, s, i) by {
      assert s[k] == c[0];
    }
    FirstMatchLeftmost(lead, s, i);
    CaptureIsRun(s, k, c);
    SearchFrom(p, s, i);
  }

  /** Search captures the run after the lead at the leftmost match. */
  lemma SearchFrom(p: Pattern, s: string, i: nat)
    requires FirstMatch(Lead(p), s, 0) == Some(i)
    ensures Search(p, s) == Some(s[i + |Lead(p)|..RunEnd(s, i + |Lead(p)|)])
  {
  }

  /** Search returns exactly the leftmost, greedy capture, and finds one whenever one exists. */
  lemma SearchIsLeftmostGreedy(p: Pattern, s: string, c: string)
    ensures Search(p, s) == Some(c) <==> exists i: nat :: LeftmostGreedy(Lead(p), s, i, c)
  {
    if Search(p, s) == Some(c) {
      SearchSound(p, s);
    }
    if i: nat :| LeftmostGreedy(Lead(p), s, i, c) {
      SearchComplete(p, s, i, c);
    }
  }

  /** `c` is the first maximal run of non-whitespace in `s`, and it starts at `i`. */
  ghost predicate FirstRun(s: string, i: nat, c: string) {
    && i + |c| <= |s|
    && (forall j :: 0 <= j < i ==> IsSpace(s[j]))
    && s[i..i + |c|] == c
    && c != []
    && (forall j :: 0 <= j < |c| ==> !IsSpace(c[j]))
    && (i + |c| == |s| || IsSpace(s[i + |c|]))
  }

  /** A capture of `(\S+)` is the first maximal run of non-whitespace. */
  lemma TokenCaptureIsFirstRun(s: string)
    requires Search(Token, s).Some?
    ensures FirstRun(s, FirstMatch("", s, 0).value, Search(Token, s).value)
  {
    SearchSound(Token, s);
    var i := FirstMatch("", s, 0).value;
    forall j | 0 <= j < i ensures IsSpace(s[j]) {
      assert !MatchAt("", s, j);
    }
  }

  /** The first maximal run of non-whitespace is what `(\S+)` captures. */
  lemma FirstRunIsTokenCapture(s: string, i: nat, c: string)
    requires FirstRun(s, i, c)
    ensures Search(Token, s) == Some(c)
  {
    forall j: nat | j < i ensures !MatchAt("", s, j) {
      assert IsSpace(s[j]);
    }
    assert LeftmostGreedy("", s, i, c);
    SearchComplete(Token, s, i, c);
  }

  /** `(\S+)` captures exactly the first maximal run of non-whitespace. */
  lemma TokenIsFirstRun(s: string, c: string)
    ensures Search(Token, s) == Some(c) <==> exists i: nat :: FirstRun(s, i, c)
  {
    if Search(Token, s) == Some(c) {
      TokenCaptureIsFirstRun(s);
    }
    if i: nat :| FirstRun(s, i, c) {
      FirstRunIsTokenCapture(s, i, c);
    }
  }

  /** `(\S+)` finds nothing exactly when the content is empty or all whitespace. */
  lemma TokenNoMatch(s: string)
    ensures Search(Token, s) == None <==> forall j :: 0 <= j < |s| ==> IsSpace(s[j])
  {
    assert Lead(Token) == "";
    if Search(Token, s) == None {
      forall j | 0 <= j < |s| ensures IsSpace(s[j]) {
        assert !MatchAt("", s, j);
      }
    } else {
      var i: nat :| MatchAt("", s, i);
      assert !IsSpace(s[i]);
    }
  }

  /** `nextflow -v` output as a version file holds it: the trailing newline is not captured. */
  lemma TokenExample()
    ensures Search(Token, "21.04.0\n") == Some("21.04.0")
  {
    var s := "21.04.0\n";
    assert s[..0] == "" && s[0..7] == "21.04.0";
    assert LeftmostGreedy("", s, 0, "21.04.0");
    SearchComplete(Token, s, 0, "21.04.0");
  }

  /** `NanoPlot --version` output: the version follows the product name and a space. */
  lemma AfterExample()
    ensures Search(After("NanoPlot"), "NanoPlot 1.38.0") == Some("1.38.0")
  {
    var s := "NanoPlot 1.38.0";
    assert s[0..9] == "NanoPlot " && s[9..15] == "1.38.0";
    assert LeftmostGreedy("NanoPlot ", s, 0, "1.38.0");
    SearchComplete(After("NanoPlot"), s, 0, "1.38.0");
  }

  /** An occurrence of the prefix followed by whitespace is skipped in favour of a later usable one. */
  lemma AfterSkipsUnusableExample()
    ensures Search(After("NanoPlot"), "NanoPlot  x NanoPlot 1.2") == Some("1.2")
  {
    var s := "NanoPlot  x NanoPlot 1.2";
    assert s[12..21] == "NanoPlot " && s[21..24] == "1.2";
    forall j: nat | j < 12 ensures !MatchAt("NanoPlot ", s, j) {
      if j == 0 {
        assert IsSpace(s[9]);
      } else {
        assert s[j..j + 9][0] == s[j] != 'N';
      }
    }
    assert LeftmostGreedy("NanoPlot ", s, 12, "1.2");
    SearchComplete(After("NanoPlot"), s, 12, "1.2");
  }
}
