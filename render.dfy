/**
 * The two renderings of the results dict: the YAML document with an HTML
 * definition list printed to standard output, and the tab-separated lines
 * written to `software_versions.csv`. Each is given as the text it produces,
 * with a parser that reads the entries back, to show that the text carries
 * one line per entry, in dict order, and nothing else.
 */
module Render {
  import opened Options
  import opened TextLines
  import opened OrderedDicts

  /** The single `print` before the entries, without the newline `print` adds. */
  const Header: string :=
    "\nid: 'software_versions'\n"
    + "section_name: 'nf-core/porepatrol Software Versions'\n"
    + "section_href: 'https://github.com/nf-core/porepatrol'\n"
    + "plot_type: 'html'\n"
    + "description: 'are collected at run time from the software output.'\n"
    + "data: |\n"
    + "    <dl class=\"dl-horizontal\">\n"

  /** The closing print after the entries. */
  const Footer: string := "    </dl>"

  const DtOpen: string := "        <dt>"
  const DtClose: string := "</dt><dd><samp>"
  const DdClose: string := "</samp></dd>"

  /** The printed line for one entry. */
  function HtmlLine(k: string, v: string): string {
    DtOpen + k + DtClose + v + DdClose
  }

  /** The line written to the table for one entry, before its newline. */
  function TsvLine(k: string, v: string): string {
    k + "\t" + v
  }

  function HtmlLines(m: Dict): (ls: seq<string>)
    ensures |ls| == |m| && forall i :: 0 <= i < |m| ==> ls[i] == HtmlLine(m[i].0, m[i].1)
  {
    seq(|m|, i requires 0 <= i < |m| => HtmlLine(m[i].0, m[i].1))
  }

  function TsvLines(m: Dict): (ls: seq<string>)
    ensures |ls| == |m| && forall i :: 0 <= i < |m| ==> ls[i] == TsvLine(m[i].0, m[i].1)
  {
    seq(|m|, i requires 0 <= i < |m| => TsvLine(m[i].0, m[i].1))
  }

  /** Everything printed to standard output: header, one line per entry, footer. */
  function Report(m: Dict): string {
    Header + "\n" + JoinLines(HtmlLines(m)) + Footer + "\n"
  }

  /** The contents of `software_versions.csv`: one tab-separated line per entry. */
  function Table(m: Dict): string {
    JoinLines(TsvLines(m))
  }

  /** The output loop over the dict: one print per entry between the header and the footer. */
  method PrintReport(m: Dict) returns (out: string)
    ensures out == Report(m)
  {
    ghost var head := Header + "\n";
    out := Header + "\n";
    for i := 0 to |m|
      invariant out == head + JoinLines(HtmlLines(m[..i]))
    {
      var line := HtmlLine(m[i].0, m[i].1);
      assert HtmlLines(m[..i + 1]) == HtmlLines(m[..i]) + [line];
      AppendLine(head, HtmlLines(m[..i]), line);
      out := out + line + "\n";
    }
    assert m[..|m|] == m;
    out := out + Footer + "\n";
  }

  /** The write loop over the dict: one write per entry. */
  method WriteTable(m: Dict) returns (out: string)
    ensures out == Table(m)
  {
    out := "";
    for i := 0 to |m|
      invariant out == JoinLines(TsvLines(m[..i]))
    {
      var line := TsvLine(m[i].0, m[i].1);
      assert TsvLines(m[..i + 1]) == TsvLines(m[..i]) + [line];
      JoinLinesSnoc(TsvLines(m[..i]), line);
      out := out + line + "\n";
    }
    assert m[..|m|] == m;
  }

  /** Splits a table line at its first tab. */
  function ParseTsvLine(l: string): Option<(string, string)> {
    var i := IndexOf(l, '\t');
    if i == |l| then None else Some((l[..i], l[i + 1..]))
  }

  /** Splits a report line into the texts of its `<dt>` and its `<samp>`. */
  function ParseHtmlLine(l: string): Option<(string, string)> {
    if |l| < |DtOpen| + |DtClose| + |DdClose| then None
    else if l[..|DtOpen|] != DtOpen || l[|l| - |DdClose|..] != DdClose then None
    else
      var body := l[|DtOpen|..|l| - |DdClose|];
      var i := IndexOf(body, '<');
      if i + |DtClose| <= |body| && body[i..i + |DtClose|] == DtClose
      then Some((body[..i], body[i + |DtClose|..]))
      else None
  }

  function ParseTsvLines(ls: seq<string>): Option<Dict>
    decreases |ls|
  {
    if ls == [] then Some([])
    else match (ParseTsvLine(ls[0]), ParseTsvLines(ls[1..]))
      case (Some(p), Some(rest)) => Some([p] + rest)
      case _ => None
  }

  function ParseHtmlLines(ls: seq<string>): Option<Dict>
    decreases |ls|
  {
    if ls == [] then Some([])
    else match (ParseHtmlLine(ls[0]), ParseHtmlLines(ls[1..]))
      case (Some(p), Some(rest)) => Some([p] + rest)
      case _ => None
  }

  /** Reads the entries back from a table. */
  function ParseTable(s: string): Option<Dict> {
    ParseTsvLines(SplitLines(s))
  }

  /** Reads the entries back from a report: the fixed header, then entry lines, then the footer line. */
  function ParseReport(s: string): Option<Dict> {
    var h := Header + "\n";
    if |s| < |h| || s[..|h|] != h then None
    else
      var ls := SplitLines(s[|h|..]);
      if ls == [] || ls[|ls| - 1] != Footer then None
      else ParseHtmlLines(ls[..|ls| - 1])
  }

  /** A table line gives back its entry when the name has no tab (the value may hold tabs). */
  lemma TsvLineRoundTrip(k: string, v: string)
    requires '\t' !in k
    ensures ParseTsvLine(TsvLine(k, v)) == Some((k, v))
  {
    var l := TsvLine(k, v);
    assert l == k + ("\t" + v);
    IndexOfAfter(k, "\t" + v, '\t');
    assert l[..|k|] == k && l[|k| + 1..] == v;
  }

  /** A report line gives back its entry when the name has no `<` (the value may hold markup). */
  lemma HtmlLineRoundTrip(k: string, v: string)
    requires '<' !in k
    ensures ParseHtmlLine(HtmlLine(k, v)) == Some((k, v))
  {
    var l := HtmlLine(k, v);
    var body := k + DtClose + v;
    assert l == DtOpen + body + DdClose;
    assert l[..|DtOpen|] == DtOpen;
    assert l[|l| - |DdClose|..] == DdClose;
    assert l[|DtOpen|..|l| - |DdClose|] == body;
    SplitAtMarker(k, v);
  }

  /** Between `<dt>` and `</samp></dd>`, the first `<` begins the marker that separates name and value. */
  lemma SplitAtMarker(k: string, v: string)
    requires '<' !in k
    ensures var body := k + DtClose + v;
      && IndexOf(body, '<') == |k|
      && body[|k|..|k| + |DtClose|] == DtClose
      && body[..|k|] == k && body[|k| + |DtClose|..] == v
  {
    var body := k + DtClose + v;
    assert body == k + (DtClose + v);
    IndexOfAfter(k, DtClose + v, '<');
  }

  /** Names that survive both renderings: no tab, no `<`, no newline; values without a newline. */
  predicate Renderable(m: Dict) {
    forall i :: 0 <= i < |m| ==>
      '\t' !in m[i].0 && '<' !in m[i].0 && '\n' !in m[i].0 && '\n' !in m[i].1
  }

  lemma {:induction false} TsvLinesRoundTrip(m: Dict)
    requires Renderable(m)
    ensures ParseTsvLines(TsvLines(m)) == Some(m)
    decreases |m|
  {
    if m != [] {
      assert TsvLines(m)[1..] == TsvLines(m[1..]);
      TsvLineRoundTrip(m[0].0, m[0].1);
      TsvLinesRoundTrip(m[1..]);
      assert [m[0]] + m[1..] == m;
    }
  }

  lemma {:induction false} HtmlLinesRoundTrip(m: Dict)
    requires Renderable(m)
    ensures ParseHtmlLines(HtmlLines(m)) == Some(m)
    decreases |m|
  {
    if m != [] {
      assert HtmlLines(m)[1..] == HtmlLines(m[1..]);
      HtmlLineRoundTrip(m[0].0, m[0].1);
      HtmlLinesRoundTrip(m[1..]);
      assert [m[0]] + m[1..] == m;
    }
  }

  /** The table has exactly one line per entry, in dict order, and reading it back gives the dict. */
  lemma TableRoundTrip(m: Dict)
    requires Renderable(m)
    ensures SplitLines(Table(m)) == TsvLines(m)
    ensures ParseTable(Table(m)) == Some(m)
  {
    forall i | 0 <= i < |m| ensures '\n' !in TsvLines(m)[i] {
      assert TsvLines(m)[i] == m[i].0 + ("\t" + m[i].1);
    }
    SplitJoin(TsvLines(m));
    TsvLinesRoundTrip(m);
  }

  /** The report is the header followed by the entry lines and the footer line, each ended by a newline. */
  lemma ReportShape(m: Dict)
    ensures Report(m) == Header + "\n" + JoinLines(HtmlLines(m) + [Footer])
  {
    JoinLinesAppend(HtmlLines(m), [Footer]);
    assert JoinLines([Footer]) == Footer + "\n" + JoinLines([]);
  }

  /**
   * The report is the header, then one line per entry in dict order, then the
   * footer line; reading it back gives the dict.
   */
  lemma ReportRoundTrip(m: Dict)
    requires Renderable(m)
    ensures Report(m) == Header + "\n" + JoinLines(HtmlLines(m) + [Footer])
    ensures SplitLines(JoinLines(HtmlLines(m) + [Footer])) == HtmlLines(m) + [Footer]
    ensures ParseReport(Report(m)) == Some(m)
  {
    var ls := HtmlLines(m) + [Footer];
    ReportLinesHaveNoNewline(m);
    ReportShape(m);
    SplitJoin(ls);
    ParseAfterHeader(JoinLines(ls));
    assert ls[..|ls| - 1] == HtmlLines(m);
    HtmlLinesRoundTrip(m);
  }

  lemma ReportLinesHaveNoNewline(m: Dict)
    requires Renderable(m)
    ensures forall i :: 0 <= i < |m| + 1 ==> '\n' !in (HtmlLines(m) + [Footer])[i]
  {
    forall i | 0 <= i < |m| ensures '\n' !in HtmlLines(m)[i] {
      assert HtmlLines(m)[i] == DtOpen + m[i].0 + (DtClose + m[i].1 + DdClose);
    }
  }

  /** Parsing a report starts with the entry lines right after the header. */
  lemma ParseAfterHeader(rest: string)
    ensures ParseReport(Header + "\n" + rest) ==
      var ls := SplitLines(rest);
      if ls == [] || ls[|ls| - 1] != Footer then None else ParseHtmlLines(ls[..|ls| - 1])
  {
    CutAfter(Header + "\n", rest);
  }
}
