/**
 * One run of the script: collect the versions, then print the report and
 * write the table. A missing version file ends the run before either output.
 */
module VersionReport {
  import opened Options
  import opened Patterns
  import opened OrderedDicts
  import opened Scrape
  import opened Render
  import opened TextLines

  /** What one run emits: the text printed to standard output and the contents of `software_versions.csv`. */
  datatype Output = Output(stdout: string, table: string)

  /** The tool names hold no tab, `<` or newline. */
  lemma ToolNamesRenderable()
    ensures forall i :: 0 <= i < |ToolNames| ==>
      '\t' !in ToolNames[i] && '<' !in ToolNames[i] && '\n' !in ToolNames[i]
  {
  }

  /** A version string holds no newline: "v" and a run of non-whitespace, or the placeholder. */
  lemma VersionHasNoNewline(t: Tool, files: map<string, string>)
    requires t.file in files
    ensures '\n' !in Version(t, files)
  {
    assert IsSpace('\n');
    match Search(t.pattern, files[t.file])
    case Some(c) =>
      assert Version(t, files) == "v" + c;
      assert '\n' !in c;
    case None =>
  }

  /** No name or collected value breaks either rendering. */
  lemma ExpectedIsRenderable(files: map<string, string>)
    requires AllPresent(files)
    ensures Renderable(Expected(files))
  {
    var m := Expected(files);
    RegistryNames();
    ToolNamesRenderable();
    forall i | 0 <= i < |m| ensures '\n' !in m[i].1 {
      VersionHasNoNewline(Registry[i], files);
    }
  }

  /**
   * The whole script. On success both outputs hold every tool once, in the
   * order the results dict was created with, whatever order the registry
   * was iterated in; reading either output back gives the collected dict.
   */
  method Run(order: seq<Tool>, files: map<string, string>) returns (r: Result<Output, string>)
    requires Enumerates(order)
    ensures r.Failure? <==> !AllPresent(files)
    ensures r.Failure? ==> r.error !in files
    ensures r.Success? ==> r.value == Output(Report(Expected(files)), Table(Expected(files)))
    ensures r.Success? ==>
      && ParseReport(r.value.stdout) == Some(Expected(files))
      && ParseTable(r.value.table) == Some(Expected(files))
      && SplitLines(r.value.table) == TsvLines(Expected(files))
  {
    var collected := Collect(order, files);
    if collected.Failure? {
      return Failure(collected.error);
    }
    var m := collected.value;
    var stdout := PrintReport(m);
    var table := WriteTable(m);
    ExpectedIsRenderable(files);
    ReportRoundTrip(m);
    TableRoundTrip(m);
    return Success(Output(stdout, table));
  }

  /** A version file holding `21.04.0` and a newline gives Nextflow the version `v21.04.0`. */
  lemma NextflowEntry(files: map<string, string>)
    requires AllPresent(files) && "v_nextflow.txt" in files && files["v_nextflow.txt"] == "21.04.0\n"
    ensures Expected(files)[1] == ("Nextflow", "v21.04.0")
  {
    var t := Registry[1];
    assert t == Tool("Nextflow", "v_nextflow.txt", Token);
    TokenExample();
    assert Version(t, files) == "v" + "21.04.0" == "v21.04.0";
  }

  /** That version appears as the second line of each output. */
  lemma NextflowScenario(files: map<string, string>)
    requires AllPresent(files) && "v_nextflow.txt" in files && files["v_nextflow.txt"] == "21.04.0\n"
    ensures TsvLines(Expected(files))[1] == TsvLine("Nextflow", "v21.04.0") == "Nextflow\tv21.04.0"
    ensures HtmlLines(Expected(files))[1] == HtmlLine("Nextflow", "v21.04.0")
  {
    NextflowEntry(files);
  }

  /** An empty Porechop version file leaves the placeholder, and the entry stays in the outputs. */
  lemma EmptyPorechopScenario(files: map<string, string>)
    requires AllPresent(files) && "v_porechop.txt" in files && files["v_porechop.txt"] == ""
    ensures Expected(files)[3] == ("Porechop", Sentinel)
    ensures KeepTruthy(Expected(files))[3] == ("Porechop", Sentinel)
  {
    TokenNoMatch("");
    assert Registry[3] == Tool("Porechop", "v_porechop.txt", Token);
    NothingFalsy(files);
  }
}
