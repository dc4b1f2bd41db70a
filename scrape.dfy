/**
 * The version collector: the registry of tools, the initial dict of
 * placeholders, the search loop that overwrites a placeholder with the
 * version found in the tool's file, and the pass that drops falsy entries.
 * File contents are given as a map from file name to text.
 */
module Scrape {
  import opened Options
  import opened Patterns
  import opened OrderedDicts

  /** A registry entry: the tool's name, the file holding its version output, and the pattern for the version. */
  datatype Tool = Tool(name: string, file: string, pattern: Pattern)

  /** The `regexes` dict, in declaration order. */
  const Registry: seq<Tool> := [
    Tool("nf-core/porepatrol", "v_pipeline.txt", Token),
    Tool("Nextflow", "v_nextflow.txt", Token),
    Tool("Nanoplot", "v_nanoplot.txt", After("NanoPlot")),
    Tool("Porechop", "v_porechop.txt", Token),
    Tool("Nanofilt", "v_nanofilt.txt", After("NanoFilt"))
  ]

  /** The keys the results dict is created with, in insertion order. */
  const ToolNames: seq<string> := ["nf-core/porepatrol", "Nextflow", "Nanoplot", "Porechop", "Nanofilt"]

  /** The muted placeholder every tool starts with. */
  const Sentinel: string := "<span style=\"color:#999999;\">N/A</span>"

  /** `m` holds the first `n` tool names, in order, each bound to the placeholder. */
  predicate Prefilled(m: Dict, n: nat) {
    && n <= |ToolNames|
    && Keys(m) == ToolNames[..n]
    && forall i :: 0 <= i < |m| ==> m[i].1 == Sentinel
  }

  /** Assigning the next tool name appends it, since the names are distinct. */
  lemma PrefillNext(m: Dict, n: nat, name: string)
    requires n < |ToolNames| && name == ToolNames[n] && Prefilled(m, n)
    ensures Prefilled(Assign(m, name, Sentinel), n + 1)
  {
    ToolNamesDistinct();
    assert name !in Keys(m);
    assert ToolNames[..n + 1] == ToolNames[..n] + [name];
  }

  /** The results dict as created: every tool, in the order above, bound to the placeholder. */
  method Initialise() returns (m: Dict)
    ensures Keys(m) == ToolNames
    ensures forall i :: 0 <= i < |m| ==> m[i].1 == Sentinel
  {
    m := [];
    PrefillNext(m, 0, "nf-core/porepatrol");
    m := Assign(m, "nf-core/porepatrol", Sentinel);
    PrefillNext(m, 1, "Nextflow");
    m := Assign(m, "Nextflow", Sentinel);
    PrefillNext(m, 2, "Nanoplot");
    m := Assign(m, "Nanoplot", Sentinel);
    PrefillNext(m, 3, "Porechop");
    m := Assign(m, "Porechop", Sentinel);
    PrefillNext(m, 4, "Nanofilt");
    m := Assign(m, "Nanofilt", Sentinel);
    assert ToolNames[..5] == ToolNames;
  }

  /**
   * One turn of the search loop: when the tool's pattern matches the content,
   * the tool's entry becomes "v" followed by the capture, exactly; otherwise
   * the entry keeps its value. No other entry changes and no key moves.
   */
  function Step(m: Dict, t: Tool, content: string): (r: Dict)
    requires DistinctKeys(m) && t.name in Keys(m)
    ensures Keys(r) == Keys(m) && DistinctKeys(r)
    ensures forall j :: 0 <= j < |m| && m[j].0 != t.name ==> r[j] == m[j]
    ensures forall j :: 0 <= j < |m| && m[j].0 == t.name ==>
      r[j].1 == match Search(t.pattern, content) case Some(c) => "v" + c case None => m[j].1
  {
    match Search(t.pattern, content)
    case Some(c) =>
      var r := Assign(m, t.name, "v" + c);
      forall j | 0 <= j < |m| && m[j].0 == t.name ensures r[j].1 == "v" + c {
        GetAt(r, j);
      }
      r
    case None => m
  }

  /** The dict after the search loop has handled the tools of `done`, in that order. */
  function Scan(m: Dict, done: seq<Tool>, files: map<string, string>): (r: Dict)
    requires DistinctKeys(m)
    requires forall t :: t in done ==> t.name in Keys(m) && t.file in files
    ensures Keys(r) == Keys(m) && DistinctKeys(r)
    decreases |done|
  {
    if done == [] then m
    else
      var last := done[|done| - 1];
      assert last in done;
      Step(Scan(m, done[..|done| - 1], files), last, files[last.file])
  }

  /** The last tool of `done` with the given name, if any. */
  function LastNamed(done: seq<Tool>, name: string): (r: Option<Tool>)
    ensures r.Some? ==> r.value in done && r.value.name == name
    decreases |done|
  {
    if done == [] then None
    else if done[|done| - 1].name == name then Some(done[|done| - 1])
    else LastNamed(done[..|done| - 1], name)
  }

  predicate DistinctNames(done: seq<Tool>) {
    forall i, j :: 0 <= i < j < |done| ==> done[i].name != done[j].name
  }

  /** With distinct names, the tool found by name is the only one of that name. */
  lemma {:induction false} LastNamedUnique(done: seq<Tool>, t: Tool)
    requires DistinctNames(done) && t in done
    ensures LastNamed(done, t.name) == Some(t)
    decreases |done|
  {
    var last := done[|done| - 1];
    if last != t {
      var k :| 0 <= k < |done| && done[k] == t;
      if k == |done| - 1 {
        assert false;
      }
      assert done[..|done| - 1][k] == t;
      LastNamedUnique(done[..|done| - 1], t);
    }
  }

  /** The value a tool ends up with: its version when its pattern matches its file, `current` otherwise. */
  function Outcome(t: Option<Tool>, files: map<string, string>, current: string): string
    requires t.Some? ==> t.value.file in files
  {
    match t
    case None => current
    case Some(t) =>
      match Search(t.pattern, files[t.file])
      case Some(c) => "v" + c
      case None => current
  }

  /** After the loop has handled `done`, each entry holds the outcome of the tool of its name, or its start value. */
  lemma {:induction false} ScanPointwise(m: Dict, done: seq<Tool>, files: map<string, string>)
    requires DistinctKeys(m) && DistinctNames(done)
    requires forall t :: t in done ==> t.name in Keys(m) && t.file in files
    ensures forall i :: 0 <= i < |m| ==>
      Scan(m, done, files)[i].1 == Outcome(LastNamed(done, m[i].0), files, m[i].1)
    decreases |done|
  {
    if done != [] {
      var front, last := done[..|done| - 1], done[|done| - 1];
      assert last in done;
      assert forall t :: t in front ==> t in done;
      ScanPointwise(m, front, files);
      var before := Scan(m, front, files);
      forall i | 0 <= i < |m|
        ensures Scan(m, done, files)[i].1 == Outcome(LastNamed(done, m[i].0), files, m[i].1)
      {
        if m[i].0 == last.name {
          assert before[i].0 == last.name;
        }
      }
    }
  }

  /** Every registry file was found; the source raises on the first one that is not. */
  predicate AllPresent(files: map<string, string>) {
    forall i :: 0 <= i < |Registry| ==> Registry[i].file in files
  }

  /** The version string of a tool: "v" and the capture when its pattern matches its file, the placeholder otherwise. */
  function Version(t: Tool, files: map<string, string>): string
    requires t.file in files
  {
    match Search(t.pattern, files[t.file])
    case Some(c) => "v" + c
    case None => Sentinel
  }

  /** What the collector produces: every registry tool, in registry order, with its version string. */
  function Expected(files: map<string, string>): (r: Dict)
    requires AllPresent(files)
  {
    seq(|Registry|, i requires 0 <= i < |Registry| => (Registry[i].name, Version(Registry[i], files)))
  }

  /** `order` is an iteration order of the registry dict: each tool exactly once. */
  predicate Enumerates(order: seq<Tool>) {
    && (forall t :: t in order ==> t in Registry)
    && (forall t :: t in Registry ==> t in order)
    && forall i, j :: 0 <= i < j < |order| ==> order[i] != order[j]
  }

  lemma EnumerationHasDistinctNames(order: seq<Tool>)
    requires Enumerates(order)
    ensures DistinctNames(order)
  {
    forall i, j | 0 <= i < j < |order| ensures order[i].name != order[j].name {
      assert order[i] in Registry && order[j] in Registry;
    }
  }

  /** The file name of some registry tool. */
  predicate IsRegistryFile(f: string) {
    exists i :: 0 <= i < |Registry| && Registry[i].file == f
  }

  /**
   * The search loop over the registry, in whatever order the dict yields its
   * entries, applied to the freshly created results dict. A registry file
   * that is not in `files` stops the run with its name.
   */
  method SearchVersions(m: Dict, order: seq<Tool>, files: map<string, string>) returns (r: Result<Dict, string>)
    requires Keys(m) == ToolNames && forall i :: 0 <= i < |m| ==> m[i].1 == Sentinel
    requires Enumerates(order)
    ensures r.Failure? <==> !AllPresent(files)
    ensures r.Failure? ==> r.error !in files && IsRegistryFile(r.error)
    ensures r.Success? ==> r.value == Expected(files)
  {
    ToolNamesDistinct();
    EnumerationHasDistinctNames(order);
    var cur := m;
    var n := 0;
    while n < |order|
      invariant 0 <= n <= |order|
      invariant forall t :: t in order[..n] ==> t.name in Keys(m) && t.file in files
      invariant cur == Scan(m, order[..n], files)
    {
      var t := order[n];
      if t.file !in files {
        MissingFile(t, files);
        return Failure(t.file);
      }
      RegisteredName(t);
      ScanSnoc(m, order[..n], t, files);
      assert order[..n + 1] == order[..n] + [t];
      cur := Step(cur, t, files[t.file]);
      n := n + 1;
    }
    assert order[..n] == order;
    ScanEveryOrder(m, order, files);
    return Success(cur);
  }

  /**
   * The collector: create the results dict, run the search loop over the
   * registry in the given iteration order, and drop falsy entries. A missing
   * registry file ends the run with that file's name.
   */
  method Collect(order: seq<Tool>, files: map<string, string>) returns (r: Result<Dict, string>)
    requires Enumerates(order)
    ensures r.Failure? <==> !AllPresent(files)
    ensures r.Failure? ==> r.error !in files && IsRegistryFile(r.error)
    ensures r.Success? ==> r.value == Expected(files)
  {
    var m := Initialise();
    var found := SearchVersions(m, order, files);
    if found.Failure? {
      return found;
    }
    m := RemoveFalsy(found.value);
    NothingFalsy(files);
    return Success(m);
  }

  /** The registry lists the tools under the names the results dict is created with, in the same order. */
  lemma RegistryNames()
    ensures |Registry| == |ToolNames|
    ensures forall i :: 0 <= i < |Registry| ==> Registry[i].name == ToolNames[i]
  {
  }

  /**
   * Whatever order the registry is iterated in, a loop that finds every file
   * leaves each tool of the fresh dict bound to its version string, in the
   * dict's creation order.
   */
  lemma ScanEveryOrder(start: Dict, order: seq<Tool>, files: map<string, string>)
    requires Enumerates(order)
    requires Keys(start) == ToolNames && forall i :: 0 <= i < |start| ==> start[i].1 == Sentinel
    requires forall t :: t in order ==> t.name in Keys(start) && t.file in files
    ensures DistinctKeys(start)
    ensures AllPresent(files)
    ensures Scan(start, order, files) == Expected(files)
  {
    ToolNamesDistinct();
    EnumerationHasDistinctNames(order);
    EnumerationFindsFiles(order, files);
    ScanPointwise(start, order, files);
    var m := Scan(start, order, files);
    var e := Expected(files);
    assert |m| == |e| by {
      RegistryNames();
    }
    forall i | 0 <= i < |m| ensures m[i] == e[i] {
      EntryOutcome(order, files, i, start[i].0, start[i].1, m[i]);
    }
  }

  /** A registry file that is not there makes the run fail. */
  lemma MissingFile(t: Tool, files: map<string, string>)
    requires t in Registry && t.file !in files
    ensures !AllPresent(files)
    ensures IsRegistryFile(t.file)
  {
    var i :| 0 <= i < |Registry| && Registry[i] == t;
  }

  /** Every registry tool has one of the names the results dict is created with. */
  lemma RegisteredName(t: Tool)
    requires t in Registry
    ensures t.name in ToolNames
  {
  }

  /** One more turn of the loop is one more Step. */
  lemma ScanSnoc(m: Dict, done: seq<Tool>, t: Tool, files: map<string, string>)
    requires DistinctKeys(m)
    requires forall u :: u in done + [t] ==> u.name in Keys(m) && u.file in files
    ensures forall u :: u in done ==> u.name in Keys(m) && u.file in files
    ensures Scan(m, done + [t], files) == Step(Scan(m, done, files), t, files[t.file])
  {
    assert forall u :: u in done ==> u in done + [t];
    assert (done + [t])[..|done|] == done;
  }

  lemma ToolNamesDistinct()
    ensures forall i, j :: 0 <= i < j < |ToolNames| ==> ToolNames[i] != ToolNames[j]
  {
  }

  /** The i-th entry after the loop is the i-th registry tool with its version string. */
  lemma EntryOutcome(order: seq<Tool>, files: map<string, string>, i: nat, name: string, initial: string, entry: (string, string))
    requires Enumerates(order) && DistinctNames(order) && AllPresent(files)
    requires i < |Registry| && name == ToolNames[i] && initial == Sentinel
    requires entry == (name, Outcome(LastNamed(order, name), files, initial))
    ensures entry == Expected(files)[i]
  {
    RegistryNames();
    assert Registry[i] in order;
    LastNamedUnique(order, Registry[i]);
  }

  /** A loop over an iteration order that found every file it opened found every registry file. */
  lemma EnumerationFindsFiles(order: seq<Tool>, files: map<string, string>)
    requires Enumerates(order)
    requires forall t :: t in order ==> t.file in files
    ensures AllPresent(files)
  {
    forall i | 0 <= i < |Registry| ensures Registry[i].file in files {
      assert Registry[i] in order;
    }
  }

  /** The entries whose value Python treats as true, i.e. a non-empty string, in their order. */
  function KeepTruthy(m: Dict): (r: Dict)
    ensures |r| <= |m|
    ensures forall p :: p in r <==> p in m && p.1 != ""
    ensures r == m <==> forall i :: 0 <= i < |m| ==> m[i].1 != ""
    decreases |m|
  {
    if m == [] then []
    else
      var rest := KeepTruthy(m[..|m| - 1]);
      var last := m[|m| - 1];
      assert m == m[..|m| - 1] + [last];
      if last.1 != "" then rest + [last] else rest
  }

  /** The falsy-removal pass, building the kept entries in order. */
  method RemoveFalsy(m: Dict) returns (r: Dict)
    ensures r == KeepTruthy(m)
  {
    r := [];
    for i := 0 to |m|
      invariant r == KeepTruthy(m[..i])
    {
      assert m[..i + 1][..i] == m[..i];
      if m[i].1 != "" {
        r := r + [m[i]];
      }
    }
    assert m[..|m|] == m;
  }

  /** No collected value is falsy: the placeholder and every "v" + capture are non-empty, so the pass keeps everything. */
  lemma NothingFalsy(files: map<string, string>)
    requires AllPresent(files)
    ensures KeepTruthy(Expected(files)) == Expected(files)
  {
  }
}
