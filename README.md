# porepatrol software-version scraper, modelled in Dafny

This project models `bin/scrape_software_versions.py` from the nf-core/porepatrol
pipeline. The script reads five tool-version files and pulls a version token out
of each with a fixed regular expression. It keeps the results in an
`OrderedDict` from tool name to display value. Every tool starts with a muted
`N/A` placeholder. The script then drops falsy entries and prints the dict as
an HTML definition list inside a YAML document. Last, it writes the dict as
tab-separated lines to `software_versions.csv`.

Files:

- `options.dfy` (`Options`): `Option` and `Result`.
- `text_lines.dfy` (`TextLines`): first-occurrence search, and the text that
  successive `print` / `write(... + "\n")` calls produce. Splitting that text
  back into lines is proved to undo it.
- `patterns.dfy` (`Patterns`): the two pattern shapes, `(\S+)` and
  `Word (\S+)`. They are written as one leftmost-first, greedy search with a
  literal lead: empty for `(\S+)`, `Word ` for the other. The search is proved
  sound and complete against a declarative statement of what `re.search`
  returns.
- `results.dfy` (`OrderedDicts`): the `OrderedDict` as a sequence of
  (name, value) pairs. `Assign` is `d[k] = v`.
- `scrape.dfy` (`Scrape`): the registry, the creation of the results dict, the
  search-and-overwrite loop, and the falsy-removal pass.
- `render.dfy` (`Render`): the printed report and the table, as the text they
  produce, with parsers that read the entries back.
- `version_report.dfy` (`VersionReport`): one whole run, plus the concrete
  scenarios.

File contents are a parameter `files: map<string, string>` from file name to
text. The iteration order of the plain `regexes` dict is a parameter `order`.
It may be any listing of the registry that names each tool once. `Collect` and
`Run` are proved to give the same result for every such order.

Points where the model reads the code closely:

- The placeholder literal `'<span style="color:#999999;\">N/A</span>'` is
  single-quoted. Its `\"` is therefore just `"`, so `Scrape.Sentinel` holds no
  backslash.
- For `v_pipeline.txt`, `v_nextflow.txt` and `v_porechop.txt`, a plain-language
  description of the script would say "the entire trimmed content is the
  version". The code does something else: `(\S+)` captures only the first run
  of non-whitespace. The model follows the code, so `"1.0 beta"` gives `v1.0`.
- `\S` is Python 3's `\S` on `str`, the complement of `str.isspace`. It is
  written out as `Patterns.IsSpace`: U+0009–U+000D, U+001C–U+0020, U+0085,
  U+00A0, U+1680, U+2000–U+200A, U+2028, U+2029, U+202F, U+205F and U+3000.
- A run stops before any of its registry files is missing, and nothing is
  printed or written. The model returns `Failure(file name)` for this case.

## Model

| member | source | states |
|---|---|---|
| `Patterns.Search` | bin/scrape_software_versions.py:26-28 | `re.search` finds a match exactly when the lead occurs somewhere followed by a non-whitespace character. Group 1 is then non-empty and contains no whitespace. |
| `Patterns.FirstMatch` | bin/scrape_software_versions.py:26 | The match start is the leftmost position where the pattern can match. No earlier position can match. |
| `Patterns.RunEnd` | bin/scrape_software_versions.py:26 | Greedy `\S+` stops at the first whitespace character or at the end of the text. |
| `Patterns.SearchSound` | bin/scrape_software_versions.py:26-28 | What Search returns is the leftmost-start, greedy-group capture. |
| `Patterns.SearchComplete` | bin/scrape_software_versions.py:26-28 | Whenever a leftmost-start, greedy-group capture exists, Search returns exactly that capture. |
| `Patterns.SearchIsLeftmostGreedy` | bin/scrape_software_versions.py:26-28 | Search returns `c` if and only if `c` is the leftmost, greedy capture (both directions). |
| `Patterns.CaptureIsRun` | bin/scrape_software_versions.py:26 | A non-whitespace run that ends at whitespace or at the end of the text is the run greedy `\S+` takes. |
| `Patterns.TokenCaptureIsFirstRun` | bin/scrape_software_versions.py:8-9 | What `(\S+)` captures is the first maximal run of non-whitespace, and only whitespace comes before it. |
| `Patterns.FirstRunIsTokenCapture` | bin/scrape_software_versions.py:8-9 | The first maximal run of non-whitespace is what `(\S+)` captures. |
| `Patterns.TokenIsFirstRun` | bin/scrape_software_versions.py:8-9 | `(\S+)` captures `c` if and only if `c` is the first maximal non-whitespace run. |
| `Patterns.TokenNoMatch` | bin/scrape_software_versions.py:11 | `(\S+)` finds nothing exactly when the content is empty or all whitespace. |
| `Patterns.TokenExample` | bin/scrape_software_versions.py:9 | On `21.04.0` plus a newline, `(\S+)` captures `21.04.0` without the newline. |
| `Patterns.AfterExample` | bin/scrape_software_versions.py:10 | On `NanoPlot 1.38.0`, `NanoPlot (\S+)` captures `1.38.0`. |
| `Patterns.AfterSkipsUnusableExample` | bin/scrape_software_versions.py:10 | An occurrence of `NanoPlot ` followed by whitespace is skipped, and the capture comes from the next usable occurrence. |
| `TextLines.IndexOf` | bin/scrape_software_versions.py:52 | Gives the first occurrence of a character, or the length when the character is absent. |
| `TextLines.SplitJoin` | bin/scrape_software_versions.py:45-52 | Text written line by line splits back into exactly those lines when none of them contains a newline. |
| `TextLines.SplitLines` | bin/scrape_software_versions.py:45-52 | No line produced by the split contains a newline. |
| `OrderedDicts.Assign` | bin/scrape_software_versions.py:16-20 | `d[k] = v` overwrites an existing key in place, so the key order is unchanged. A new key is appended. No other entry changes, `d[k]` is then `v`, and keys stay distinct. |
| `OrderedDicts.Get` | bin/scrape_software_versions.py:33 | `d[k]` exists exactly when `k` is a key, and it is the value paired with `k`. |
| `Scrape.Initialise` | bin/scrape_software_versions.py:15-20 | The new dict holds exactly nf-core/porepatrol, Nextflow, Nanoplot, Porechop and Nanofilt, in that order. Each is bound to the placeholder. |
| `Scrape.PrefillNext` | bin/scrape_software_versions.py:16-20 | Each creation statement appends its name after the ones before it and binds it to the placeholder. |
| `Scrape.RegistryNames` | bin/scrape_software_versions.py:7-20 | The `regexes` registry and the results dict list the same five names in the same order. |
| `Scrape.Step` | bin/scrape_software_versions.py:26-28 | On a match, the tool's value becomes exactly `v` followed by group 1. Otherwise it keeps its value. No other entry changes and no key moves. |
| `Scrape.Scan` | bin/scrape_software_versions.py:23-28 | However many turns the loop has taken, the keys and their order are those of the dict as created. |
| `Scrape.ScanPointwise` | bin/scrape_software_versions.py:23-28 | After the loop, each entry holds the outcome for the tool with that name, or its starting value if no such tool was handled. |
| `Scrape.ScanEveryOrder` | bin/scrape_software_versions.py:7-28 | For every iteration order of the registry, the loop leaves exactly the expected dict: registry order, each tool with its version string or the placeholder. |
| `Scrape.SearchVersions` | bin/scrape_software_versions.py:23-28 | The loop fails exactly when a registry file is missing, and then names that file. Otherwise it yields the expected dict, whatever the iteration order. |
| `Scrape.Collect` | bin/scrape_software_versions.py:15-33 | Creation, the search loop and the falsy pass together fail exactly when a registry file is missing. Otherwise they yield the expected dict. |
| `Scrape.MissingFile` | bin/scrape_software_versions.py:24 | A registry file that cannot be opened makes the run fail. |
| `Scrape.LastNamedUnique` | bin/scrape_software_versions.py:7-13 | Registry names are unique, so looking up a tool by name finds that tool. |
| `Scrape.EnumerationHasDistinctNames` | bin/scrape_software_versions.py:7-13 | Any iteration order of the registry has distinct names. |
| `Scrape.EnumerationFindsFiles` | bin/scrape_software_versions.py:23-25 | If the loop found every file it opened, every registry file is present. |
| `Scrape.KeepTruthy` | bin/scrape_software_versions.py:31-33 | Keeps exactly the entries whose value is a non-empty string. It returns the dict unchanged if and only if no value is empty. |
| `Scrape.RemoveFalsy` | bin/scrape_software_versions.py:31-33 | The removal loop produces exactly the kept entries, in order. |
| `Scrape.NothingFalsy` | bin/scrape_software_versions.py:16-33 | Every collected value is the non-empty placeholder or `v` plus a non-empty capture. The falsy pass therefore removes nothing. |
| `Render.PrintReport` | bin/scrape_software_versions.py:36-47 | Standard output is the fixed header, then one `<dt>…</dt><dd><samp>…</samp></dd>` line per entry in dict order, then the closing `</dl>`. |
| `Render.WriteTable` | bin/scrape_software_versions.py:50-52 | The table is one `name<TAB>value` line per entry, in dict order. |
| `Render.TsvLineRoundTrip` | bin/scrape_software_versions.py:52 | A table line splits back into its name and value when the name contains no tab. |
| `Render.HtmlLineRoundTrip` | bin/scrape_software_versions.py:46 | A report line gives back its name and value when the name contains no `<`. The value may hold markup, as the placeholder does. |
| `Render.SplitAtMarker` | bin/scrape_software_versions.py:46 | In a report line, the first `<` after `<dt>` starts the `</dt><dd><samp>` marker. |
| `Render.TsvLinesRoundTrip` | bin/scrape_software_versions.py:51-52 | The table lines read back to the dict, entry by entry, in order. |
| `Render.HtmlLinesRoundTrip` | bin/scrape_software_versions.py:45-46 | The report lines read back to the dict, entry by entry, in order. |
| `Render.TableRoundTrip` | bin/scrape_software_versions.py:50-52 | The table splits into exactly one line per entry, in dict order, and reading it back gives the dict. |
| `Render.ReportShape` | bin/scrape_software_versions.py:36-47 | The report is the header and then the entry lines and the footer, each followed by one newline. |
| `Render.ReportRoundTrip` | bin/scrape_software_versions.py:36-47 | After the header, the report is one line per entry in dict order and then the footer. Reading it back gives the dict. |
| `Render.ParseAfterHeader` | bin/scrape_software_versions.py:36-44 | The entries of a report begin right after the fixed header text. |
| `VersionReport.ToolNamesRenderable` | bin/scrape_software_versions.py:16-20 | No tool name contains a tab, `<` or a newline. |
| `VersionReport.VersionHasNoNewline` | bin/scrape_software_versions.py:16-28 | No version string contains a newline. |
| `VersionReport.ExpectedIsRenderable` | bin/scrape_software_versions.py:16-28 | Every collected name and value survives both renderings. |
| `VersionReport.Run` | bin/scrape_software_versions.py:15-52 | A run fails, with no output, exactly when a registry file is missing. Otherwise both outputs are renderings of the expected dict and read back to it, and the table has one line per tool. |
| `VersionReport.NextflowEntry` | bin/scrape_software_versions.py:9 | A Nextflow version file holding `21.04.0` and a newline gives Nextflow the version `v21.04.0`. |
| `VersionReport.NextflowScenario` | bin/scrape_software_versions.py:45-52 | That version gives the table line `Nextflow<TAB>v21.04.0` and the matching HTML line. |
| `VersionReport.EmptyPorechopScenario` | bin/scrape_software_versions.py:11 | An empty Porechop file leaves the placeholder, and the falsy pass keeps that entry. |

## Left out

- Opening and reading the version files (lines 24-25) is not modelled. Their contents are the `files` map, and a missing file is a `Failure` carrying its name. The traceback and the exit status are not modelled.
- Printing to standard output and writing `software_versions.csv` are not modelled as I/O. The model gives only the text each would emit. Text-mode newline translation on reading or writing is not modelled either.
- `re.search` is not modelled as a general regex engine. The model covers only the two pattern shapes the registry uses.
- `Patterns.IsSpace` follows Python 3 `str` semantics. Under Python 2 on byte strings, `\s` is only `[ \t\n\r\f\v]`, so the bytes U+001C–U+001F and U+0085/U+00A0 would count as non-whitespace.
- The iteration order of the plain `regexes` dict (arbitrary in Python 2, insertion order in Python 3.7+) is a parameter, and the result is proved not to depend on it. Which missing file a failure names does depend on it.
- `RuntimeError: OrderedDict mutated during iteration` is not modelled. Python 3 would raise it if the falsy pass deleted anything. It cannot happen here, because `Scrape.NothingFalsy` proves that the pass deletes nothing. The pass is modelled as a filter building a new dict.
- `VersionReport.NextflowScenario`: states the HTML line as `HtmlLine("Nextflow", "v21.04.0")` rather than spelled out as one literal. `HtmlLine` is the format of line 46.
