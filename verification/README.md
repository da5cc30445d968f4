# Build-tree paths, Python dependency building and the downsampler filter list

This project models three pieces of the Adamant build and model tooling in
Dafny and proves properties of them.

- **Build-tree path algebra** (`RedoArg`, over `Paths` and `Strings`). These
  are the functions redo rules use to take apart their `$1 $2 $3` arguments:
  - split a path into directory, stem and extension;
  - decode a model filename `[specific.]model.type.yaml`;
  - classify a path against the `…/build/<category>[/<target>]/file` layout;
  - find the `build` ancestor, the source root and the target;
  - map a source file to its object file.

  Paths are normalized: an absolute flag and a sequence of non-empty,
  separator-free segments. `Paths.Dirname` and `Paths.Basename` are proved
  to agree with Python's `posixpath.dirname` and `basename` on the rendered
  string. `Paths.SplitExt` follows the rule of `posixpath.splitext` on a
  final component and is characterized by `Paths.SplitExtNone` and
  `Paths.SplitExtOf`.
- **Recursive missing-dependency builder** (`PyDep`). `_build_pydeps` does the following for a source file:
  - asks module discovery for the imports it cannot resolve;
  - asks the source database for candidate files;
  - records them;
  - requests one rebuild of those not yet built in this session;
  - analyses each rebuilt file in turn, depth first.

  The model has no I/O:
  - Discovery and the database are the two functions of an `Oracles` value.
  - Every analysis, database query and rebuild request is appended to an event log that is part of the session.
  - The three rule adapters are modelled as well: `_build_python_no_update`, `_build_python` and `_run_python`.
- **Downsampler filter list** (`DownsamplerFilters`). `filter_entry` and the
  validation half of `ccsds_downsampler_filters.load` are modelled:
  - range checks;
  - default names;
  - the ban on a specific name;
  - rejection of duplicate names and APIDs;
  - the ordered entries and the table size.

Files: `wrappers.dfy` (Option and Result), `strings.dfy`, `paths.dfy`,
`redo_arg.dfy`, `pydep.dfy`, `downsampler_filters.dfy`.

## Where the code and its documentation differ

`get_build_dir` returns the `build` directory itself. Its docstring says it
returns the root source directory above it (`/path/to/build/obj/Linux/file.o
-> /path/to`); the code returns the path up to and including `build`. The
model follows the code (`RedoArg.ExampleBuildDir`).

## Notes on the code

- `get_build_dir` and `get_src_dir` start their search at the file's grandparent. `in_build_dir` tests the parent as well. So a file directly inside `build/` is "in the build directory", yet `get_build_dir` raises for it (`RedoArg.ExampleBuildDirSkipsParent`).
- When `get_src_dir` finds no `build` ancestor, it returns the file's own directory; it returns `"."` only when that directory is the empty path.

## Model

| member | source | states |
|---|---|---|
| RedoArg.SplitFullFilename | redo/util/redo_arg.py:8-17 | the directory is the path's directory and stem + extension its final component; the extension is empty or one dot followed by dot-free text, after a stem with a non-dot character |
| RedoArg.SplitFullFilenameAgrees | redo/util/redo_arg.py:14-15 | the directory renders to Python's `dirname` of the rendered path, and stem + extension is Python's `basename` of it |
| RedoArg.SplitFullFilenameOf | redo/util/redo_arg.py:8-17 | a file `dir/stem+ext` (stem with a non-dot character, ext a dotted, dot-free suffix) splits back into exactly `dir`, `stem` and `ext` |
| RedoArg.ExampleSplitFullFilename | redo/util/redo_arg.py:9-13 | the docstring example `/path/to/file.txt` → (`/path/to`, `file`, `.txt`) |
| RedoArg.SplitRedoArg | redo/util/redo_arg.py:44-52 | the parts are Python's `dirname` and `basename` of the path, and joining them gives the path back |
| RedoArg.SplitModelFilename | redo/util/redo_arg.py:20-41 | a non-`.yaml` extension fails with that extension; it fails exactly when the extension is not `.yaml` or a given non-empty expected type differs from the stem's extension; on success the extension is `yaml`, the directory is the path's, the model type is the stem's extension without its dot, and the names are read from the stem's dot pieces (one piece: model name only; more: specific and model name, the rest dropped); the returned names are dot-free |
| RedoArg.SplitModelStem | redo/util/redo_arg.py:31-41 | on a `.yaml` file: fails exactly when a given non-empty expected type differs from the stem's extension, reporting the expected type; the model type is that extension without its dot; one dot piece gives no specific name, otherwise the first two pieces are (specific, model) and the rest are dropped |
| RedoArg.PiecesNamed | redo/util/redo_arg.py:34-40 | the rule reading the specific and model names from the dot pieces |
| RedoArg.ExampleThreeDotPieces | redo/util/redo_arg.py:34 | `"a.b.c".split(".")` is three pieces |
| RedoArg.ExampleThreePiecesType | redo/util/redo_arg.py:32 | `splitext("a.b.c.t")` is (`a.b.c`, `.t`) |
| RedoArg.ExampleStemDropsPieces | redo/util/redo_arg.py:31-41 | the stem `a.b.c.t` gives specific name `a`, model name `b` and type `t`; the piece `c` is dropped |
| RedoArg.ExampleSplitModelDropsPieces | redo/util/redo_arg.py:20-41 | `/path/to/a.b.c.t.yaml` decodes to (`/path/to`, `a`, `b`, `t`, `yaml`) |
| RedoArg.SplitModelFilenameRoundTrip | redo/util/redo_arg.py:20-41 | decoding the filename `dir/[specific.]model.type.yaml` built from dot-free parts returns exactly those parts, with or without the matching expected type |
| RedoArg.Get1Dir | redo/util/redo_arg.py:55-66 | the name of the directory holding the file (ancestor 1) |
| RedoArg.Get2Dirs | redo/util/redo_arg.py:69-74 | the names of ancestors 2 and 1, outermost first |
| RedoArg.Get3Dirs | redo/util/redo_arg.py:77-84 | the names of ancestors 3, 2 and 1, outermost first |
| RedoArg.InBuildCategoryDir | redo/util/redo_arg.py:87-201 | obj, bin, template/target and metric hold iff segment n-4 is `build` and n-3 is the category (the target name is then non-empty); the two-level categories hold iff segment n-3 is `build` and n-2 is the category |
| RedoArg.CategoryNamedInverts | redo/util/redo_arg.py:87-201 | each category is recovered from its directory name and depth, and no category directory is called `build` |
| RedoArg.AtMostOneCategory | redo/util/redo_arg.py:87-201 | no path lies in two different categories |
| RedoArg.FindBuildAbove | redo/util/redo_arg.py:210-214 | the ancestor walk returns the nearest proper ancestor of `dir` named `build` (a prefix of it), or none when no segment above `dir`'s own name is `build` |
| RedoArg.GetBuildDir | redo/util/redo_arg.py:204-215 | fails, naming the path, iff no segment before the file's parent is `build`; otherwise returns the nearest such `build` directory, a prefix of the path |
| RedoArg.OrCurrentDir | redo/util/redo_arg.py:231-234 | the empty path becomes `.`; any other path is kept |
| RedoArg.GetSrcDir | redo/util/redo_arg.py:218-234 | the parent of the directory `get_build_dir` finds, or the file's own directory when it finds none, with `.` for the empty path; never empty |
| RedoArg.ExampleSrcDir | redo/util/redo_arg.py:219-223 | the docstring example `/path/to/build/obj/Linux/file.o` → `/path/to` |
| RedoArg.ExampleBuildDir | redo/util/redo_arg.py:204-215 | for `/path/to/build/obj/Linux/file.o` the code returns `/path/to/build`, not the `/path/to` its docstring shows |
| RedoArg.AnyBuildFrom | redo/util/redo_arg.py:246-251 | the walk of `in_build_dir` finds `build` iff some segment of the directory is `build` |
| RedoArg.InBuildDir | redo/util/redo_arg.py:237-251 | true iff some directory segment of the path, the parent included, is `build` |
| RedoArg.BuildDirImpliesInBuildDir | redo/util/redo_arg.py:237-251 | every path whose build directory is found is in a build directory |
| RedoArg.ExampleBuildDirSkipsParent | redo/util/redo_arg.py:237-251 | the docstring examples: `/path/to/build/file.txt` is in a build directory and `/path/to/file.svg` is not; `get_build_dir` of the former fails |
| RedoArg.GetTarget | redo/util/redo_arg.py:254-266 | succeeds iff segment n-4 is `build` and n-3 is obj, bin, metric or template, returning the parent directory's name; otherwise fails naming the path |
| RedoArg.TargetCategories | redo/util/redo_arg.py:260-265 | the disjunction of the four target categories is the single condition "segment n-4 is `build` and n-3 one of obj/bin/metric/template" |
| RedoArg.ExampleTemplateTarget | redo/util/redo_arg.py:186-192 | `/p/build/template/ARM/x.t` is a template-target file, not a plain template file, with target `ARM` |
| RedoArg.GetBaseNoExt | redo/util/redo_arg.py:269-277 | the stem of `split_full_filename`, a prefix of the final component, non-empty when that component is |
| RedoArg.ObjPathFacts | redo/util/redo_arg.py:280-290 | `root/build/obj/T/f` is an obj file of target `T`; its source root is `root`; its build directory is `root/build`; its final component is `f` |
| RedoArg.SrcFileToObjFile | redo/util/redo_arg.py:280-290 | the object file is an obj file; `get_target` of it is the target; it has the same source root as the source file; its build directory sits in that root; it is named `<stem>.o` |
| RedoArg.ObjFileKeepsStem | redo/util/redo_arg.py:280-290 | the object file's stem is the source file's stem whenever that stem has a non-dot character |
| Paths.Dirname | redo/util/redo_arg.py:14 | the path without its final component (`/` and the empty path are their own directory); its contract is in `Paths.DirnameBasename` and `Paths.DirnameAgrees` |
| Paths.Basename | redo/util/redo_arg.py:15 | the final component, "" for `/` and the empty path; its contract is in `Paths.DirnameBasename` and `Paths.BasenameAgrees` |
| Paths.DirnameBasename | redo/util/redo_arg.py:60-61 | the directory keeps the absolute flag; a path with components is its directory followed by its final component, a valid segment; the final component is empty exactly for `/` and the empty path, which are their own directory |
| Paths.DirnameAgrees | redo/util/redo_arg.py:14 | rendering `Dirname(p)` gives Python's `posixpath.dirname` of the rendered path |
| Paths.BasenameAgrees | redo/util/redo_arg.py:15 | `Basename(p)` is Python's `posixpath.basename` of the rendered path |
| Paths.RenderEmpty | redo/util/redo_arg.py:231-234 | the path string is empty, and so false for `if to_return`, exactly when the path is the empty relative path |
| Paths.ParseRender | redo/util/redo_arg.py:8-17 | the functions receive paths as strings; reading back the string of a normalized path gives that path, so the string form loses nothing |
| Paths.SplitExt | redo/util/redo_arg.py:16 | stem + extension is the name; the extension is empty or a dot followed by dot-free text after a stem with a non-dot character |
| Paths.SplitExtNone | redo/util/redo_arg.py:16 | the extension is empty exactly when every dot of the name has only dots before it |
| Paths.SplitExtOf | redo/util/redo_arg.py:16 | a stem with a non-dot character followed by a dotted, dot-free extension splits into exactly that stem and extension |
| Strings.Split | redo/util/redo_arg.py:34 | `str.split` on one character: at least one piece, exactly one iff the separator is absent, no piece contains it, and joining the pieces gives the string back |
| Strings.SplitOfJoin | redo/util/redo_arg.py:34 | splitting the join of separator-free pieces gives the pieces back |
| Strings.Join | redo/util/pydep.py:114 | `sep.join(xs)`; its contract is in `Strings.JoinPieces`, `Strings.JoinSnoc` and `Strings.SplitOfJoin` |
| Strings.JoinPieces | redo/util/pydep.py:114 | the join starts with the first piece, and separator-free pieces leave exactly one separator between neighbours, `|xs| - 1` in all |
| Strings.JoinSnoc | redo/util/pydep.py:114 | joining one more piece appends a separator and that piece |
| Strings.IntToString | src/components/ccsds_downsampler/gen/models/ccsds_downsampler_filters.py:27 | `str(n)`: a minus sign exactly for a negative number, followed by decimal digits whose value is the magnitude, with no leading zero |
| Strings.IntToStringInjective | src/components/ccsds_downsampler/gen/models/ccsds_downsampler_filters.py:27 | different integers have different renderings |
| PyDep.SearchPath | redo/util/pydep.py:26-29 | a given non-empty path is used as is; otherwise `PYTHONPATH` split at colons (at least one colon-free piece, joining back to it); without either, an error |
| PyDep.SearchPathPieces | redo/util/pydep.py:28-29 | without a given path, the search path is the one non-empty list of colon-free pieces that joins back to `PYTHONPATH` |
| PyDep.SearchPathEmptyEnv | redo/util/pydep.py:29 | an empty `PYTHONPATH` gives the search path `[""]`, as `"".split(":")` does |
| PyDep.NotBuilt | redo/util/pydep.py:61-62 | keeps exactly the located files that are not yet built |
| PyDep.NotBuiltAppend | redo/util/pydep.py:61-62 | filtering a concatenation concatenates the filtered parts, so the kept files keep their order |
| PyDep.NotBuiltOne | redo/util/pydep.py:61-62 | a single file is kept exactly when it is not yet built |
| PyDep.NotBuiltKeepsRepeats | redo/util/pydep.py:61-62 | every occurrence of a not-yet-built file is kept, duplicates within one answer included |
| PyDep.Analyse | redo/util/pydep.py:48-62 | no missing modules: only the analysis is logged and nothing is queried or left to build; otherwise the query and its answer are logged, the answer is appended to the located list, and what is left to build is `NotBuilt` of the answer: the answer's files not yet built, in order and with repeats |
| PyDep.Request | redo/util/pydep.py:64-67 | the batch is added to `built_deps` and logged as one rebuild request; the located list is unchanged |
| PyDep.BuildDepsOf | redo/util/pydep.py:48-71 | `built_deps` only grows; the log is extended, starting with the analysis of the file |
| PyDep.BuildEach | redo/util/pydep.py:69-71 | `built_deps` only grows and the log is only extended |
| PyDep.AnalyseConsistent | redo/util/pydep.py:50-67 | one analysis step, with the request that may follow it, keeps the session consistent with its log |
| PyDep.BuildDepsOfConsistent | redo/util/pydep.py:44-71 | the session stays consistent: built files are exactly the requested ones, which are exactly the located ones; no file is requested twice; the log is well ordered |
| PyDep.BuildEachConsistent | redo/util/pydep.py:69-71 | analysing the rest of a batch keeps the session consistent with its log |
| PyDep.BuildDepsOfOrder | redo/util/pydep.py:48-71 | the events a call adds are a `CallLog` of its file: the file's analysis; then, if modules are missing, the query with exactly the missing modules and the database's answer; then, if any answered file is not yet built, one rebuild request whose batch is exactly those files, in answer order and with repeats, followed by the complete logs of the recursive calls for the batch's files, one after the other in batch order, each call seeing the files requested so far as built. This is depth first. `built_deps` grows by exactly the requested files |
| PyDep.BuildEachOrder | redo/util/pydep.py:69-71 | analysing `batch[i..]` adds the complete call logs of those files, one after the other in batch order (`CallsLog`), and `built_deps` grows by exactly the files they request |
| PyDep.CallLogUnique | redo/util/pydep.py:48-71 | a file and the files already built determine its call log: two logs that both satisfy `CallLog` are equal |
| PyDep.DepthFirstIsACall | redo/util/pydep.py:61-71 | when `src`'s answer is `[b0, b1]` and `b0`'s is `[c, d]`, the log `src, query, request [b0, b1], b0, query, request [c, d], c, d, b1` is a call log of `src` |
| PyDep.DepthFirstBuild | redo/util/pydep.py:44-71 | in the same situation, a build of `src` from a fresh session logs exactly that depth-first sequence |
| PyDep.InterleavedIsNoCall | redo/util/pydep.py:64-71 | the same events with `b1` analysed between `c` and `d` are not a call log of `src` for any `b1` other than `c` and `d`: a file of the outer batch cannot start before the inner batch is done |
| PyDep.SplitBatchIsNoCall | redo/util/pydep.py:61-67 | when `src`'s answer `[a, b]` is unbuilt, no log that requests only `[a]` first is a call log of `src`: the whole unbuilt answer goes in one request |
| PyDep.ReversedBatchIsNoCall | redo/util/pydep.py:61-71 | for distinct `a` and `b`, a log that requests `[b, a]` for the answer `[a, b]` is not a call log of `src`: the batch keeps the answer's order |
| PyDep.FoundIsBuilt | redo/util/pydep.py:57-67 | after a file is analysed, every file the database named for it is built |
| PyDep.RebuildingAgainRequestsNothing | redo/util/pydep.py:61-67 | analysing the same file again requests no rebuild and leaves `built_deps` unchanged |
| PyDep.LocatedWithin | redo/util/pydep.py:57-59 | in a consistent session every located file is one the database can name |
| PyDep.FreshBuild | redo/util/pydep.py:44-74 | a build from a fresh session logs the call log of the source file (exact queries, exact batches in answer order, depth first), which `PyDep.CallLogUnique` makes the only possible log; located, found and requested files coincide; nothing is requested twice; the log is well ordered; with no missing modules, nothing is located and only the one analysis is logged |
| PyDep.BuildPydeps | redo/util/pydep.py:44-74 | fails only without a search path; otherwise the result is the set of every located file, equal to the files requested, within the finite universe, with the whole log's guarantees, and the log is the call log of the source file (exact queries, exact batches in answer order, depth first); with nothing missing the result is empty |
| PyDep.Enumerate | redo/util/pydep.py:74 | `list(set(...))`: every element once, and nothing else |
| PyDep.ParentDirs | redo/util/pydep.py:93 | exactly the directories holding the dependencies |
| PyDep.BuildPythonNoUpdate | redo/util/pydep.py:79-82 | returns a duplicate-free list of exactly the dependencies; the search path is unchanged |
| PyDep.BuildPython | redo/util/pydep.py:87-98 | returns the dependencies; the search path keeps its prefix and gains exactly the distinct parent directories of the dependencies |
| PyDep.RunCommand | redo/util/pydep.py:113-115 | the command starts with `PYTHONPATH=$PYTHONPATH:` and ends with ` python ` and the script; between them, colon-free directories can be split back at colons into exactly the list given; with no directories nothing stands between the two |
| PyDep.RunPython | redo/util/pydep.py:104-115 | the command is `PYTHONPATH=$PYTHONPATH:` + the distinct parent directories joined by `:` + ` python ` + the script |
| DownsamplerFilters.MakeEntry | src/components/ccsds_downsampler/gen/models/ccsds_downsampler_filters.py:8-32 | accepted iff apid ≤ 2047 and filter factor ≤ 65535, with the apid checked first; the name is the formatted packet name or `Apid_<apid>`; the description defaults to "" |
| DownsamplerFilters.NegativeValuesAccepted | src/components/ccsds_downsampler/gen/models/ccsds_downsampler_filters.py:10-22 | only upper bounds are checked: negative values pass |
| DownsamplerFilters.DefaultName | src/components/ccsds_downsampler/gen/models/ccsds_downsampler_filters.py:27 | `"Apid_" + str(apid)`; its contract is in `DownsamplerFilters.DefaultNameSpelled` and `DownsamplerFilters.DefaultNamesDiffer` |
| DownsamplerFilters.DefaultNameSpelled | src/components/ccsds_downsampler/gen/models/ccsds_downsampler_filters.py:27 | `Apid_` followed by the decimal digits of the APID, with a minus sign exactly when it is negative and no leading zero |
| DownsamplerFilters.DefaultNamesDiffer | src/components/ccsds_downsampler/gen/models/ccsds_downsampler_filters.py:24-27 | different APIDs get different default names before formatting |
| DownsamplerFilters.RejectDuplicateName | src/components/ccsds_downsampler/gen/models/ccsds_downsampler_filters.py:81-84 | a valid packet whose name was seen is the first rejection, with a duplicate-name error |
| DownsamplerFilters.RejectDuplicateApid | src/components/ccsds_downsampler/gen/models/ccsds_downsampler_filters.py:85-90 | a packet with a new name but a seen APID is the first rejection, with a duplicate-APID error |
| DownsamplerFilters.AcceptNext | src/components/ccsds_downsampler/gen/models/ccsds_downsampler_filters.py:78-92 | a valid packet with new name and APID extends the accepted prefix and its entries |
| DownsamplerFilters.AcceptedDistinct | src/components/ccsds_downsampler/gen/models/ccsds_downsampler_filters.py:78-92 | accepted entries have pairwise distinct APIDs and names |
| DownsamplerFilters.Load | src/components/ccsds_downsampler/gen/models/ccsds_downsampler_filters.py:52-95 | a non-empty specific name is rejected first; otherwise it succeeds iff every packet is valid and names and APIDs are pairwise distinct; the result keeps the formatted model name and the description and lists each packet's entry in input order; the size is 4 bytes per entry; a failure is the first packet's rejection |

## Left out

- Module discovery: `modulefinder` and its monkey-patch in `pydep`. Discovery is the `discover` oracle. The `PYTHONPATH` fallback of `pydep` is modelled, as `PyDep.SearchPath`.
- PyDep.BuildPydeps: the search path is computed once per build, from one reading of `PYTHONPATH`, where `pydep` reads the environment at every analysis. The two agree only while the environment does not change during a build.
- The source database and `redo_ifchange`. The database is the `locate` oracle; a rebuild request is a logged event.
- PyDep.BuildDepsOf: `discover` and `locate` are fixed functions of their arguments. The source runs module discovery again at every analysis (redo/util/pydep.py:33-34, called at line 50), after earlier rebuilds may have created files, and opens a new database query each time (redo/util/pydep.py:56-57). So a file analysed twice gets the same answers in the model, which the source does not promise. `PyDep.RebuildingAgainRequestsNothing` rests on this. So does the reading of `PyDep.NotBuiltKeepsRepeats` that a file repeated in one answer is analysed once per occurrence, each time with the same answers.
- PyDep.BuildDepsOf: a rebuild that fails (an exception from `redo_ifchange`) is not modelled; every request returns.
- PyDep.BuildDepsOf: termination rests on an assumption that every file the database can name lies in one finite set (`LocatesWithin`). The code has no such bound, so a database naming ever new files would make it run forever.
- `sys.path.extend` and `shell.run_command` are not performed. `PyDep.BuildPython` returns the extended path and `PyDep.RunPython` the command string.
- PyDep.Enumerate: Python leaves the order of `list(set(...))` unspecified, so the contract fixes only membership and distinctness.
- `build_py_deps`, `run_py` and the `__main__` block are not modelled. They are caller introspection, a database reset, and printing.
- The `redo_2` and `redo_3` arguments of the rule adapters are not modelled; the adapters do not use them.
- The base-class YAML/schema loading of the filter list and its schema-directory computation are not modelled. A loaded file is given as its `packets`, `description`, specific name and model name.
- `ada.formatVariable` is a parameter `format` of which nothing is assumed.
- DownsamplerFilters.Load: the ordered dictionary keyed by APID is a sequence of entries in input order. Distinct APIDs make the two the same.
- RedoArg.SrcFileToObjFile: targets are assumed non-empty and free of `/`, so the result stays a normalized path. Python accepts any target string; an empty one gives `…/obj//f.o`.
- Paths are normalized: repeated and trailing separators of raw path strings cannot be represented; `.` and `..` are plain segments, as in `posixpath`.
- `os.path.realpath`, `os.sep` on other platforms, and non-POSIX path rules are not modelled.
