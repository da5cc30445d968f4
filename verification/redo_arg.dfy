/** The build-tree path algebra of the redo build rules: splitting the
    filename arguments of a `.do` script, decoding model filenames
    (`[specific.]model.type.yaml`), classifying a path against the fixed
    `<root>/build/<category>[/<target>]/<file>` layout, and mapping a source
    file to its object file. Every operation is a pure function of the path. */
module RedoArg {
  import opened Wrappers
  import opened Strings
  import opened Paths

  /** The exceptions and failed assertions of the path functions. */
  datatype RedoArgError =
    | NotYaml(ext: string)                              // split_model_filename: extension is not .yaml
    | WrongModelType(expected: string, found: string)   // split_model_filename: model type differs
    | NotInBuildDirectory(file: NormPath)              // get_build_dir: no build ancestor
    | NoTarget(file: NormPath)                         // get_target: not in a targeted build directory

  // ---------------------------------------------------------------------------
  // Splitting file names

  datatype FileParts = FileParts(dir: NormPath, base: string, ext: string)

  /** split_full_filename: directory, final component without its extension,
      and the extension. */
  function SplitFullFilename(p: NormPath): (r: FileParts)
    ensures r.dir == Dirname(p)
    ensures r.base + r.ext == Basename(p)
    ensures r.ext == "" || (r.ext[0] == ExtSep && ExtSep !in r.ext[1..] && HasNonDot(r.base))
  {
    var se := SplitExt(Basename(p));
    FileParts(Dirname(p), se.0, se.1)
  }

  /** The parts of split_full_filename are what Python's `dirname` and
      `basename` return for the rendered path. */
  lemma SplitFullFilenameAgrees(p: NormPath)
    ensures Render(SplitFullFilename(p).dir) == PyDirname(Render(p))
    ensures SplitFullFilename(p).base + SplitFullFilename(p).ext == PyBasename(Render(p))
  {
    DirnameAgrees(p);
    BasenameAgrees(p);
  }

  /** A file named by a stem containing a non-dot character and a dotted,
      dot-free extension splits back into its directory, stem and extension. */
  lemma SplitFullFilenameOf(dir: NormPath, stem: string, ext: string)
    requires HasNonDot(stem) && Sep !in stem
    requires |ext| > 0 && ext[0] == ExtSep && ExtSep !in ext[1..] && Sep !in ext
    ensures ValidSegment(stem + ext)
    ensures SplitFullFilename(Path(dir.absolute, dir.segs + [stem + ext])) == FileParts(dir, stem, ext)
  {
    var p: NormPath := Path(dir.absolute, dir.segs + [stem + ext]);
    assert Dirname(p) == dir;
    assert Basename(p) == stem + ext;
    SplitExtOf(stem, ext);
  }

  /** split_redo_arg: directory and final component; joining them gives the
      path back. */
  function SplitRedoArg(p: NormPath): (r: (NormPath, string))
    ensures Render(r.0) == PyDirname(Render(p))
    ensures r.1 == PyBasename(Render(p))
    ensures |p.segs| > 0 ==> Path(r.0.absolute, r.0.segs + [r.1]) == p
  {
    DirnameAgrees(p);
    BasenameAgrees(p);
    (Dirname(p), Basename(p))
  }

  /** The five values split_model_filename returns. */
  datatype ModelFileName = ModelFileName(
    dir: NormPath,
    specificName: Option<string>,
    modelName: string,
    modelType: string,
    ext: string)

  /** `s[1:]` in Python: empty for the empty string. */
  function DropFirst(s: string): string { if |s| == 0 then "" else s[1..] }

  /** The specific and model names are read from the dot pieces `a` of the
      stem: one piece is the model name; with more, the first is the specific
      name, the second the model name, and the rest are dropped. */
  predicate PiecesNamed(a: seq<string>, m: ModelFileName)
  {
    if |a| == 1 then m.specificName == None && m.modelName == a[0]
    else |a| > 1 && m.specificName == Some(a[0]) && m.modelName == a[1]
  }

  /** split_model_filename. `expected` is expected_model_type; None and ""
      both mean that the model type is not checked. The stem before the model
      type is split at dots: one piece is the model name; with more, the
      first is the specific name and the second the model name. */
  function SplitModelFilename(p: NormPath, expected: Option<string>): (r: Result<ModelFileName, RedoArgError>)
    ensures SplitFullFilename(p).ext != ".yaml" ==> r == Failure(NotYaml(SplitFullFilename(p).ext))
    ensures r.Failure? <==>
      || SplitFullFilename(p).ext != ".yaml"
      || (expected.Some? && expected.value != "" && SplitExt(SplitFullFilename(p).base).1 != [ExtSep] + expected.value)
    ensures r.Success? ==> r.value.modelType == DropFirst(SplitExt(SplitFullFilename(p).base).1)
    ensures r.Success? ==> PiecesNamed(Split(SplitExt(SplitFullFilename(p).base).0, ExtSep), r.value)
    ensures r.Success? ==> r.value.ext == "yaml" && r.value.dir == Dirname(p)
    ensures r.Success? && expected.Some? && expected.value != "" ==> r.value.modelType == expected.value
    ensures r.Failure? && r.error.WrongModelType? ==> expected.Some? && r.error.expected == expected.value
    ensures r.Success? ==> ExtSep !in r.value.modelName && ExtSep !in r.value.modelType
    ensures r.Success? && r.value.specificName.Some? ==> ExtSep !in r.value.specificName.value
    ensures r.Success? ==> (r.value.specificName.None? <==> ExtSep !in SplitExt(SplitFullFilename(p).base).0)
  {
    var parts := SplitFullFilename(p);
    if parts.ext != ".yaml" then Failure(NotYaml(parts.ext))
    else
      assert parts.dir == Dirname(p);
      SplitModelStem(parts.dir, parts.base, expected)
  }

  /** split_model_filename once the extension is known to be `.yaml`: the
      model type is the extension of `base`, and the rest is split at dots. */
  function SplitModelStem(dir: NormPath, base: string, expected: Option<string>): (r: Result<ModelFileName, RedoArgError>)
    ensures r.Failure? <==> expected.Some? && expected.value != "" && SplitExt(base).1 != [ExtSep] + expected.value
    ensures r.Success? ==> r.value.modelType == DropFirst(SplitExt(base).1)
    ensures r.Success? ==> PiecesNamed(Split(SplitExt(base).0, ExtSep), r.value)
    ensures r.Success? ==> r.value.ext == "yaml" && r.value.dir == dir
    ensures r.Success? && expected.Some? && expected.value != "" ==> r.value.modelType == expected.value
    ensures r.Failure? ==> r.error.WrongModelType? && expected.Some? && r.error.expected == expected.value
    ensures r.Success? ==> ExtSep !in r.value.modelName && ExtSep !in r.value.modelType
    ensures r.Success? && r.value.specificName.Some? ==> ExtSep !in r.value.specificName.value
    ensures r.Success? ==> (r.value.specificName.None? <==> ExtSep !in SplitExt(base).0)
  {
    var st := SplitExt(base);
    var name, modelType := st.0, st.1;
    if expected.Some? && expected.value != "" && modelType != [ExtSep] + expected.value then
      Failure(WrongModelType(expected.value, modelType))
    else
      var a := Split(name, ExtSep);
      var ty := DropFirst(modelType);
      assert ExtSep !in ty;
      if |a| == 1 then Success(ModelFileName(dir, None, a[0], ty, "yaml"))
      else Success(ModelFileName(dir, Some(a[0]), a[1], ty, "yaml"))
  }

  /** A piece of a model filename: free of dots and separators. */
  predicate NamePart(s: string) { ExtSep !in s && Sep !in s }

  /** The part of a model filename before its model type: `[specific.]model`. */
  function ModelStem(specificName: Option<string>, modelName: string): string
  {
    if specificName.Some? then specificName.value + [ExtSep] + modelName else modelName
  }

  /** The model filename `dir/[specific.]model.type.yaml`. */
  function ModelFilename(dir: NormPath, specificName: Option<string>, modelName: string, modelType: string): NormPath
    requires |modelName| > 0 && NamePart(modelName)
    requires |modelType| > 0 && NamePart(modelType)
    requires specificName.Some? ==> NamePart(specificName.value)
  {
    var file := ModelStem(specificName, modelName) + ([ExtSep] + modelType) + ".yaml";
    assert Sep !in file;
    Path(dir.absolute, dir.segs + [file])
  }

  /** The stem of a model filename contains a non-dot character: its model name. */
  lemma ModelStemHasNonDot(specificName: Option<string>, modelName: string)
    requires |modelName| > 0 && NamePart(modelName)
    ensures HasNonDot(ModelStem(specificName, modelName))
  {
    var stem := ModelStem(specificName, modelName);
    var k := |stem| - |modelName|;
    assert stem[k] == modelName[0];
  }

  /** A model filename splits into its directory, its stem and type, and `.yaml`. */
  lemma ModelFilenameParts(dir: NormPath, specificName: Option<string>, modelName: string, modelType: string)
    requires |modelName| > 0 && NamePart(modelName)
    requires |modelType| > 0 && NamePart(modelType)
    requires specificName.Some? ==> NamePart(specificName.value)
    ensures SplitFullFilename(ModelFilename(dir, specificName, modelName, modelType))
         == FileParts(dir, ModelStem(specificName, modelName) + ([ExtSep] + modelType), ".yaml")
  {
    var stem := ModelStem(specificName, modelName) + ([ExtSep] + modelType);
    ModelStemHasNonDot(specificName, modelName);
    assert HasNonDot(stem) by {
      var j :| 0 <= j < |ModelStem(specificName, modelName)| && ModelStem(specificName, modelName)[j] != ExtSep;
      assert stem[j] != ExtSep;
    }
    assert Sep !in stem;
    assert ExtSep !in ".yaml"[1..] by { assert ".yaml"[1..] == "yaml"; }
    SplitFullFilenameOf(dir, stem, ".yaml");
  }

  /** Decoding an encoded model filename gives its parts back, whether or not
      the expected model type is given. */
  lemma SplitModelFilenameRoundTrip(
    dir: NormPath, specificName: Option<string>, modelName: string, modelType: string, expected: Option<string>)
    requires |modelName| > 0 && NamePart(modelName)
    requires |modelType| > 0 && NamePart(modelType)
    requires specificName.Some? ==> NamePart(specificName.value)
    requires expected.Some? ==> expected.value == "" || expected.value == modelType
    ensures SplitModelFilename(ModelFilename(dir, specificName, modelName, modelType), expected)
         == Success(ModelFileName(dir, specificName, modelName, modelType, "yaml"))
  {
    var name := ModelStem(specificName, modelName);
    ModelFilenameParts(dir, specificName, modelName, modelType);
    ModelStemHasNonDot(specificName, modelName);
    SplitExtOf(name, [ExtSep] + modelType);
    assert DropFirst([ExtSep] + modelType) == modelType;
    assert DropFirst(".yaml") == "yaml";
    ModelStemPieces(specificName, modelName);
  }

  /** The stem splits at its dot back into the specific and model names. */
  lemma ModelStemPieces(specificName: Option<string>, modelName: string)
    requires NamePart(modelName)
    requires specificName.Some? ==> NamePart(specificName.value)
    ensures Split(ModelStem(specificName, modelName), ExtSep)
         == if specificName.Some? then [specificName.value, modelName] else [modelName]
  {
    var name := ModelStem(specificName, modelName);
    if specificName.Some? {
      assert name == Join([specificName.value, modelName], ExtSep);
      SplitOfJoin([specificName.value, modelName], ExtSep);
    } else {
      assert Join([name], ExtSep) == name;
      SplitOfJoin([name], ExtSep);
    }
  }

  // ---------------------------------------------------------------------------
  // Directories above a file

  /** The name of the k-th directory above the final component, "" once the
      top of the path has been passed. */
  function AncestorName(p: NormPath, k: nat): string
  {
    if k < |p.segs| then p.segs[|p.segs| - 1 - k] else ""
  }

  /** _get_1_dir: the name of the directory holding the file. */
  function Get1Dir(p: NormPath): (r: string)
    ensures r == AncestorName(p, 1)
  {
    Basename(Dirname(p))
  }

  /** _get_2_dirs: the names of the two directories above the file, outermost first. */
  function Get2Dirs(p: NormPath): (r: (string, string))
    ensures r == (AncestorName(p, 2), AncestorName(p, 1))
  {
    var dir1 := Dirname(p);
    var dir2 := Dirname(dir1);
    (Basename(dir2), Basename(dir1))
  }

  /** _get_3_dirs: the names of the three directories above the file, outermost first. */
  function Get3Dirs(p: NormPath): (r: (string, string, string))
    ensures r == (AncestorName(p, 3), AncestorName(p, 2), AncestorName(p, 1))
  {
    var dir1 := Dirname(p);
    var dir2 := Dirname(dir1);
    var dir3 := Dirname(dir2);
    (Basename(dir3), Basename(dir2), Basename(dir1))
  }

  // ---------------------------------------------------------------------------
  // Build-tree categories

  /** The directories of the build tree, one per in_build_*_dir predicate. */
  datatype Category =
    | Obj | Bin | Src | Yaml | Tex | Svg | Eps | Png | Pdf | Gpr
    | Template | TemplateTarget | Metric

  /** Categories laid out as build/<category>/<target>/<file>. */
  predicate HasTarget(c: Category) { c.Obj? || c.Bin? || c.TemplateTarget? || c.Metric? }

  /** The directory name that follows `build` for a category. */
  function CategoryDir(c: Category): string
  {
    match c
    case Obj => "obj"
    case Bin => "bin"
    case Src => "src"
    case Yaml => "yaml"
    case Tex => "tex"
    case Svg => "svg"
    case Eps => "eps"
    case Png => "png"
    case Pdf => "pdf"
    case Gpr => "gpr"
    case Template => "template"
    case TemplateTarget => "template"
    case Metric => "metric"
  }

  /** in_build_<category>_dir: the file lies in build/<category>/<target>/
      (categories with a target, whose name must be non-empty) or in
      build/<category>/ (the others), matched on whole directory names. */
  function InBuildCategoryDir(p: NormPath, c: Category): (r: bool)
    ensures HasTarget(c) ==>
      (r <==> |p.segs| >= 4 && p.segs[|p.segs| - 4] == "build" && p.segs[|p.segs| - 3] == CategoryDir(c))
    ensures !HasTarget(c) ==>
      (r <==> |p.segs| >= 3 && p.segs[|p.segs| - 3] == "build" && p.segs[|p.segs| - 2] == CategoryDir(c))
  {
    if HasTarget(c) then
      var dirs := Get3Dirs(p);
      dirs.0 == "build" && dirs.1 == CategoryDir(c) && dirs.2 != ""
    else
      var dirs := Get2Dirs(p);
      dirs.0 == "build" && dirs.1 == CategoryDir(c)
  }

  /** The category a directory name after `build` denotes, at the depth of
      the categories with a target or at the depth of the others. */
  function CategoryNamed(dir: string, withTarget: bool): Option<Category>
  {
    if withTarget then
      if dir == "obj" then Some(Obj)
      else if dir == "bin" then Some(Bin)
      else if dir == "template" then Some(TemplateTarget)
      else if dir == "metric" then Some(Metric)
      else None
    else
      if dir == "src" then Some(Src)
      else if dir == "yaml" then Some(Yaml)
      else if dir == "tex" then Some(Tex)
      else if dir == "svg" then Some(Svg)
      else if dir == "eps" then Some(Eps)
      else if dir == "png" then Some(Png)
      else if dir == "pdf" then Some(Pdf)
      else if dir == "gpr" then Some(Gpr)
      else if dir == "template" then Some(Template)
      else None
  }

  /** Each category is recognised by its own directory name, which is never `build`. */
  lemma CategoryNamedInverts(c: Category)
    ensures CategoryNamed(CategoryDir(c), HasTarget(c)) == Some(c)
    ensures CategoryDir(c) != "build"
  {
  }

  /** No path is in two build-tree categories. */
  lemma AtMostOneCategory(p: NormPath, c1: Category, c2: Category)
    requires InBuildCategoryDir(p, c1) && InBuildCategoryDir(p, c2)
    ensures c1 == c2
  {
    CategoryNamedInverts(c1);
    CategoryNamedInverts(c2);
    if HasTarget(c1) == HasTarget(c2) {
      assert CategoryDir(c1) == CategoryDir(c2);
    }
  }

  // ---------------------------------------------------------------------------
  // The build directory, the source root and the target

  /** The ancestor walk of get_build_dir and get_src_dir. `dir` is the current
      directory, whose own name has already been looked at: while that name is
      not "", step up one directory and stop if its name is `build`. Returns
      the first such directory. */
  function FindBuildAbove(dir: NormPath): (r: Option<NormPath>)
    ensures r.Some? ==>
      && r.value.absolute == dir.absolute
      && 0 < |r.value.segs| < |dir.segs|
      && r.value.segs == dir.segs[..|r.value.segs|]
      && Basename(r.value) == "build"
      && forall k :: |r.value.segs| <= k < |dir.segs| - 1 ==> dir.segs[k] != "build"
    ensures r.None? ==> forall k :: 0 <= k < |dir.segs| - 1 ==> dir.segs[k] != "build"
    decreases |dir.segs|
  {
    if Basename(dir) == "" then None
    else
      var up := Dirname(dir);
      assert up.segs == dir.segs[..|dir.segs| - 1];
      if Basename(up) == "build" then Some(up)
      else
        var r := FindBuildAbove(up);
        assert r.Some? ==> r.value.segs == up.segs[..|r.value.segs|] == dir.segs[..|r.value.segs|];
        r
  }

  /** get_build_dir: the nearest ancestor named `build`, looking from the
      file's grandparent upward (the file's own directory is never tested);
      it raises when there is none. */
  function GetBuildDir(p: NormPath): (r: Result<NormPath, RedoArgError>)
    ensures r.Failure? <==> forall k :: 0 <= k < |p.segs| - 2 ==> p.segs[k] != "build"
    ensures r.Failure? ==> r.error == NotInBuildDirectory(p)
    ensures r.Success? ==>
      && r.value.absolute == p.absolute
      && 0 < |r.value.segs| <= |p.segs| - 2
      && r.value.segs == p.segs[..|r.value.segs|]
      && Basename(r.value) == "build"
      && forall k :: |r.value.segs| <= k < |p.segs| - 2 ==> p.segs[k] != "build"
  {
    match FindBuildAbove(Dirname(p))
    case None => Failure(NotInBuildDirectory(p))
    case Some(b) => Success(b)
  }

  /** `to_return if to_return else "."`: the empty path becomes `.`. */
  function OrCurrentDir(d: NormPath): (r: NormPath)
    ensures !IsEmpty(r)
    ensures !IsEmpty(d) ==> r == d
    ensures IsEmpty(d) ==> Render(r) == "."
  {
    if IsEmpty(d) then Path(false, ["."]) else d
  }

  /** get_src_dir: the parent of the build directory get_build_dir finds;
      without one, the file's own directory; `.` in place of an empty path. */
  function GetSrcDir(p: NormPath): (r: NormPath)
    ensures !IsEmpty(r)
    ensures GetBuildDir(p).Success? ==> r == OrCurrentDir(Dirname(GetBuildDir(p).value))
    ensures GetBuildDir(p).Failure? ==> r == OrCurrentDir(Dirname(p))
  {
    var start := Dirname(p);
    match FindBuildAbove(start)
    case None => OrCurrentDir(start)
    case Some(b) => OrCurrentDir(Dirname(b))
  }

  /** The ancestor walk of in_build_dir: look at the current directory's name,
      then step up, until the name is "". */
  function AnyBuildFrom(dir: NormPath): (r: bool)
    ensures r <==> exists k :: 0 <= k < |dir.segs| && dir.segs[k] == "build"
    decreases |dir.segs|
  {
    if Basename(dir) == "" then false
    else if Basename(dir) == "build" then true
    else AnyBuildFrom(Dirname(dir))
  }

  /** in_build_dir: some directory of the path, the file's own included, is
      named `build`. */
  function InBuildDir(p: NormPath): (r: bool)
    ensures r <==> exists k :: 0 <= k < |p.segs| - 1 && p.segs[k] == "build"
  {
    AnyBuildFrom(Dirname(p))
  }

  /** A file whose build directory can be found is in a build directory. */
  lemma BuildDirImpliesInBuildDir(p: NormPath)
    requires GetBuildDir(p).Success?
    ensures InBuildDir(p)
  {
    var b := GetBuildDir(p).value;
    assert p.segs[|b.segs| - 1] == "build";
  }

  /** get_target: the name of the file's directory, for a file in an obj, bin,
      metric or template/<target> directory; otherwise the assertion fails. */
  function GetTarget(p: NormPath): (r: Result<string, RedoArgError>)
    ensures r.Success? <==>
      |p.segs| >= 4 && p.segs[|p.segs| - 4] == "build" && p.segs[|p.segs| - 3] in ["obj", "bin", "metric", "template"]
    ensures r.Success? ==> r.value == p.segs[|p.segs| - 2]
    ensures r.Failure? ==> r.error == NoTarget(p)
  {
    TargetCategories(p);
    if || InBuildCategoryDir(p, Obj)
       || InBuildCategoryDir(p, Bin)
       || InBuildCategoryDir(p, Metric)
       || InBuildCategoryDir(p, TemplateTarget)
    then Success(Get1Dir(p))
    else Failure(NoTarget(p))
  }

  /** The four categories with a target are the ones whose directory is
      obj, bin, metric or template at the depth of a target. */
  lemma TargetCategories(p: NormPath)
    ensures (|| InBuildCategoryDir(p, Obj)
             || InBuildCategoryDir(p, Bin)
             || InBuildCategoryDir(p, Metric)
             || InBuildCategoryDir(p, TemplateTarget))
        <==> |p.segs| >= 4 && p.segs[|p.segs| - 4] == "build" && p.segs[|p.segs| - 3] in ["obj", "bin", "metric", "template"]
    ensures |p.segs| >= 2 ==> Get1Dir(p) == p.segs[|p.segs| - 2]
  {
    if |p.segs| >= 2 {
      assert Dirname(p).segs == p.segs[..|p.segs| - 1];
    }
  }

  /** get_base_no_ext: the final component without its extension. */
  function GetBaseNoExt(p: NormPath): (r: string)
    ensures r == SplitFullFilename(p).base
    ensures r <= Basename(p)
    ensures Basename(p) != "" ==> r != ""
  {
    SplitExt(Basename(p)).0
  }

  /** The path `root/build/obj/<target>/<file>`. */
  function ObjPath(root: NormPath, target: string, file: string): (r: NormPath)
    requires ValidSegment(target) && ValidSegment(file)
  {
    Path(root.absolute, root.segs + ["build", "obj", target, file])
  }

  /** An object path is an obj file of its target. */
  lemma ObjPathClassified(root: NormPath, target: string, file: string)
    requires ValidSegment(target) && ValidSegment(file)
    ensures InBuildCategoryDir(ObjPath(root, target, file), Obj)
    ensures GetTarget(ObjPath(root, target, file)) == Success(target)
  {
    var r := ObjPath(root, target, file);
    var n := |r.segs|;
    assert r.segs[n - 4] == "build" && r.segs[n - 3] == "obj" && r.segs[n - 2] == target;
  }

  /** The first `build` above an object path is the one under the root. */
  lemma ObjPathBuildDir(root: NormPath, target: string, file: string)
    requires ValidSegment(target) && ValidSegment(file)
    ensures FindBuildAbove(Dirname(ObjPath(root, target, file))) == Some(Path(root.absolute, root.segs + ["build"]))
  {
    var r := ObjPath(root, target, file);
    var d1 := Dirname(r);
    assert d1.segs == root.segs + ["build", "obj", target];
    var d2 := Dirname(d1);
    assert d2.segs == root.segs + ["build", "obj"];
    var d3 := Dirname(d2);
    assert d3.segs == root.segs + ["build"];
    assert Basename(d1) == target;
    assert Basename(d2) == "obj";
    assert FindBuildAbove(d1) == FindBuildAbove(d2);
    assert Basename(d3) == "build";
    assert FindBuildAbove(d2) == Some(d3);
  }

  /** The build and source directories of an object path are `root/build` and `root`. */
  lemma ObjPathSourceRoot(root: NormPath, target: string, file: string)
    requires ValidSegment(target) && ValidSegment(file)
    requires !IsEmpty(root)
    ensures GetBuildDir(ObjPath(root, target, file)) == Success(Path(root.absolute, root.segs + ["build"]))
    ensures GetSrcDir(ObjPath(root, target, file)) == root
  {
    ObjPathBuildDir(root, target, file);
    assert Dirname(Path(root.absolute, root.segs + ["build"])) == root;
  }

  /** Everything the object path promises about its classification and its roots. */
  lemma ObjPathFacts(root: NormPath, target: string, file: string)
    requires ValidSegment(target) && ValidSegment(file)
    requires !IsEmpty(root)
    ensures InBuildCategoryDir(ObjPath(root, target, file), Obj)
    ensures GetTarget(ObjPath(root, target, file)) == Success(target)
    ensures GetSrcDir(ObjPath(root, target, file)) == root
    ensures GetBuildDir(ObjPath(root, target, file)).Success?
    ensures Dirname(GetBuildDir(ObjPath(root, target, file)).value) == root
    ensures Basename(ObjPath(root, target, file)) == file
  {
    ObjPathClassified(root, target, file);
    ObjPathSourceRoot(root, target, file);
    assert Dirname(Path(root.absolute, root.segs + ["build"])) == root;
  }

  /** The object file's name `<stem>.o` is a valid path segment. */
  lemma ObjFileNameValid(src: NormPath)
    ensures ValidSegment(GetBaseNoExt(src) + ".o")
  {
    var name := Basename(src);
    assert Sep !in name;
    var se := SplitExt(name);
    FreeOfConcat(se.0, se.1, Sep);
    assert Sep !in ".o";
    FreeOfConcat(se.0, ".o", Sep);
  }

  /** src_file_to_obj_file: `<source root>/build/obj/<target>/<stem>.o`. The
      object file is classified as an obj file of the target and has the same
      source root as the source file. */
  function SrcFileToObjFile(src: NormPath, target: string): (r: NormPath)
    requires ValidSegment(target)
    ensures InBuildCategoryDir(r, Obj)
    ensures GetTarget(r) == Success(target)
    ensures GetSrcDir(r) == GetSrcDir(src)
    ensures GetBuildDir(r).Success? && Dirname(GetBuildDir(r).value) == GetSrcDir(src)
    ensures Basename(r) == GetBaseNoExt(src) + ".o"
  {
    var root := GetSrcDir(src);
    var file := GetBaseNoExt(src) + ".o";
    ObjFileNameValid(src);
    ObjPathFacts(root, target, file);
    ObjPath(root, target, file)
  }

  /** The object file keeps the source file's stem, unless that stem is all
      dots (then `.o` is no longer split off as an extension). */
  lemma ObjFileKeepsStem(src: NormPath, target: string)
    requires ValidSegment(target)
    requires HasNonDot(GetBaseNoExt(src))
    ensures GetBaseNoExt(SrcFileToObjFile(src, target)) == GetBaseNoExt(src)
  {
    SplitExtOf(GetBaseNoExt(src), ".o");
  }

  // ---------------------------------------------------------------------------
  // The examples of the docstrings

  const ExampleFile: NormPath := Path(true, ["path", "to", "file.txt"])
  const ExampleObjFile: NormPath := Path(true, ["path", "to", "build", "obj", "Linux", "file.o"])
  const ExampleBuildFile: NormPath := Path(true, ["path", "to", "build", "file.txt"])
  const ExampleSvgFile: NormPath := Path(true, ["path", "to", "file.svg"])
  const ExampleTemplateFile: NormPath := Path(true, ["p", "build", "template", "ARM", "x.t"])
  const ExampleRoot: NormPath := Path(true, ["path", "to"])

  const ExampleThreePieces: NormPath := Path(true, ["path", "to", "a.b.c.t.yaml"])

  /** `a.b.c` splits at its dots into three pieces. */
  lemma ExampleThreeDotPieces()
    ensures Split("a.b.c", ExtSep) == ["a", "b", "c"]
  {
    var pieces := ["a", "b", "c"];
    assert Join(pieces[2..], ExtSep) == "c";
    assert Join(pieces[1..], ExtSep) == "b.c";
    assert Join(pieces, ExtSep) == "a.b.c";
    SplitOfJoin(pieces, ExtSep);
  }

  /** `a.b.c.t` has model type `.t` after the stem `a.b.c`. */
  lemma ExampleThreePiecesType()
    ensures SplitExt("a.b.c.t") == ("a.b.c", ".t")
  {
    var name, ty := "a.b.c", ".t";
    assert HasNonDot(name) by { assert name[0] != ExtSep; }
    assert ExtSep !in ty[1..] by { assert ty[1..] == "t"; }
    assert name + ty == "a.b.c.t";
    SplitExtOf(name, ty);
  }

  /** The stem `a.b.c.t` names specific name `a`, model name `b` and type `t`. */
  lemma ExampleStemDropsPieces()
    ensures SplitModelStem(ExampleRoot, "a.b.c.t", None) == Success(ModelFileName(ExampleRoot, Some("a"), "b", "t", "yaml"))
  {
    ExampleThreePiecesType();
    ExampleThreeDotPieces();
    var r := SplitModelStem(ExampleRoot, "a.b.c.t", None);
    assert r.Success? && r.value.modelType == DropFirst(".t") == "t";
    assert PiecesNamed(["a", "b", "c"], r.value);
  }

  /** A model filename with three dot pieces before its type keeps the first
      two as specific and model name and drops the third. */
  lemma ExampleSplitModelDropsPieces()
    ensures SplitModelFilename(ExampleThreePieces, None) == Success(ModelFileName(ExampleRoot, Some("a"), "b", "t", "yaml"))
  {
    var stem, ext := "a.b.c.t", ".yaml";
    assert HasNonDot(stem) by { assert stem[0] != ExtSep; }
    assert ExtSep !in ext[1..] by { assert ext[1..] == "yaml"; }
    assert stem + ext == "a.b.c.t.yaml";
    assert ExampleRoot.segs + [stem + ext] == ExampleThreePieces.segs;
    SplitFullFilenameOf(ExampleRoot, stem, ext);
    ExampleStemDropsPieces();
  }

  /** `/path/to/file.txt` splits into `/path/to`, `file` and `.txt`. */
  lemma ExampleSplitFullFilename()
    ensures SplitFullFilename(ExampleFile) == FileParts(ExampleRoot, "file", ".txt")
  {
    var stem, ext := "file", ".txt";
    assert HasNonDot(stem) by { assert stem[0] != ExtSep; }
    assert ExtSep !in ext[1..] by { assert ext[1..] == "txt"; }
    assert stem + ext == "file.txt";
    assert ExampleRoot.segs + [stem + ext] == ExampleFile.segs;
    SplitFullFilenameOf(ExampleRoot, stem, ext);
  }

  /** The source root of `/path/to/build/obj/Linux/file.o` is `/path/to`. */
  lemma ExampleSrcDir()
    ensures GetSrcDir(ExampleObjFile) == ExampleRoot
  {
    assert ExampleObjFile == ObjPath(ExampleRoot, "Linux", "file.o");
    ObjPathSourceRoot(ExampleRoot, "Linux", "file.o");
  }

  /** The code returns the build directory itself, not the source root. */
  lemma ExampleBuildDir()
    ensures GetBuildDir(ExampleObjFile) == Success(Path(true, ["path", "to", "build"]))
  {
    assert ExampleObjFile == ObjPath(ExampleRoot, "Linux", "file.o");
    ObjPathSourceRoot(ExampleRoot, "Linux", "file.o");
    assert ["path", "to"] + ["build"] == ["path", "to", "build"];
  }

  /** A file directly inside `build` is in the build directory, yet its build
      directory cannot be found, because get_build_dir never tests the file's
      own directory. */
  lemma ExampleBuildDirSkipsParent()
    ensures InBuildDir(ExampleBuildFile)
    ensures GetBuildDir(ExampleBuildFile).Failure?
    ensures !InBuildDir(ExampleSvgFile)
  {
    assert ExampleBuildFile.segs[2] == "build";
  }

  /** `build/template/<target>/` is the template-target layout, not the
      plain template one, and its target is the directory name after it. */
  lemma ExampleTemplateTarget()
    ensures InBuildCategoryDir(ExampleTemplateFile, TemplateTarget)
    ensures !InBuildCategoryDir(ExampleTemplateFile, Template)
    ensures GetTarget(ExampleTemplateFile) == Success("ARM")
  {
  }
}
