/** Paths as the build scripts see them, and the three `os.path` operations
    they use: `dirname`, `basename` and `splitext` (POSIX rules).

    A path is modelled by whether it is absolute and by its components, each
    non-empty and free of `/` (a normalized path: no repeated or trailing
    slashes). `Render` gives the string Python would hold; `Parse` reads it
    back, and `dirname` and `basename` on paths are proved to agree with
    Python's string definitions on the rendered string. */
module Paths {
  import opened Wrappers
  import opened Strings

  const Sep: char := '/'
  const ExtSep: char := '.'

  /** A path component: non-empty and free of the separator. */
  predicate ValidSegment(s: string) { |s| > 0 && Sep !in s }

  datatype Path = Path(absolute: bool, segs: seq<string>)

  /** Every segment of the path is valid. */
  predicate WellFormed(p: Path) { forall i :: 0 <= i < |p.segs| ==> ValidSegment(p.segs[i]) }

  /** A normalized path. `Path(false, [])` is the empty string, `Path(true, [])` is `/`. */
  type NormPath = p: Path | WellFormed(p) witness Path(false, [])

  /** True of the one path whose string is empty, which Python treats as false. */
  predicate IsEmpty(p: Path) { !p.absolute && |p.segs| == 0 }

  /** The path string Python holds. */
  function Render(p: Path): string
  {
    (if p.absolute then [Sep] else "") + Join(p.segs, Sep)
  }

  /** Reads a normalized path string. */
  function Parse(s: string): Path
  {
    if |s| == 0 then Path(false, [])
    else if s[0] == Sep then
      if |s| == 1 then Path(true, []) else Path(true, Split(s[1..], Sep))
    else Path(false, Split(s, Sep))
  }

  /** `os.path.dirname` on the model: drop the final component. */
  function Dirname(p: NormPath): NormPath
  {
    if |p.segs| == 0 then p else Path(p.absolute, p.segs[..|p.segs| - 1])
  }

  /** `os.path.basename` on the model: the final component, or "" for `/` and "". */
  function Basename(p: NormPath): string
  {
    if |p.segs| == 0 then "" else p.segs[|p.segs| - 1]
  }

  /** A path with components is its directory followed by its final
      component; only `/` and the empty path have an empty final component. */
  lemma DirnameBasename(p: NormPath)
    ensures Dirname(p).absolute == p.absolute
    ensures Basename(p) == "" <==> |p.segs| == 0
    ensures |p.segs| > 0 ==> Dirname(p).segs + [Basename(p)] == p.segs && ValidSegment(Basename(p))
    ensures |p.segs| == 0 ==> Dirname(p) == p
  {
  }

  /** `p.rfind("/") + 1`: where the final component of a path string starts. */
  function AfterLastSep(s: string): (i: nat)
    ensures i <= |s|
  {
    match LastIndex(s, Sep)
    case None => 0
    case Some(k) => k + 1
  }

  /** The string consists of separators only. */
  predicate AllSeps(s: string) { forall i :: 0 <= i < |s| ==> s[i] == Sep }

  /** `s.rstrip("/")`. */
  function RStripSep(s: string): string
  {
    if |s| > 0 && s[|s| - 1] == Sep then RStripSep(s[..|s| - 1]) else s
  }

  /** Python's `posixpath.basename` on a string. */
  function PyBasename(s: string): string
  {
    s[AfterLastSep(s)..]
  }

  /** Python's `posixpath.dirname` on a string. */
  function PyDirname(s: string): string
  {
    var head := s[..AfterLastSep(s)];
    if head != "" && !AllSeps(head) then RStripSep(head) else head
  }

  /** The path string is empty exactly for the empty relative path. */
  lemma RenderEmpty(p: NormPath)
    ensures Render(p) == "" <==> IsEmpty(p)
  {
    if |p.segs| > 0 {
      assert |Join(p.segs, Sep)| >= |p.segs[0]|;
    }
  }

  /** Rendering a path of at least two components puts a separator between
      its directory and its final component. */
  lemma RenderSnoc(p: NormPath)
    requires |p.segs| >= 2
    ensures Render(p) == Render(Dirname(p)) + [Sep] + Basename(p)
  {
    var n := |p.segs|;
    assert p.segs == p.segs[..n - 1] + [p.segs[n - 1]];
    JoinSnoc(p.segs[..n - 1], p.segs[n - 1], Sep);
  }

  /** A rendered path with components ends in the last character of its final component. */
  lemma RenderEndsWithBasename(p: NormPath)
    requires |p.segs| >= 1
    ensures |Render(p)| >= |Basename(p)|
    ensures Render(p)[|Render(p)| - |Basename(p)|..] == Basename(p)
  {
    if |p.segs| >= 2 {
      RenderSnoc(p);
    }
  }

  /** Reading back a rendered normalized path gives the path. */
  lemma ParseRender(p: NormPath)
    ensures Parse(Render(p)) == p
  {
    var s := Render(p);
    if |p.segs| > 0 {
      var j := Join(p.segs, Sep);
      assert j[..|p.segs[0]|] == p.segs[0] by {
        if |p.segs| > 1 { assert j == p.segs[0] + [Sep] + Join(p.segs[1..], Sep); }
      }
      assert j[0] == p.segs[0][0];
      assert p.segs[0][0] != Sep by { assert ValidSegment(p.segs[0]); }
      SplitOfJoin(p.segs, Sep);
      if p.absolute {
        assert s == [Sep] + j;
        assert s[1..] == j;
        assert Parse(s) == Path(true, Split(j, Sep));
      } else {
        assert s == j;
        assert Parse(s) == Path(false, Split(j, Sep));
      }
    }
  }

  /** The path form of `dirname` renders to what `os.path.dirname` returns for
      the rendered path. */
  lemma DirnameAgrees(p: NormPath)
    ensures Render(Dirname(p)) == PyDirname(Render(p))
  {
    var s := Render(p);
    var n := |p.segs|;
    if n == 0 {
      if p.absolute {
        LastIndexAt(s, Sep, 0);
      }
    } else if n == 1 {
      assert Join(p.segs, Sep) == p.segs[0];
      if p.absolute {
        LastIndexAt(s, Sep, 0);
        assert s[..1] == [Sep];
      }
    } else {
      DirnameAgreesNested(p);
    }
  }

  /** `DirnameAgrees` for a path of two or more segments. */
  lemma DirnameAgreesNested(p: NormPath)
    requires |p.segs| >= 2
    ensures Render(Dirname(p)) == PyDirname(Render(p))
  {
    var s := Render(p);
    var d := Dirname(p);
    var x := Render(d);
    RenderSnoc(p);
    assert s[|x| + 1..] == Basename(p);
    LastIndexAt(s, Sep, |x|);
    assert AfterLastSep(s) == |x| + 1;
    var head := s[..|x| + 1];
    assert head == x + [Sep];
    assert x[|x| - 1] != Sep by {
      RenderEndsWithBasename(d);
      var lastSeg := Basename(d);
      assert ValidSegment(lastSeg);
      assert x[|x| - 1] == lastSeg[|lastSeg| - 1];
    }
    assert head[|x| - 1] != Sep;
    assert !AllSeps(head);
    assert head[..|head| - 1] == x;
    assert RStripSep(head) == RStripSep(x);
  }

  /** The path form of `basename` is what `os.path.basename` returns for the
      rendered path. */
  lemma BasenameAgrees(p: NormPath)
    ensures Basename(p) == PyBasename(Render(p))
  {
    var s := Render(p);
    var n := |p.segs|;
    if n == 0 {
      if p.absolute {
        LastIndexAt(s, Sep, 0);
      }
    } else if n == 1 {
      assert Join(p.segs, Sep) == p.segs[0];
      if p.absolute {
        LastIndexAt(s, Sep, 0);
      }
    } else {
      var x := Render(Dirname(p));
      RenderSnoc(p);
      assert s[|x| + 1..] == Basename(p);
      LastIndexAt(s, Sep, |x|);
    }
  }

  /** Some character of `s` is not a dot. */
  predicate HasNonDot(s: string) { exists j :: 0 <= j < |s| && s[j] != ExtSep }

  /** `os.path.splitext` on a final component: the extension runs from the
      last dot to the end, unless only dots precede that dot (`.bashrc`,
      `..`), in which case there is no extension. */
  function SplitExt(name: string): (r: (string, string))
    ensures r.0 + r.1 == name
    ensures r.1 != "" ==> r.1[0] == ExtSep && ExtSep !in r.1[1..] && HasNonDot(r.0)
    ensures r.1 == "" ==> r.0 == name
  {
    match LastIndex(name, ExtSep)
    case None => (name, "")
    case Some(d) =>
      if HasNonDot(name[..d]) then
        assert name[d..][1..] == name[d + 1..];
        (name[..d], name[d..])
      else (name, "")
  }

  /** A name has no extension exactly when every dot in it is preceded by
      dots only. */
  lemma SplitExtNone(name: string)
    ensures SplitExt(name).1 == "" <==>
      forall i :: 0 <= i < |name| && name[i] == ExtSep ==> !HasNonDot(name[..i])
  {
    match LastIndex(name, ExtSep)
    case None =>
    case Some(d) =>
      if !HasNonDot(name[..d]) {
        assert forall i :: d < i < |name| ==> name[i] != ExtSep by {
          forall i | d < i < |name| ensures name[i] != ExtSep {
            assert name[i] == name[d + 1..][i - d - 1];
          }
        }
        assert forall i :: 0 <= i <= d ==> name[..i] == name[..d][..i];
      }
  }

  /** A name made of a stem containing a non-dot character and a dotted,
      dot-free extension splits into exactly that stem and extension. */
  lemma SplitExtOf(stem: string, ext: string)
    requires HasNonDot(stem)
    requires |ext| > 0 && ext[0] == ExtSep && ExtSep !in ext[1..]
    ensures SplitExt(stem + ext) == (stem, ext)
  {
    var name := stem + ext;
    assert name[|stem|] == ExtSep;
    assert ExtSep !in name[|stem| + 1..] by { assert name[|stem| + 1..] == ext[1..]; }
    LastIndexAt(name, ExtSep, |stem|);
    assert name[..|stem|] == stem;
  }
}
