// Output-name helpers: the base name of a source path (directory and last
// extension stripped) and the search for the first free "<base>_V_<n>" name
// whose ".mp4" file is absent from the output directory. The repository has
// three copies of the search; they share the definitions below.

module UniqueName {
  import opened EngineTypes
  import opened Decimal

  // ---------------------------------------------------------------------------
  // Path stripping
  // ---------------------------------------------------------------------------

  /** The characters `find_last_of("/\\")` looks for. */
  const Separators: set<char> := {'/', '\\'}

  /** The position of the last character of `s` in `cs`, or None (npos). */
  function LastIndexOf(s: string, cs: set<char>): (r: Option<nat>)
    ensures r.Some? ==> r.value < |s| && s[r.value] in cs
    ensures r.Some? ==> forall j :: r.value < j < |s| ==> s[j] !in cs
    ensures r.None? ==> forall j :: 0 <= j < |s| ==> s[j] !in cs
  {
    if s == [] then None
    else if s[|s| - 1] in cs then Some(|s| - 1)
    else LastIndexOf(s[..|s| - 1], cs)
  }

  /** Everything after the last '/' or '\\'; the whole path if there is none. */
  function StripDirectory(path: string): string
  {
    match LastIndexOf(path, Separators)
    case Some(p) => path[p + 1..]
    case None => path
  }

  /** Everything before the last '.'; the whole name if there is none. */
  function StripExtension(name: string): string
  {
    match LastIndexOf(name, {'.'})
    case Some(d) => name[..d]
    case None => name
  }

  /** `base_name_from_path`: strip the directory, then the last extension. */
  function BaseNameFromPath(fullPath: string): string
  {
    StripExtension(StripDirectory(fullPath))
  }

  /**
   * Stripping the directory leaves the part of the path after its last
   * separator: the path is a directory prefix (empty or ending in a
   * separator) followed by the result, and the result has no separator.
   */
  lemma StripDirectoryIsLastComponent(path: string)
    ensures var r := StripDirectory(path);
            |r| <= |path| && path[|path| - |r|..] == r &&
            (|r| < |path| ==> path[|path| - |r| - 1] in Separators) &&
            (forall j :: 0 <= j < |r| ==> r[j] !in Separators)
  {
    match LastIndexOf(path, Separators)
    case Some(p) =>
      assert StripDirectory(path) == path[p + 1..];
    case None =>
  }

  /**
   * Only the final extension goes: the name is the result, a '.', and an
   * extension without dots; with no dot the name is returned unchanged.
   */
  lemma StripExtensionRemovesLastOnly(name: string)
    ensures var r := StripExtension(name);
            (r == name <==> '.' !in name) &&
            ('.' in name ==> exists ext :: name == r + "." + ext && '.' !in ext)
  {
    match LastIndexOf(name, {'.'})
    case Some(d) =>
      var ext := name[d + 1..];
      assert name == name[..d] + "." + ext;
      assert '.' !in ext by {
        forall j | 0 <= j < |ext| ensures ext[j] != '.' {
          assert ext[j] == name[d + 1 + j];
        }
      }
      assert |name[..d]| < |name|;
    case None =>
      assert '.' !in name by {
        forall j | 0 <= j < |name| ensures name[j] != '.' {
          assert name[j] !in {'.'};
        }
      }
  }

  /** The base name never contains a directory separator. */
  lemma BaseNameHasNoSeparator(fullPath: string)
    ensures forall j :: 0 <= j < |BaseNameFromPath(fullPath)| ==> BaseNameFromPath(fullPath)[j] !in Separators
  {
    var c := StripDirectory(fullPath);
    StripDirectoryIsLastComponent(fullPath);
    var b := BaseNameFromPath(fullPath);
    assert b == c[..|b|] by {
      match LastIndexOf(c, {'.'})
      case Some(d) =>
      case None =>
    }
  }

  /** A path with no separator and no '.' is its own base name. */
  lemma PlainNameUnchanged(path: string)
    requires forall j :: 0 <= j < |path| ==> path[j] !in Separators && path[j] != '.'
    ensures BaseNameFromPath(path) == path
  {
    assert LastIndexOf(path, Separators).None?;
    assert StripDirectory(path) == path;
    assert LastIndexOf(path, {'.'}).None?;
  }

  /** Only the last extension is removed: "a.b.c" gives "a.b". */
  lemma LastExtensionOnly()
    ensures BaseNameFromPath("a.b.c") == "a.b"
  {
    assert LastIndexOf("a.b.c", Separators) == None by {
      assert "a.b.c"[..4] == "a.b.";
      assert "a.b.c"[..4][..3] == "a.b";
      assert "a.b"[..2] == "a.";
      assert "a."[..1] == "a";
      assert "a"[..0] == "";
    }
    assert LastIndexOf("a.b.c", {'.'}) == Some(3) by {
      assert "a.b.c"[..4] == "a.b.";
    }
  }

  /** Dots in directory names play no part: "dir.v2/W_1.h" gives "W_1". */
  lemma DirectoryDotsIgnored()
    ensures BaseNameFromPath("dir.v2/W_1.h") == "W_1"
  {
    var p := "dir.v2/W_1.h";
    assert p == "dir.v2/" + "W_1.h";
    assert forall j :: 0 <= j < |"W_1.h"| ==> "W_1.h"[j] !in Separators;
    assert LastIndexOfSuffix("dir.v2/", "W_1.h", Separators) == Some(6);
    assert StripDirectory(p) == "W_1.h";
    assert LastIndexOf("W_1.h", {'.'}) == Some(3) by {
      assert "W_1.h"[..4] == "W_1.";
    }
  }

  // ---------------------------------------------------------------------------
  // The version search
  // ---------------------------------------------------------------------------

  /** The file system as the search sees it: the file names in each directory. */
  type FileSystem = map<string, set<string>>

  /** The names in `dir`; a directory that does not exist holds nothing. */
  function Listing(fs: FileSystem, dir: string): set<string>
  {
    if dir in fs then fs[dir] else {}
  }

  /** The candidate name for version `v`: base, "_V_", then v in decimal. */
  function Candidate(base: string, v: nat): string
  {
    base + "_V_" + NatToString(v)
  }

  /** A candidate is taken when its ".mp4" file is already in the directory. */
  predicate Taken(existing: set<string>, name: string)
  {
    name + ".mp4" in existing
  }

  /** `v` is the smallest version >= 1 whose candidate is free. */
  predicate FirstFree(base: string, existing: set<string>, v: nat)
  {
    v >= 1 && !Taken(existing, Candidate(base, v)) && TakenBelow(base, existing, v)
  }

  /** The candidates of versions 1 .. v-1 are all taken. */
  predicate TakenBelow(base: string, existing: set<string>, v: nat)
  {
    forall u :: 1 <= u < v ==> Taken(existing, Candidate(base, u))
  }

  /** There is only one first free version. */
  lemma FirstFreeUnique(base: string, existing: set<string>, v1: nat, v2: nat)
    requires FirstFree(base, existing, v1) && FirstFree(base, existing, v2)
    ensures v1 == v2
  {
  }

  /** Different versions give different ".mp4" file names. */
  lemma CandidateFileInjective(base: string, u: nat, v: nat)
    requires Candidate(base, u) + ".mp4" == Candidate(base, v) + ".mp4"
    ensures u == v
  {
    var a, b := Candidate(base, u) + ".mp4", Candidate(base, v) + ".mp4";
    var k := |base| + 3;
    assert |NatToString(u)| == |NatToString(v)|;
    assert a[k..|a| - 4] == NatToString(u);
    assert b[k..|b| - 4] == NatToString(v);
    NatToStringInjective(u, v);
  }

  lemma SubsetCardinality(a: set<string>, b: set<string>)
    requires a <= b
    ensures |a| <= |b|
    decreases |a|
  {
    if a != {} {
      var x :| x in a;
      SubsetCardinality(a - {x}, b - {x});
    }
  }

  /**
   * The loop of `generate_unique_name`: try versions 1, 2, 3, ... and return
   * the first candidate whose ".mp4" is not in the directory. It stops after
   * at most |existing| + 1 candidates, since the taken candidates are distinct
   * files of the directory.
   */
  method FirstFreeName(base: string, existing: set<string>) returns (name: string, version: nat)
    ensures FirstFree(base, existing, version) && name == Candidate(base, version)
    ensures version <= |existing| + 1
  {
    version := 1;
    ghost var seen: set<string> := {};
    while true
      invariant version >= 1
      invariant seen <= existing && |seen| == version - 1
      invariant TakenBelow(base, existing, version)
      invariant SeenBelow(base, seen, version)
      decreases |existing| - |seen|
    {
      var candidate := Candidate(base, version);  // base + "_V_" + decimal version
      if candidate + ".mp4" !in existing {
        FoundFirstFree(base, existing, seen, version);
        return candidate, version;
      }
      SeenGrows(base, existing, seen, version);
      seen := seen + {candidate + ".mp4"};
      version := version + 1;
    }
  }

  /** The loop's exit: the first version whose file is missing is the first free one. */
  lemma FoundFirstFree(base: string, existing: set<string>, seen: set<string>, v: nat)
    requires v >= 1 && seen <= existing && |seen| == v - 1
    requires TakenBelow(base, existing, v)
    requires !Taken(existing, Candidate(base, v))
    ensures FirstFree(base, existing, v) && v <= |existing| + 1
  {
    SubsetCardinality(seen, existing);
  }

  /** Every file in `seen` is the ".mp4" file of a candidate below v. */
  ghost predicate SeenBelow(base: string, seen: set<string>, v: nat)
  {
    forall s :: s in seen ==> exists u :: 1 <= u < v && s == Candidate(base, u) + ".mp4"
  }

  /** A taken candidate's file is new to `seen`, so `seen` grows by one inside the directory. */
  lemma SeenGrows(base: string, existing: set<string>, seen: set<string>, v: nat)
    requires v >= 1 && seen <= existing && |seen| == v - 1 && SeenBelow(base, seen, v)
    requires TakenBelow(base, existing, v) && Taken(existing, Candidate(base, v))
    ensures var seen' := seen + {Candidate(base, v) + ".mp4"};
            seen' <= existing && |seen'| == v && SeenBelow(base, seen', v + 1) &&
            |seen'| <= |existing| && TakenBelow(base, existing, v + 1)
  {
    var file := Candidate(base, v) + ".mp4";
    assert file !in seen by {
      if file in seen {
        var u :| 1 <= u < v && file == Candidate(base, u) + ".mp4";
        CandidateFileInjective(base, u, v);
      }
    }
    SubsetCardinality(seen + {file}, existing);
    forall s | s in seen + {file}
      ensures exists u :: 1 <= u < v + 1 && s == Candidate(base, u) + ".mp4"
    {
      if s == file {
        assert file == Candidate(base, v) + ".mp4";
      } else {
        var u :| 1 <= u < v && s == Candidate(base, u) + ".mp4";
        assert 1 <= u < v + 1;
      }
    }
  }

  /**
   * The directory that `outDir / rel` names a file in: `outDir` itself when
   * `rel` has no separator, else `outDir`, a '/' and the part of `rel` before
   * its last separator.
   */
  function ParentDir(outDir: string, rel: string): string
  {
    match LastIndexOf(rel, Separators)
    case Some(p) => outDir + "/" + rel[..p]
    case None => outDir
  }

  /** `fs::exists(outDir / rel)`: the last component of `rel` is listed in its directory. */
  predicate PathExists(fs: FileSystem, outDir: string, rel: string)
  {
    StripDirectory(rel) in Listing(fs, ParentDir(outDir, rel))
  }

  /** Appending characters outside `cs` does not move the last match. */
  lemma {:induction false} LastIndexOfAppend(s: string, suffix: string, cs: set<char>)
    requires forall j :: 0 <= j < |suffix| ==> suffix[j] !in cs
    ensures LastIndexOf(s + suffix, cs) == LastIndexOf(s, cs)
    decreases |suffix|
  {
    if suffix == [] {
      assert s + suffix == s;
    } else {
      var t := s + suffix;
      assert t[..|t| - 1] == s + suffix[..|suffix| - 1];
      LastIndexOfAppend(s, suffix[..|suffix| - 1], cs);
    }
  }

  /** Appending a suffix without separators keeps the directory and extends the last component. */
  lemma AppendPlainSuffix(outDir: string, base: string, suffix: string)
    requires forall j :: 0 <= j < |suffix| ==> suffix[j] !in Separators
    ensures ParentDir(outDir, base + suffix) == ParentDir(outDir, base)
    ensures StripDirectory(base + suffix) == StripDirectory(base) + suffix
  {
    LastIndexOfAppend(base, suffix, Separators);
    match LastIndexOf(base, Separators)
    case Some(p) =>
      assert (base + suffix)[..p] == base[..p];
      assert (base + suffix)[p + 1..] == base[p + 1..] + suffix;
    case None =>
  }

  /** What a candidate adds after the base name: "_V_", the digits and ".mp4". */
  function CandidateSuffix(v: nat): (suffix: string)
    ensures forall j :: 0 <= j < |suffix| ==> suffix[j] !in Separators
  {
    var digits := NatToString(v);
    var suffix := "_V_" + digits + ".mp4";
    assert forall j :: 3 <= j < 3 + |digits| ==> suffix[j] == digits[j - 3];
    suffix
  }

  /**
   * Probing a candidate's ".mp4" file under `outDir` looks in the directory
   * the base name's own directory part names, for the candidate built from
   * the base name's last component.
   */
  lemma CandidateProbe(fs: FileSystem, outDir: string, base: string, v: nat)
    ensures PathExists(fs, outDir, Candidate(base, v) + ".mp4")
        <==> Taken(Listing(fs, ParentDir(outDir, base)), Candidate(StripDirectory(base), v))
  {
    var suffix := CandidateSuffix(v);
    assert Candidate(base, v) + ".mp4" == base + suffix;
    assert Candidate(StripDirectory(base), v) + ".mp4" == StripDirectory(base) + suffix;
    AppendPlainSuffix(outDir, base, suffix);
  }

  /** A name without separators is probed in `outDir` itself, under its own name. */
  lemma PlainBaseProbesOutputDir(outDir: string, base: string)
    requires forall j :: 0 <= j < |base| ==> base[j] !in Separators
    ensures ParentDir(outDir, base) == outDir && StripDirectory(base) == base
  {
    assert LastIndexOf(base, Separators).None?;
  }

  /**
   * `WireExampleUtils::generate_unique_name(baseName, outputDir)`: the
   * directory is created when missing (a failure is only logged, so the
   * search runs against an empty directory), then versions 1, 2, 3, ... are
   * tried until `outDir / (baseName + "_V_" + version + ".mp4")` does not
   * exist. A base name with a directory part probes that subdirectory.
   */
  method GenerateUniqueName(baseName: string, outputDir: string, fs: FileSystem)
    returns (name: string, version: nat)
    ensures version >= 1 && name == baseName + "_V_" + NatToString(version)
    ensures !PathExists(fs, outputDir, name + ".mp4")
    ensures forall u :: 1 <= u < version ==> PathExists(fs, outputDir, Candidate(baseName, u) + ".mp4")
    ensures FirstFree(StripDirectory(baseName), Listing(fs, ParentDir(outputDir, baseName)), version)
  {
    var dir, leaf := ParentDir(outputDir, baseName), StripDirectory(baseName);
    var leafName;
    leafName, version := FirstFreeName(leaf, Listing(fs, dir));
    name := Candidate(baseName, version);
    forall u | 1 <= u <= version
      ensures PathExists(fs, outputDir, Candidate(baseName, u) + ".mp4")
          <==> Taken(Listing(fs, dir), Candidate(leaf, u))
    {
      CandidateProbe(fs, outputDir, baseName, u);
    }
  }

  /** `WIRE_UNIQUE_NAME(dir)` of WireExampleUtils.h: the call site's file gives the base name. */
  method ExampleUtilsUniqueName(callSiteFile: string, outputDir: string, fs: FileSystem)
    returns (name: string, version: nat)
    ensures FirstFree(BaseNameFromPath(callSiteFile), Listing(fs, outputDir), version)
    ensures name == Candidate(BaseNameFromPath(callSiteFile), version)
  {
    var baseName := BaseNameFromPath(callSiteFile);
    BaseNameHasNoSeparator(callSiteFile);
    PlainBaseProbesOutputDir(outputDir, baseName);
    name, version := GenerateUniqueName(baseName, outputDir, fs);
  }

  /**
   * `wire_generate_unique_name(outputDir, sourceFilePath)` of WireUtil.h: a
   * null source path counts as the empty string.
   */
  method WireGenerateUniqueName(outputDir: string, sourceFilePath: Option<string>, fs: FileSystem)
    returns (name: string, version: nat)
    ensures var path := if sourceFilePath.Some? then sourceFilePath.value else "";
            FirstFree(BaseNameFromPath(path), Listing(fs, outputDir), version) &&
            name == Candidate(BaseNameFromPath(path), version)
  {
    var fullPath := if sourceFilePath.Some? then sourceFilePath.value else "";
    var baseName := BaseNameFromPath(fullPath);
    name, version := FirstFreeName(baseName, Listing(fs, outputDir));
  }

  /** The output directory of example_start.h. */
  const BaseOutputFilepath: string := "C:/Users/Cosmos/Desktop/output/tmp"

  /**
   * `Utils::generate_unique_name()` of example_start.h: the base name comes
   * from the header's own `__FILE__` (`thisFile`), the directory is fixed.
   */
  method ExampleStartUniqueName(thisFile: string, fs: FileSystem)
    returns (name: string, version: nat)
    ensures FirstFree(BaseNameFromPath(thisFile), Listing(fs, BaseOutputFilepath), version)
    ensures name == Candidate(BaseNameFromPath(thisFile), version)
  {
    name, version := FirstFreeName(BaseNameFromPath(thisFile), Listing(fs, BaseOutputFilepath));
  }

  /**
   * Whatever directory the header sits in, the base name example_start.h
   * uses is "example_start": every name it returns starts with it.
   */
  lemma ExampleStartBaseName(dir: string)
    requires dir == [] || dir[|dir| - 1] in Separators
    ensures BaseNameFromPath(dir + "example_start.h") == "example_start"
  {
    var file := "example_start.h";
    var p := dir + file;
    assert forall j :: 0 <= j < |file| ==> file[j] !in Separators;
    assert LastIndexOfSuffix(dir, file, Separators) ==
      (if dir == [] then None else Some(|dir| - 1));
    assert StripDirectory(p) == file by {
      if dir != [] {
        assert p[|dir|..] == file;
      }
    }
    assert LastIndexOf(file, {'.'}) == Some(13) by {
      assert file[..14] == "example_start.";
    }
  }

  /**
   * Searching past a suffix that has none of `cs` finds the last match in the
   * prefix.
   */
  function LastIndexOfSuffix(prefix: string, suffix: string, cs: set<char>): (r: Option<nat>)
    requires forall j :: 0 <= j < |suffix| ==> suffix[j] !in cs
    requires prefix == [] || prefix[|prefix| - 1] in cs
    ensures r == LastIndexOf(prefix + suffix, cs)
    ensures r == (if prefix == [] then None else Some(|prefix| - 1))
    decreases |suffix|
  {
    if suffix == [] then
      assert prefix + suffix == prefix;
      if prefix == [] then None else Some(|prefix| - 1)
    else
      var s := prefix + suffix;
      assert s[..|s| - 1] == prefix + suffix[..|suffix| - 1];
      LastIndexOfSuffix(prefix, suffix[..|suffix| - 1], cs)
  }

  /**
   * The two `WIRE_UNIQUE_NAME` macros agree: for the same call site, output
   * directory and directory contents they return the same name.
   */
  lemma MacrosAgree(callSiteFile: string, outputDir: string, fs: FileSystem,
                    a: string, va: nat, b: string, vb: nat)
    requires FirstFree(BaseNameFromPath(callSiteFile), Listing(fs, outputDir), va)
    requires a == Candidate(BaseNameFromPath(callSiteFile), va)
    requires FirstFree(BaseNameFromPath(callSiteFile), Listing(fs, outputDir), vb)
    requires b == Candidate(BaseNameFromPath(callSiteFile), vb)
    ensures a == b
  {
    FirstFreeUnique(BaseNameFromPath(callSiteFile), Listing(fs, outputDir), va, vb);
  }

  /**
   * The returned name is only a name: without a directory (given a base
   * name, which has none) and without the ".mp4" extension, as it ends in a
   * digit of the version.
   */
  lemma CandidateIsBareName(fullPath: string, v: nat)
    ensures var name := Candidate(BaseNameFromPath(fullPath), v);
            (forall j :: 0 <= j < |name| ==> name[j] !in Separators) &&
            IsDigit(name[|name| - 1])
  {
    var base := BaseNameFromPath(fullPath);
    var name := Candidate(base, v);
    BaseNameHasNoSeparator(fullPath);
    var digits := NatToString(v);
    forall j | 0 <= j < |name|
      ensures name[j] !in Separators
    {
      if j < |base| {
        assert name[j] == base[j];
      } else if j < |base| + 3 {
        assert name[j] == "_V_"[j - |base|];
      } else {
        assert name[j] == digits[j - |base| - 3];
      }
    }
    assert name[|name| - 1] == digits[|digits| - 1];
  }
}
