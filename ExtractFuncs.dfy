/**
 * extract_func_methods.py: strip UTF-8 byte-order marks from the Python
 * files of the cloned repositories, then collect the functions and methods
 * the extractor finds and write them to the experiment's extraction file,
 * unless that file exists and overwriting was not asked for.
 *
 * The file system is a class: a map from paths to contents, a set of
 * directories and the log of the paths written.  Directory walks and globs
 * visit their entries in no particular order, so the loops pick entries with
 * `:|`.  The extractor and the JSON encoder are collaborators: the
 * extractor's outputs are given, the encoder is a function parameter.
 */
module ExtractFuncs {
  import opened StringUtils

  newtype byte = x: int | 0 <= x < 256

  const Bom: seq<byte> := [0xEF, 0xBB, 0xBF]
  const PySuffix: string := ".py"
  const RepoDirPrefix: string := "dir"
  const ExtractedDir: string := "extracted_data"
  const ExtractedSuffix: string := "_extracted.json"

  /** A function or method found by the extractor. */
  datatype Extracted = Extracted(id: string)

  /** One result of the parallel extraction: the repository's functions and methods, or a failure. */
  datatype Extraction = Succeeded(functions: seq<Extracted>, methods: seq<Extracted>) | Failed(tb: string)

  predicate HasBom(content: seq<byte>) {
    |content| >= 3 && content[..3] == Bom
  }

  /** `content[3:]` if the content starts with the mark, the content otherwise. */
  function StripBom(content: seq<byte>): (r: seq<byte>)
    ensures |r| == if HasBom(content) then |content| - 3 else |content|
  {
    if HasBom(content) then content[3..] else content
  }

  /** Exactly one mark is removed, even from a content that starts with two. */
  lemma BomRemovedOnce(c: seq<byte>)
    ensures StripBom(Bom + c) == c
    ensures HasBom(c) ==> HasBom(StripBom(Bom + c))
  {
    assert (Bom + c)[..3] == Bom;
    assert (Bom + c)[3..] == c;
  }

  /** The content is left unchanged exactly when it does not start with the mark. */
  lemma StripBomUnchangedIff(c: seq<byte>)
    ensures StripBom(c) == c <==> !HasBom(c)
  {
  }

  /** `file_path` lies inside the directory `dir`. */
  predicate Under(p: string, dir: string) {
    StartsWith(p, dir + "/")
  }

  /** A file `remove_bom_from_directory(dir)` rewrites. */
  predicate Rewritten(files: map<string, seq<byte>>, dir: string, p: string) {
    p in files && Under(p, dir) && EndsWith(p, PySuffix) && HasBom(files[p])
  }

  /** The files after `remove_bom_from_directory(dir)`: every `.py` file below `dir` loses a leading mark. */
  function StripDirectory(files: map<string, seq<byte>>, dir: string): (r: map<string, seq<byte>>)
    ensures r.Keys == files.Keys
  {
    map p | p in files :: if Under(p, dir) && EndsWith(p, PySuffix) then StripBom(files[p]) else files[p]
  }

  /** Files that are not Python files, or lie elsewhere, are untouched. */
  lemma OnlyPythonFilesBelowChange(files: map<string, seq<byte>>, dir: string, p: string)
    requires p in files
    ensures StripDirectory(files, dir)[p] != files[p] ==> Under(p, dir) && EndsWith(p, PySuffix) && HasBom(files[p])
  {
  }

  /** A repository directory `glob("dir*")` yields: a direct child of the repositories' directory named `dir…`. */
  predicate IsRepoDir(d: string, reposDir: string) {
    StartsWith(d, reposDir + "/" + RepoDirPrefix) && '/' !in d[|reposDir| + 1..]
  }

  /** A path lies below at most one repository directory. */
  lemma UnderOneRepoDir(p: string, d1: string, d2: string, reposDir: string)
    requires IsRepoDir(d1, reposDir) && IsRepoDir(d2, reposDir)
    requires Under(p, d1) && Under(p, d2)
    ensures d1 == d2
  {
    var n := |reposDir| + 1;
    assert p[|d1|] == '/' && p[|d2|] == '/';
    assert forall k :: n <= k < |d1| ==> p[k] == d1[n..][k - n];
    assert forall k :: n <= k < |d2| ==> p[k] == d2[n..][k - n];
    assert |d1| == |d2|;
    assert d1 == p[..|d1|] && d2 == p[..|d2|];
  }

  /** Below some directory of `ds`. */
  ghost predicate UnderAny(p: string, ds: set<string>) {
    exists d :: d in ds && Under(p, d)
  }

  /** The files after `remove_bom_from_directory` of every directory in `ds`. */
  ghost function StripAll(files: map<string, seq<byte>>, ds: set<string>): (r: map<string, seq<byte>>)
    ensures r.Keys == files.Keys
  {
    map p | p in files :: if UnderAny(p, ds) && EndsWith(p, PySuffix) then StripBom(files[p]) else files[p]
  }

  /** Stripping one more repository directory, disjoint from the others, extends the union. */
  lemma StripAllStep(files: map<string, seq<byte>>, ds: set<string>, d: string, reposDir: string)
    requires forall e :: e in ds ==> IsRepoDir(e, reposDir)
    requires IsRepoDir(d, reposDir) && d !in ds
    ensures StripDirectory(StripAll(files, ds), d) == StripAll(files, ds + {d})
  {
    forall p | p in files
      ensures StripDirectory(StripAll(files, ds), d)[p] == StripAll(files, ds + {d})[p]
    {
      if Under(p, d) {
        if UnderAny(p, ds) {
          var e :| e in ds && Under(p, e);
          UnderOneRepoDir(p, d, e, reposDir);
        }
      } else if UnderAny(p, ds + {d}) {
        var e :| e in ds + {d} && Under(p, e);
        assert UnderAny(p, ds);
      }
    }
  }

  /** All functions, then all methods, of the successful outputs in order; failures add nothing. */
  function Collected(outputs: seq<Extraction>): (seq<Extracted>, seq<Extracted>) {
    if outputs == [] then ([], [])
    else
      var (fs, ms) := Collected(outputs[..|outputs| - 1]);
      match outputs[|outputs| - 1]
      case Failed(_) => (fs, ms)
      case Succeeded(f, m) => (fs + f, ms + m)
  }

  lemma {:induction false} CollectedAppend(a: seq<Extraction>, b: seq<Extraction>)
    ensures Collected(a + b).0 == Collected(a).0 + Collected(b).0
    ensures Collected(a + b).1 == Collected(a).1 + Collected(b).1
    decreases |b|
  {
    if b == [] {
      assert a + b == a;
    } else {
      var n := |b| - 1;
      assert (a + b)[..|a + b| - 1] == a + b[..n];
      CollectedAppend(a, b[..n]);
    }
  }

  /** A failed extraction contributes nothing, wherever it comes. */
  lemma FailedContributesNothing(a: seq<Extraction>, tb: string, b: seq<Extraction>)
    ensures Collected(a + [Failed(tb)] + b) == Collected(a + b)
  {
    CollectedAppend(a + [Failed(tb)], b);
    CollectedAppend(a, b);
    assert (a + [Failed(tb)])[..|a|] == a;
  }

  /** A function is collected iff some successful output found it. */
  lemma {:induction false} CollectedFunctions(outputs: seq<Extraction>, u: Extracted)
    ensures u in Collected(outputs).0 <==>
      exists i :: 0 <= i < |outputs| && outputs[i].Succeeded? && u in outputs[i].functions
  {
    if outputs != [] {
      var n := |outputs| - 1;
      var init := outputs[..n];
      CollectedFunctions(init, u);
      if exists i :: 0 <= i < |outputs| && outputs[i].Succeeded? && u in outputs[i].functions {
        var i :| 0 <= i < |outputs| && outputs[i].Succeeded? && u in outputs[i].functions;
        if i < n {
          assert init[i] == outputs[i];
        }
      }
      if exists i :: 0 <= i < |init| && init[i].Succeeded? && u in init[i].functions {
        var i :| 0 <= i < |init| && init[i].Succeeded? && u in init[i].functions;
        assert outputs[i] == init[i];
      }
    }
  }

  /** `repo_url.split("/")[-1]`. */
  function RepoName(repoUrl: string): (name: string)
    ensures '/' !in name
  {
    var parts := Split(repoUrl, '/');
    SplitSegments(repoUrl, '/');
    parts[|parts| - 1]
  }

  /** The name is the URL's last segment. */
  lemma RepoNameOfUrl(prefix: string, name: string)
    requires '/' !in name
    ensures RepoName(prefix + "/" + name) == name
  {
    assert prefix + "/" + name == prefix + ['/'] + name;
    SplitLast(prefix, '/', name);
  }

  /** `REPOS_DIR / f"dir_{repo_name}" / "extracted_data"`. */
  function ExtractionRepo(reposDir: string, repoUrl: string): string {
    reposDir + "/" + RepoDirPrefix + "_" + RepoName(repoUrl) + "/" + ExtractedDir
  }

  /** `extraction_repo / f"{exp_id}_extracted.json"`. */
  function ExtractionPath(reposDir: string, repoUrl: string, expId: string): (p: string)
    ensures Under(p, ExtractionRepo(reposDir, repoUrl)) && EndsWith(p, ExtractedSuffix)
  {
    var dir := ExtractionRepo(reposDir, repoUrl);
    var p := dir + "/" + expId + ExtractedSuffix;
    assert p[..|dir + "/"|] == dir + "/";
    assert p[|p| - |ExtractedSuffix|..] == ExtractedSuffix;
    p
  }

  /** The extraction file is never a Python file, so stripping marks leaves it alone. */
  lemma ExtractionPathIsNotPython(reposDir: string, repoUrl: string, expId: string)
    ensures !EndsWith(ExtractionPath(reposDir, repoUrl, expId), PySuffix)
  {
    var p := ExtractionPath(reposDir, repoUrl, expId);
    assert p[|p| - 1] == 'n';
  }

  /** `mkdir(parents=True)` of the extraction directory: it and its repository folder. */
  function MadeDirs(reposDir: string, repoUrl: string): set<string> {
    {reposDir, reposDir + "/" + RepoDirPrefix + "_" + RepoName(repoUrl), ExtractionRepo(reposDir, repoUrl)}
  }

  /** Every `.py` file of `done` lost its mark, every other file is as it was. */
  ghost predicate StrippedSoFar(files: map<string, seq<byte>>, orig: map<string, seq<byte>>, done: set<string>) {
    files.Keys == orig.Keys &&
    forall p :: p in files ==> files[p] == if p in done && EndsWith(p, PySuffix) then StripBom(orig[p]) else orig[p]
  }

  /** The paths written so far are the rewritten files of `done`. */
  ghost predicate WrittenSoFar(ws: seq<string>, orig: map<string, seq<byte>>, dir: string, done: set<string>) {
    forall p :: p in ws <==> p in done && Rewritten(orig, dir, p)
  }

  ghost function BelowDir(files: map<string, seq<byte>>, dir: string): set<string> {
    set p | p in files && Under(p, dir)
  }

  lemma StripStep(f0: map<string, seq<byte>>, orig: map<string, seq<byte>>, done: set<string>, q: string,
                  f1: map<string, seq<byte>>)
    requires StrippedSoFar(f0, orig, done) && q in orig && q !in done
    requires f1 == if EndsWith(q, PySuffix) && HasBom(f0[q]) then f0[q := StripBom(f0[q])] else f0
    ensures StrippedSoFar(f1, orig, done + {q})
  {
  }

  lemma WrittenStep(ws0: seq<string>, orig: map<string, seq<byte>>, dir: string, done: set<string>, q: string,
                    ws1: seq<string>)
    requires WrittenSoFar(ws0, orig, dir, done) && q in BelowDir(orig, dir)
    requires ws1 == ws0 + if EndsWith(q, PySuffix) && HasBom(orig[q]) then [q] else []
    ensures WrittenSoFar(ws1, orig, dir, done + {q})
  {
  }

  lemma StrippedAll(files: map<string, seq<byte>>, orig: map<string, seq<byte>>, dir: string, done: set<string>)
    requires StrippedSoFar(files, orig, done) && done == BelowDir(orig, dir)
    ensures files == StripDirectory(orig, dir)
  {
  }

  /** Moving one element from the files still to visit to the visited ones keeps their union and disjointness. */
  lemma MoveOne<T>(walk: set<T>, done: set<T>, x: T)
    requires x in walk && walk !! done
    ensures (walk - {x}) !! (done + {x}) && (walk - {x}) + (done + {x}) == walk + done
  {
  }

  class FileSystem {
    var files: map<string, seq<byte>>
    var dirs: set<string>
    var writes: seq<string>

    constructor (files: map<string, seq<byte>>, dirs: set<string>)
      ensures this.files == files && this.dirs == dirs && writes == []
    {
      this.files := files;
      this.dirs := dirs;
      writes := [];
    }

    /** The repository directories `REPOS_DIR.glob("dir*")` yields. */
    function RepoDirs(reposDir: string): (ds: set<string>)
      reads this`dirs
      ensures forall d :: d in ds <==> d in dirs && IsRepoDir(d, reposDir)
    {
      set d | d in dirs && IsRepoDir(d, reposDir)
    }

    /** `remove_bom_from_file`: rewrites the file without its mark, and only if it had one. */
    method RemoveBomFromFile(path: string)
      requires path in files
      modifies this
      ensures files == if HasBom(old(files)[path]) then old(files)[path := StripBom(old(files)[path])] else old(files)
      ensures writes == old(writes) + if HasBom(old(files)[path]) then [path] else []
      ensures dirs == old(dirs)
    {
      var content := files[path];
      if |content| >= 3 && content[..3] == Bom {
        content := content[3..];
        files := files[path := content];
        writes := writes + [path];
      }
    }

    /** `remove_bom_from_directory`: every `.py` file below `dir`, in walk order. */
    method RemoveBomFromDirectory(dir: string)
      modifies this
      ensures files == StripDirectory(old(files), dir)
      ensures dirs == old(dirs)
      ensures Extends(writes, old(writes))
      ensures forall p :: p in writes[|old(writes)|..] <==> Rewritten(old(files), dir, p)
    {
      var walk := set p | p in files && Under(p, dir);
      ghost var done: set<string> := {};
      ghost var orig := files;
      ghost var ws: seq<string> := [];
      ghost var below := BelowDir(orig, dir);
      while walk != {}
        invariant walk !! done && walk + done == below
        invariant dirs == old(dirs)
        invariant StrippedSoFar(files, orig, done)
        invariant writes == old(writes) + ws && WrittenSoFar(ws, orig, dir, done)
        decreases |walk|
      {
        var filePath :| filePath in walk;
        ghost var walk0, done0 := walk, done;
        walk := walk - {filePath};
        ws := VisitFile(filePath, dir, orig, done, old(writes), ws);
        done := done + {filePath};
        MoveOne(walk0, done0, filePath);
      }
      StrippedAll(files, orig, dir, done);
      assert writes[..|old(writes)|] == old(writes) && writes[|old(writes)|..] == ws;
    }

    /** One file of the walk: `if file_path.endswith('.py'): remove_bom_from_file(file_path)`. */
    method VisitFile(filePath: string, ghost dir: string, ghost orig: map<string, seq<byte>>, ghost done: set<string>,
                     ghost w: seq<string>, ghost ws: seq<string>)
      returns (ghost ws': seq<string>)
      requires filePath in BelowDir(orig, dir) && filePath !in done
      requires StrippedSoFar(files, orig, done)
      requires writes == w + ws && WrittenSoFar(ws, orig, dir, done)
      modifies this
      ensures dirs == old(dirs)
      ensures StrippedSoFar(files, orig, done + {filePath})
      ensures writes == w + ws' && WrittenSoFar(ws', orig, dir, done + {filePath})
    {
      ghost var f0 := files;
      ws' := ws;
      if EndsWith(filePath, PySuffix) {
        RemoveBomFromFile(filePath);
        ws' := ws + if HasBom(orig[filePath]) then [filePath] else [];
      }
      StripStep(f0, orig, done, filePath, files);
      WrittenStep(ws, orig, dir, done, filePath, ws');
    }

    /** `for repo_dir in REPOS_DIR.glob("dir*"): remove_bom_from_directory(str(repo_dir))`. */
    method StripRepoDirs(reposDir: string)
      modifies this
      ensures files == StripAll(old(files), old(RepoDirs(reposDir)))
      ensures dirs == old(dirs) && Extends(writes, old(writes))
    {
      ghost var files0 := files;
      ghost var allDirs := RepoDirs(reposDir);
      var repoDirs := set d | d in dirs && IsRepoDir(d, reposDir);
      ghost var done: set<string> := {};
      while repoDirs != {}
        invariant repoDirs !! done && repoDirs + done == allDirs
        invariant files == StripAll(files0, done)
        invariant dirs == old(dirs) && Extends(writes, old(writes))
        decreases |repoDirs|
      {
        var repoDir :| repoDir in repoDirs;
        repoDirs := repoDirs - {repoDir};
        ghost var w0 := writes;
        StripAllStep(files0, done, repoDir, reposDir);
        RemoveBomFromDirectory(repoDir);
        done := done + {repoDir};
        ExtendsTrans(old(writes), w0, writes);
      }
    }

    /**
     * `build_functions_and_methods`: creates the extraction directory if it
     * is missing; stops if the extraction file exists and `overwrite` is
     * false; otherwise strips marks in every repository directory and writes
     * all functions followed by all methods of the successful extractions.
     */
    method BuildFunctionsAndMethods(reposDir: string, repoUrl: string, expId: string, overwrite: bool,
                                    outputs: seq<Extraction>, encode: seq<Extracted> -> seq<byte>)
      modifies this
      ensures dirs == old(dirs) + (if ExtractionRepo(reposDir, repoUrl) in old(dirs) then {} else MadeDirs(reposDir, repoUrl))
      ensures ExtractionPath(reposDir, repoUrl, expId) in old(files) && !overwrite ==>
        files == old(files) && writes == old(writes)
      ensures !(ExtractionPath(reposDir, repoUrl, expId) in old(files) && !overwrite) ==>
        var path := ExtractionPath(reposDir, repoUrl, expId);
        files == StripAll(old(files), RepoDirs(reposDir))[path := encode(Collected(outputs).0 + Collected(outputs).1)] &&
        Extends(writes, old(writes)) && writes != [] && writes[|writes| - 1] == path
    {
      var extractionRepo := MakeExtractionRepo(reposDir, repoUrl);
      var extractionPath := extractionRepo + "/" + expId + ExtractedSuffix;
      if extractionPath in files && !overwrite {
        return;
      }

      StripRepoDirs(reposDir);
      var functions, methods := CollectExtractions(outputs);
      files := files[extractionPath := encode(functions + methods)];
      writes := writes + [extractionPath];
    }

    /** `if not extraction_repo.exists(): extraction_repo.mkdir(parents=True)`, with the missing parents. */
    method MakeExtractionRepo(reposDir: string, repoUrl: string) returns (extractionRepo: string)
      modifies this
      ensures extractionRepo == ExtractionRepo(reposDir, repoUrl)
      ensures dirs == old(dirs) + (if extractionRepo in old(dirs) then {} else MadeDirs(reposDir, repoUrl))
      ensures files == old(files) && writes == old(writes)
    {
      var repoName := RepoName(repoUrl);
      extractionRepo := reposDir + "/" + RepoDirPrefix + "_" + repoName + "/" + ExtractedDir;
      if extractionRepo !in dirs {
        dirs := dirs + {reposDir, reposDir + "/" + RepoDirPrefix + "_" + repoName, extractionRepo};
      }
    }
  }

  /** The loop over the extraction outputs: `functions.extend(...)`, `methods.extend(...)` for each success. */
  method CollectExtractions(outputs: seq<Extraction>) returns (functions: seq<Extracted>, methods: seq<Extracted>)
    ensures (functions, methods) == Collected(outputs)
  {
    functions, methods := [], [];
    for i := 0 to |outputs|
      invariant (functions, methods) == Collected(outputs[..i])
    {
      assert outputs[..i + 1][..i] == outputs[..i];
      match outputs[i] {
        case Succeeded(newFunctions, newMethods) =>
          functions := functions + newFunctions;
          methods := methods + newMethods;
        case Failed(_) =>
      }
    }
    assert outputs[..|outputs|] == outputs;
  }
}
