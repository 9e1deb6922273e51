/** `ExternalSearchCommand`: a command that hands its arguments to another
    executable, and the Windows lookup of that executable along `Path`. */
module External {
  import opened Common
  import opened Framing

  /** A Python value assigned to one of the command's properties. */
  datatype Arg =
    | NoneArg
    | StrArg(s: string)
    | ListArg(items: seq<string>)
    | TupleArg(items: seq<string>)
    | DictArg(entries: Pairs<string>)
    | OtherArg(repr: string)

  predicate ArgvAccepts(v: Arg) { v.NoneArg? || v.ListArg? || v.TupleArg? }

  // The setters build `ValueError(template, repr(value))` without
  // formatting; the model keeps the template.
  const ArgvRejected := ValueError("Expected a list, tuple or value of None for environ, not {}")
  const EnvironRejected := ValueError("Expected a dictionary value for environ, not {}")
  const PathRejected := ValueError("Expected a string value for path, not {}")

  /** The three backing fields `_path`, `_argv` and `_environ`. */
  datatype Fields = Fields(path: Option<string>, argv: Arg, environ: Pairs<string>)

  /** The assignments at the start of `execute`: `path`, then `argv`, then
      `environ`, each only when its argument is not None, stopping at the
      first setter that raises. */
  function Assign(f: Fields, path: Arg, argv: Arg, environ: Arg): (Fields, Outcome) {
    if !path.NoneArg? && !path.StrArg? then (f, Fail(PathRejected))
    else
      var f1 := if path.StrArg? then f.(path := Some(path.s)) else f;
      if !argv.NoneArg? && !ArgvAccepts(argv) then (f1, Fail(ArgvRejected))
      else
        var f2 := if argv.NoneArg? then f1 else f1.(argv := argv);
        if !environ.NoneArg? && !environ.DictArg? then (f2, Fail(EnvironRejected))
        else
          var f3 := if environ.DictArg? then f2.(environ := environ.entries) else f2;
          (f3, Pass)
  }

  /** What `execute` prints to standard error for an exception; `describe`
      stands for `str(error)`. */
  function ErrorLine(className: string, fault: Fault, describe: Fault -> string): (r: string)
    ensures StartsWith(r, className + " execution error: ") && EndsWith(r, "\n")
  {
    className + " execution error: " + describe(fault) + "\n"
  }

  class ExternalSearchCommand {
    var path: Option<string>
    var argv: Arg
    var environ: Pairs<string>

    predicate Valid()
      reads this
    {
      ArgvAccepts(argv)
    }

    function Current(): Fields
      reads this
    {
      Fields(path, argv, environ)
    }

    /** `__init__`; `osEnviron` is the process environment. */
    constructor(osEnviron: Pairs<string>)
      ensures Valid()
      ensures path == None && argv == NoneArg && environ == osEnviron
    {
      path := None;
      argv := NoneArg;
      environ := osEnviron;
    }

    /** The `argv` setter: None, a list or a tuple. */
    method SetArgv(value: Arg) returns (o: Outcome)
      requires Valid()
      modifies this
      ensures Valid()
      ensures ArgvAccepts(value) ==> o == Pass && argv == value
      ensures !ArgvAccepts(value) ==> o == Fail(ArgvRejected) && argv == old(argv)
      ensures path == old(path) && environ == old(environ)
    {
      if !ArgvAccepts(value) {
        return Fail(ArgvRejected);
      }
      argv := value;
      return Pass;
    }

    /** The `environ` setter: a dictionary only. */
    method SetEnviron(value: Arg) returns (o: Outcome)
      requires Valid()
      modifies this
      ensures Valid()
      ensures value.DictArg? ==> o == Pass && environ == value.entries
      ensures !value.DictArg? ==> o == Fail(EnvironRejected) && environ == old(environ)
      ensures path == old(path) && argv == old(argv)
    {
      if !value.DictArg? {
        return Fail(EnvironRejected);
      }
      environ := value.entries;
      return Pass;
    }

    /** The `path` setter: a string only. */
    method SetPath(value: Arg) returns (o: Outcome)
      requires Valid()
      modifies this
      ensures Valid()
      ensures value.StrArg? ==> o == Pass && path == Some(value.s)
      ensures !value.StrArg? ==> o == Fail(PathRejected) && path == old(path)
      ensures argv == old(argv) && environ == old(environ)
    {
      if !value.StrArg? {
        return Fail(PathRejected);
      }
      path := Some(value.s);
      return Pass;
    }

    /** `execute(path, argv, environ)`: assign the non-None arguments, run
        `_execute` (here `launch`) on the fields, and print any exception to
        standard error instead of raising it. `className` is the name of the
        instance's class, `ExternalSearchCommand` unless it is subclassed. */
    method Execute(path: Arg, argv: Arg, environ: Arg, className: string,
                   launch: Fields -> Outcome, describe: Fault -> string, stderr: OutputStream)
      requires Valid()
      modifies this, stderr
      ensures Valid()
      ensures Current() == Assign(old(Current()), path, argv, environ).0
      ensures var o := Assign(old(Current()), path, argv, environ).1;
        var report := if o.Fail? then o else launch(Current());
        stderr.text == old(stderr.text) + (if report.Fail? then ErrorLine(className, report.fault, describe) else "")
    {
      var o := Pass;
      if !path.NoneArg? {
        o := SetPath(path);
      }
      if o == Pass && !argv.NoneArg? {
        o := SetArgv(argv);
      }
      if o == Pass && !environ.NoneArg? {
        o := SetEnviron(environ);
      }
      if o == Pass {
        o := launch(Current());
      }
      if o.Fail? {
        stderr.Write(ErrorLine(className, o.fault, describe));
      }
    }
  }

  /** An argument left as None never changes its field, whether or not a
      setter before or after it raises. */
  lemma NoneArgumentsKeepFields(f: Fields, path: Arg, argv: Arg, environ: Arg)
    ensures path.NoneArg? ==> Assign(f, path, argv, environ).0.path == f.path
    ensures argv.NoneArg? ==> Assign(f, path, argv, environ).0.argv == f.argv
    ensures environ.NoneArg? ==> Assign(f, path, argv, environ).0.environ == f.environ
  {
  }

  /** When every argument has an accepted type, each non-None one is stored
      and `_execute` runs. */
  lemma AcceptedArgumentsStored(f: Fields, path: Arg, argv: Arg, environ: Arg)
    requires path.NoneArg? || path.StrArg?
    requires ArgvAccepts(argv)
    requires environ.NoneArg? || environ.DictArg?
    ensures Assign(f, path, argv, environ).1 == Pass
    ensures Assign(f, path, argv, environ).0 ==
      Fields(if path.StrArg? then Some(path.s) else f.path,
             if argv.NoneArg? then f.argv else argv,
             if environ.DictArg? then environ.entries else f.environ)
  {
  }

  /** The first argument of a refused type raises `ValueError`, and the
      fields after it keep their old values. */
  lemma RejectedArgumentStops(f: Fields, path: Arg, argv: Arg, environ: Arg)
    ensures !path.NoneArg? && !path.StrArg? ==> Assign(f, path, argv, environ) == (f, Fail(PathRejected))
    ensures (path.NoneArg? || path.StrArg?) && !ArgvAccepts(argv) ==>
      Assign(f, path, argv, environ).1 == Fail(ArgvRejected) &&
      Assign(f, path, argv, environ).0.argv == f.argv && Assign(f, path, argv, environ).0.environ == f.environ
    ensures Assign(f, path, argv, environ).1.Fail? ==> Assign(f, path, argv, environ).1.fault.ValueError?
  {
  }

  // ------------------------------------------------ the executable lookup

  predicate IsSep(c: char) { c == '/' || c == '\\' }

  predicate HasDrive(p: string) { |p| >= 2 && p[1] == ':' }

  /** The directory half of `os.path.split(p)` is non-empty: `p` has a drive
      or a separator. */
  predicate HasDirectory(p: string) {
    HasDrive(p) || exists k :: 0 <= k < |p| && IsSep(p[k])
  }

  /** The part of `s` after its last separator. */
  function LastSegment(s: string): (r: string)
    ensures |r| <= |s| && r == s[|s| - |r|..]
    ensures forall k :: 0 <= k < |r| ==> !IsSep(r[k])
    ensures |r| < |s| ==> IsSep(s[|s| - |r| - 1])
  {
    if |s| == 0 || IsSep(s[|s| - 1]) then ""
    else LastSegment(s[..|s| - 1]) + [s[|s| - 1]]
  }

  /** The file-name half of `os.path.split(p)`, after any drive. */
  function Filename(p: string): string {
    LastSegment(if HasDrive(p) then p[2..] else p)
  }

  /** The position of the last `.` in `f`. */
  function LastDot(f: string): (r: Option<nat>)
    ensures r.Some? ==> r.value < |f| && f[r.value] == '.' && forall k :: r.value < k < |f| ==> f[k] != '.'
    ensures r.None? ==> forall k :: 0 <= k < |f| ==> f[k] != '.'
  {
    if |f| == 0 then None
    else if f[|f| - 1] == '.' then Some(|f| - 1)
    else LastDot(f[..|f| - 1])
  }

  /** `os.path.splitext(f)[1]` for a separator-free name: from the last dot,
      unless only dots precede it. */
  function Extension(f: string): (r: string)
    ensures r == "" || (r[0] == '.' && EndsWith(f, r) && forall k :: 1 <= k < |r| ==> r[k] != '.')
  {
    var d := LastDot(f);
    if d.Some? && exists j :: 0 <= j < d.value && f[j] != '.' then f[d.value..] else ""
  }

  const ExecutableExtensions: seq<string> := [".COM", ".EXE"]

  predicate IsExecutableExtension(e: string) { e == ".COM" || e == ".EXE" }

  /** `base` with each executable extension, in order. */
  function WithExtensions(base: string): (r: seq<string>)
    ensures |r| == 2
  {
    [base + ExecutableExtensions[0], base + ExecutableExtensions[1]]
  }

  /** The directories of `Path`: its `;`-separated entries that are not empty. */
  function Entries(path: string): (r: seq<string>)
    ensures forall k :: 0 <= k < |r| ==> r[k] != ""
  {
    NonEmpty(Split(path, ';'))
  }

  function NonEmpty(xs: seq<string>): (r: seq<string>)
    ensures forall k :: 0 <= k < |r| ==> r[k] != ""
    ensures |r| == 0 <==> forall k :: 0 <= k < |xs| ==> xs[k] == ""
    ensures forall x :: x in r <==> x in xs && x != ""
  {
    if |xs| == 0 then []
    else if xs[0] == "" then NonEmpty(xs[1..])
    else [xs[0]] + NonEmpty(xs[1..])
  }

  /** `os.path.join(directory, name)` for a name with neither drive nor
      separator: a backslash goes between them unless the directory, after
      its drive, is empty or already ends in a separator. */
  function JoinPath(directory: string, name: string): (r: string)
    ensures StartsWith(r, directory) && EndsWith(r, name)
  {
    var rest := if HasDrive(directory) then directory[2..] else directory;
    if |rest| > 0 && !IsSep(rest[|rest| - 1]) then directory + "\\" + name else directory + name
  }

  /** The candidates of the search without a known extension: each directory
      in order, each extension in order. */
  function Candidates(dirs: seq<string>, name: string): (r: seq<string>)
    ensures |r| == 2 * |dirs|
  {
    if |dirs| == 0 then []
    else
      var base := JoinPath(dirs[0], name);
      WithExtensions(base) + Candidates(dirs[1..], name)
  }

  /** Candidate `2 * i + x` is directory `i` with extension `x`. */
  lemma {:induction false} CandidateAt(dirs: seq<string>, name: string, i: nat, x: nat)
    requires i < |dirs| && x < 2
    ensures Candidates(dirs, name)[2 * i + x] == WithExtensions(JoinPath(dirs[i], name))[x]
  {
    var base := JoinPath(dirs[0], name);
    var tail := Candidates(dirs[1..], name);
    assert Candidates(dirs, name) == WithExtensions(base) + tail;
    if i == 0 {
      IndexInFront(WithExtensions(base), tail, x);
    } else {
      CandidateAt(dirs[1..], name, i - 1, x);
      IndexPastPair(WithExtensions(base), tail, 2 * (i - 1) + x);
      assert dirs[1..][i - 1] == dirs[i];
    }
  }

  lemma IndexInFront(w: seq<string>, t: seq<string>, x: nat)
    requires x < |w|
    ensures (w + t)[x] == w[x]
  {
  }

  lemma IndexPastPair(w: seq<string>, t: seq<string>, p: nat)
    requires |w| == 2 && p < |t|
    ensures (w + t)[p + 2] == t[p]
  {
  }

  function Joined(dirs: seq<string>, name: string): (r: seq<string>)
    ensures |r| == |dirs|
  {
    seq(|dirs|, k requires 0 <= k < |dirs| => JoinPath(dirs[k], name))
  }

  /** The position of the first of `paths` that is a file, or `|paths|`. */
  function FirstFileIndex(paths: seq<string>, isFile: string -> bool): (r: nat)
    ensures r <= |paths|
    ensures forall j :: 0 <= j < r ==> !isFile(paths[j])
    ensures r < |paths| ==> isFile(paths[r])
  {
    if |paths| == 0 then 0
    else if isFile(paths[0]) then 0
    else
      var r := FirstFileIndex(paths[1..], isFile);
      assert forall j :: 1 <= j < r + 1 ==> paths[j] == paths[1..][j - 1];
      r + 1
  }

  /** The first of `paths` that is a file. */
  function FirstFile(paths: seq<string>, isFile: string -> bool): (r: Option<string>)
    ensures r.None? <==> forall k :: 0 <= k < |paths| ==> !isFile(paths[k])
  {
    var k := FirstFileIndex(paths, isFile);
    if k < |paths| then Some(paths[k]) else None
  }

  /** The lookup `_search_path(executable, environ)` performs, by cases. */
  function SearchPathResult(executable: string, environ: Pairs<string>, isFile: string -> bool): string {
    var known := IsExecutableExtension(Upper(Extension(Filename(executable))));
    if HasDirectory(executable) then
      if known then executable else FirstFile(WithExtensions(executable), isFile).GetOr(executable)
    else PathSearch(Entries(Lookup(environ, "Path").GetOr("")), executable, known, isFile)
  }

  /** The lookup of a name without a directory along the `Path` entries
      `dirs`; `known` says whether its extension is an executable one. */
  function PathSearch(dirs: seq<string>, executable: string, known: bool, isFile: string -> bool): string {
    if |dirs| == 0 then executable
    else if known then FirstFile(Joined(dirs, executable), isFile).GetOr(executable)
    else FirstFile(Candidates(dirs, executable), isFile).GetOr(executable)
  }

  /** `_search_path(executable, environ)`; `isFile` is `os.path.isfile`. */
  method SearchPath(executable: string, environ: Pairs<string>, isFile: string -> bool) returns (path: string)
    ensures path == SearchPathResult(executable, environ, isFile)
  {
    var extension := Upper(Extension(Filename(executable)));
    if HasDirectory(executable) {
      if |extension| > 0 && IsExecutableExtension(extension) {
        return executable;
      }
      var found := TryExtensions(executable, isFile);
      return found.GetOr(executable);
    }
    var directories := Lookup(environ, "Path").GetOr("");
    if |directories| == 0 {
      assert Split(directories, ';') == [""];
      return executable;
    }
    path := SearchEntries(Entries(directories), executable, |extension| > 0 && IsExecutableExtension(extension), isFile);
  }

  /** The part of `_search_path` after the `Path` entries are known. */
  method SearchEntries(dirs: seq<string>, executable: string, known: bool, isFile: string -> bool) returns (path: string)
    ensures path == PathSearch(dirs, executable, known, isFile)
  {
    if |dirs| == 0 {
      return executable;
    }
    if known {
      path := SearchDirectories(dirs, executable, isFile);
    } else {
      path := SearchDirectoriesAndExtensions(dirs, executable, isFile);
    }
  }

  /** The loop over the extensions: `base` with `.COM`, then with `.EXE`. */
  method TryExtensions(base: string, isFile: string -> bool) returns (found: Option<string>)
    ensures found == FirstFile(WithExtensions(base), isFile)
  {
    var candidates := WithExtensions(base);
    for k := 0 to |ExecutableExtensions|
      invariant forall j :: 0 <= j < k ==> !isFile(candidates[j])
    {
      var path := base + ExecutableExtensions[k];
      if isFile(path) {
        FirstFound(candidates, k, isFile);
        return Some(path);
      }
    }
    return None;
  }

  /** The search for a name with a known extension: each directory in order. */
  method SearchDirectories(dirs: seq<string>, executable: string, isFile: string -> bool) returns (path: string)
    ensures path == FirstFile(Joined(dirs, executable), isFile).GetOr(executable)
  {
    var joined := Joined(dirs, executable);
    for i := 0 to |dirs|
      invariant forall j :: 0 <= j < i ==> !isFile(joined[j])
    {
      path := JoinPath(dirs[i], executable);
      if isFile(path) {
        FirstFound(joined, i, isFile);
        return path;
      }
    }
    return executable;
  }

  /** The search for a name without a known extension: each directory in
      order, and within it each extension in order. */
  method SearchDirectoriesAndExtensions(dirs: seq<string>, executable: string, isFile: string -> bool) returns (path: string)
    ensures path == FirstFile(Candidates(dirs, executable), isFile).GetOr(executable)
  {
    for i := 0 to |dirs|
      invariant forall j :: 0 <= j < 2 * i ==> !isFile(Candidates(dirs, executable)[j])
    {
      var pathWithoutExtension := JoinPath(dirs[i], executable);
      var found := TryExtensions(pathWithoutExtension, isFile);
      CandidatesStep(dirs, executable, i, isFile);
      if found.Some? {
        return found.value;
      }
    }
    return executable;
  }

  /** Trying the extensions in directory `i`, after no earlier candidate was a
      file, either finds the first candidate or extends the failed prefix. */
  lemma CandidatesStep(dirs: seq<string>, name: string, i: nat, isFile: string -> bool)
    requires i < |dirs|
    requires forall j :: 0 <= j < 2 * i ==> !isFile(Candidates(dirs, name)[j])
    ensures var found := FirstFile(WithExtensions(JoinPath(dirs[i], name)), isFile);
      (found.Some? ==> FirstFile(Candidates(dirs, name), isFile) == found) &&
      (found.None? ==> forall j :: 0 <= j < 2 * i + 2 ==> !isFile(Candidates(dirs, name)[j]))
  {
    var c := Candidates(dirs, name);
    CandidateAt(dirs, name, i, 0);
    CandidateAt(dirs, name, i, 1);
    BlockStep(c, WithExtensions(JoinPath(dirs[i], name)), 2 * i, isFile);
  }

  /** A block of two paths at position `p`, after `p` paths that are not
      files, holds the first file of the whole sequence when it holds one. */
  lemma BlockStep(c: seq<string>, w: seq<string>, p: nat, isFile: string -> bool)
    requires |w| == 2 && p + 2 <= |c| && c[p] == w[0] && c[p + 1] == w[1]
    requires forall j :: 0 <= j < p ==> !isFile(c[j])
    ensures FirstFile(w, isFile).Some? ==> FirstFile(c, isFile) == FirstFile(w, isFile)
    ensures FirstFile(w, isFile).None? ==> forall j :: 0 <= j < p + 2 ==> !isFile(c[j])
  {
    if isFile(w[0]) {
      FirstFound(w, 0, isFile);
      FirstFound(c, p, isFile);
    } else if isFile(w[1]) {
      FirstFound(w, 1, isFile);
      FirstFound(c, p + 1, isFile);
    }
  }

  /** A file with no file before it is the first file. */
  lemma FirstFound(paths: seq<string>, k: nat, isFile: string -> bool)
    requires k < |paths| && isFile(paths[k])
    requires forall j :: 0 <= j < k ==> !isFile(paths[j])
    ensures FirstFile(paths, isFile) == Some(paths[k])
  {
    var m := FirstFileIndex(paths, isFile);
    assert m == k;
  }

  /** The lookup in the terms of its callers: a named executable with a
      directory and a known extension is taken as is; with a directory and
      no known extension, `.COM` is tried before `.EXE`. */
  lemma SearchWithDirectory(executable: string, environ: Pairs<string>, isFile: string -> bool)
    ensures var r := SearchPathResult(executable, environ, isFile);
      var extension := Upper(Extension(Filename(executable)));
      (HasDirectory(executable) && IsExecutableExtension(extension) ==> r == executable) &&
      (HasDirectory(executable) && !IsExecutableExtension(extension) ==>
        r == (if isFile(executable + ".COM") then executable + ".COM"
              else if isFile(executable + ".EXE") then executable + ".EXE"
              else executable))
  {
    var candidates := WithExtensions(executable);
    if isFile(candidates[0]) {
      FirstFound(candidates, 0, isFile);
    } else if isFile(candidates[1]) {
      FirstFound(candidates, 1, isFile);
    }
  }

  /** Without a directory and without a known extension, the search runs
      over the candidates (the `Path` entries in order and, for each, `.COM`
      then `.EXE`, as `CandidateAt` numbers them): it returns the first
      candidate that is a file, or the name unchanged when none is. */
  lemma SearchAlongPath(dirs: seq<string>, executable: string, isFile: string -> bool)
    ensures var r := PathSearch(dirs, executable, false, isFile);
      var c := Candidates(dirs, executable);
      (r == executable && forall k :: 0 <= k < |c| ==> !isFile(c[k])) ||
      (exists k :: 0 <= k < |c| && r == c[k] && isFile(c[k]) && forall j :: 0 <= j < k ==> !isFile(c[j]))
  {
    var c := Candidates(dirs, executable);
    var r := PathSearch(dirs, executable, false, isFile);
    var k := FirstFileIndex(c, isFile);
    if k < |c| {
      assert r == c[k] && isFile(c[k]);
      assert (r == executable && forall k :: 0 <= k < |c| ==> !isFile(c[k])) ||
      (exists k :: 0 <= k < |c| && r == c[k] && isFile(c[k]) && forall j :: 0 <= j < k ==> !isFile(c[j]));
    } else {
      assert r == executable;
    }
  }

  /** With a known extension, the search tries the name in each `Path` entry
      in order. */
  lemma SearchKnownExtension(dirs: seq<string>, executable: string, isFile: string -> bool)
    ensures var r := PathSearch(dirs, executable, true, isFile);
      (r == executable && forall k :: 0 <= k < |dirs| ==> !isFile(JoinPath(dirs[k], executable))) ||
      (exists k :: 0 <= k < |dirs| && r == JoinPath(dirs[k], executable) && isFile(r) &&
        forall j :: 0 <= j < k ==> !isFile(JoinPath(dirs[j], executable)))
  {
    var joined := Joined(dirs, executable);
    var r := PathSearch(dirs, executable, true, isFile);
    var k := FirstFileIndex(joined, isFile);
    assert forall j :: 0 <= j < |dirs| ==> joined[j] == JoinPath(dirs[j], executable);
    if k < |joined| {
      assert r == joined[k] && isFile(joined[k]);
    } else {
      assert r == executable;
    }
  }

  /** `Path` unset, empty, or made only of empty entries: no search. */
  lemma EmptyPathNoSearch(executable: string, environ: Pairs<string>, isFile: string -> bool)
    requires !HasDirectory(executable)
    requires forall k :: 0 <= k < |Split(Lookup(environ, "Path").GetOr(""), ';')| ==> Split(Lookup(environ, "Path").GetOr(""), ';')[k] == ""
    ensures SearchPathResult(executable, environ, isFile) == executable
  {
  }
}
