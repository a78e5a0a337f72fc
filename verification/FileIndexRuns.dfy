/**
 Runs of the file index over a file system: files are opened for writing, written, closed and removed in any
 order, with at most one writer per file.
 */
module FileIndexRuns {
  import opened Wrappers
  import opened FileIndex

  /** written: the bytes since the file was opened. fn: the name under which the size will be recorded. */
  datatype Writer = Writer(fn: string, written: nat)

  /** files: the sizes in the file system, by path. writers: the open writers, by path. */
  datatype Store = Store(paths: Paths, index: seq<IndexEntry>, files: map<string, nat>, writers: map<string, Writer>)

  predicate HasPrefix(paths: Paths, path: string) { paths.prefix <= path }

  function Fn(paths: Paths, path: string): string
    requires |path| >= |paths.prefix|
  {
    path[|paths.prefix|..]
  }

  /** A writer keeps its name in a buffer of maxPath characters. */
  function Cut(paths: Paths, fn: string): string {
    if |fn| < paths.maxPath then fn else fn[..paths.maxPath - 1]
  }

  /** found, removed: what the file system below answers. */
  datatype Step =
    | Open(path: string, found: bool)
    | Write(path: string, n: nat)
    | Close(path: string)
    | Remove(path: string, removed: bool)

  function Do(s: Store, step: Step): Store {
    match step
    case Open(path, found) =>
      if |path| < |s.paths.prefix| || !found then s
      else
        var fn := Fn(s.paths, path);
        Store(s.paths, Opened(s.index, fn), s.files[path := 0], s.writers[path := Writer(Cut(s.paths, fn), 0)])
    case Write(path, n) =>
      if path !in s.writers then s
      else s.(files := if path in s.files then s.files[path := s.files[path] + n] else s.files,
              writers := s.writers[path := s.writers[path].(written := s.writers[path].written + n)])
    case Close(path) =>
      if path !in s.writers then s
      else s.(index := SetSize(s.index, s.writers[path].fn, s.writers[path].written), writers := s.writers - {path})
    case Remove(path, removed) =>
      s.(index := if |path| >= |s.paths.prefix| then Without(s.index, {Fn(s.paths, path)}) else s.index,
         files := if removed then s.files - {path} else s.files)
  }

  /** What the callers keep to: paths in the store's directory that fit the buffer, one writer per file. */
  predicate Orderly(s: Store, step: Step) {
    && HasPrefix(s.paths, step.path)
    && (step.Open? ==> step.path !in s.writers && |Fn(s.paths, step.path)| < s.paths.maxPath)
  }

  /** The file system removes the file, or there is none. */
  predicate RemoveWorks(s: Store, step: Step) {
    step.Remove? ==> step.removed || step.path !in s.files
  }

  /** The answers of the index about file fn are right. While a writer is open its size is not recorded yet. */
  ghost predicate AgreesOn(s: Store, fn: string) {
    var path := s.paths.prefix + fn;
    && (Find(s.index, fn).Some? <==> path in s.files)
    && (path in s.files && path !in s.writers ==> Find(s.index, fn) == Some(s.files[path]))
    && (path in s.files && path in s.writers ==> s.writers[path].written == s.files[path])
    && (path in s.writers ==> s.writers[path].fn == fn)
  }

  ghost predicate Agrees(s: Store) {
    NoDuplicates(s.index) && forall fn :: AgreesOn(s, fn)
  }

  lemma PathOfFn(paths: Paths, path: string, fn: string)
    requires HasPrefix(paths, path)
    ensures path == paths.prefix + fn <==> Fn(paths, path) == fn
  {
    assert path == path[..|paths.prefix|] + path[|paths.prefix|..];
  }

  lemma StepAgreesOn(s: Store, step: Step, fn: string)
    requires Agrees(s) && Orderly(s, step) && RemoveWorks(s, step)
    ensures AgreesOn(Do(s, step), fn)
  {
    hide Find, SetSize, Without, Opened, NoDuplicates;
    PathOfFn(s.paths, step.path, fn);
    var g := Fn(s.paths, step.path);
    assert AgreesOn(s, fn) && AgreesOn(s, g);
    PathOfFn(s.paths, step.path, g);
    match step
    case Open(path, found) => FindAfterOpen(s.index, g, fn);
    case Write(path, n) =>
    case Close(path) => if path in s.writers {
      FindAfterSetSize(s.index, s.writers[path].fn, s.writers[path].written, fn);
    }
    case Remove(path, removed) => FindAfterRemoval(s.index, {g}, fn);
  }

  lemma StepKeepsNoDuplicates(s: Store, step: Step)
    requires NoDuplicates(s.index) && HasPrefix(s.paths, step.path)
    ensures NoDuplicates(Do(s, step).index)
  {
    hide Find, SetSize, Without, Opened;
    OpenKeepsNoDuplicates(s.index, Fn(s.paths, step.path));
    WithoutKeepsEntries(s.index, {Fn(s.paths, step.path)});
  }

  lemma StepAgrees(s: Store, step: Step)
    requires Agrees(s) && Orderly(s, step) && RemoveWorks(s, step)
    ensures Agrees(Do(s, step))
  {
    hide Do, NoDuplicates, Orderly, AgreesOn;
    assert HasPrefix(s.paths, step.path) by { OrderlyPath(s, step); }
    StepKeepsNoDuplicates(s, step);
    forall fn ensures AgreesOn(Do(s, step), fn) {
      StepAgreesOn(s, step, fn);
    }
  }

  lemma OrderlyPath(s: Store, step: Step)
    requires Orderly(s, step)
    ensures HasPrefix(s.paths, step.path)
  {
  }

  ghost predicate Run(ss: seq<Store>, steps: seq<Step>) {
    && |ss| == |steps| + 1
    && Agrees(ss[0])
    && forall i :: 0 <= i < |steps| ==>
         Orderly(ss[i], steps[i]) && RemoveWorks(ss[i], steps[i]) && ss[i + 1] == Do(ss[i], steps[i])
  }

  /**
   After any run the index has no name twice, and for every file without an open writer it knows whether the
   file exists and what its size is.
   */
  lemma {:induction false} IndexAgrees(ss: seq<Store>, steps: seq<Step>, i: nat, fn: string)
    requires Run(ss, steps) && i < |ss|
    ensures NoDuplicates(ss[i].index)
    ensures var path := ss[i].paths.prefix + fn;
            && (Find(ss[i].index, fn).Some? <==> path in ss[i].files)
            && (path in ss[i].files && path !in ss[i].writers ==> Find(ss[i].index, fn) == Some(ss[i].files[path]))
  {
    RunAgrees(ss, steps, i);
    assert AgreesOn(ss[i], fn);
  }

  lemma {:induction false} RunAgrees(ss: seq<Store>, steps: seq<Step>, i: nat)
    requires Run(ss, steps) && i < |ss|
    ensures Agrees(ss[i])
    decreases i
  {
    hide Agrees, Do, Orderly, RemoveWorks;
    if i > 0 {
      RunAgrees(ss, steps, i - 1);
      StepAgrees(ss[i - 1], steps[i - 1]);
    }
  }

  // ----- when the index is wrong -----

  /** A removal that the file system refuses makes the index wrong, unless there was no such file. */
  lemma RemoveAgreesIff(s: Store, step: Step)
    requires Agrees(s) && Orderly(s, step) && step.Remove?
    ensures Agrees(Do(s, step)) <==> RemoveWorks(s, step)
  {
    if RemoveWorks(s, step) {
      StepAgrees(s, step);
    } else {
      hide Find, Without, NoDuplicates;
      var fn := Fn(s.paths, step.path);
      FindAfterRemoval(s.index, {fn}, fn);
      PathOfFn(s.paths, step.path, fn);
      assert !AgreesOn(Do(s, step), fn);
    }
  }

  /** A file is opened, n bytes are written and it is closed. */
  function WriteFile(s: Store, fn: string, n: nat): Store {
    var path := s.paths.prefix + fn;
    Do(Do(Do(s, Open(path, true)), Write(path, n)), Close(path))
  }

  /** What has changed after the three steps, for a file without another writer. */
  lemma WriteFileChanges(s: Store, fn: string, n: nat, g: string)
    requires s.paths.prefix + fn !in s.writers
    ensures var path, t := s.paths.prefix + fn, WriteFile(s, fn, n);
            && t.paths == s.paths && t.files == s.files[path := n] && t.writers == s.writers
            && (NoDuplicates(s.index) ==> NoDuplicates(t.index))
            && Find(t.index, g)
               == if g == Cut(s.paths, fn) && (g == fn || Find(s.index, g).Some?) then Some(n)
                  else if g == fn then Some(0) else Find(s.index, g)
  {
    hide Find, SetSize, Opened, NoDuplicates;
    var path := s.paths.prefix + fn;
    assert Fn(s.paths, path) == fn && HasPrefix(s.paths, path);
    var t1 := Do(s, Open(path, true));
    var t2 := Do(t1, Write(path, n));
    if NoDuplicates(s.index) {
      StepKeepsNoDuplicates(s, Open(path, true));
      StepKeepsNoDuplicates(t1, Write(path, n));
      StepKeepsNoDuplicates(t2, Close(path));
    }
    assert t2.files == s.files[path := n] && WriteFile(s, fn, n).writers == s.writers;
    FindAfterOpen(s.index, fn, g);
    FindAfterSetSize(t2.index, Cut(s.paths, fn), n, g);
  }

  /** A file without an open writer that holds at least one byte. */
  predicate HoldsBytes(s: Store, fn: string) {
    var path := s.paths.prefix + fn;
    path in s.files && path !in s.writers && s.files[path] > 0
  }

  /**
   A file without another writer is written from scratch. Afterwards the whole index is right if and only if
   the name fits the writer's buffer, or nothing was written and the first maxPath - 1 characters are not the name
   of a file that holds something.
   */
  lemma WrittenFileAgreesIff(s: Store, fn: string, n: nat)
    requires Agrees(s) && s.paths.prefix + fn !in s.writers
    ensures Agrees(WriteFile(s, fn, n))
            <==> |fn| < s.paths.maxPath || (n == 0 && !HoldsBytes(s, fn[..s.paths.maxPath - 1]))
  {
    hide Find, WriteFile, NoDuplicates;
    var cut, t := Cut(s.paths, fn), WriteFile(s, fn, n);
    forall g ensures AgreesOn(s, g) && (s.paths.prefix + g == s.paths.prefix + fn <==> g == fn) {
      SamePath(s.paths, g, fn);
    }
    WriteFileChanges(s, fn, n, fn);
    WriteFileChanges(s, fn, n, cut);
    if |fn| < s.paths.maxPath || (n == 0 && !HoldsBytes(s, cut)) {
      forall g ensures AgreesOn(t, g) {
        WriteFileChanges(s, fn, n, g);
      }
    } else {
      assert |cut| < |fn|;
      assert !AgreesOn(t, fn) || !AgreesOn(t, cut);
    }
  }

  lemma SamePath(paths: Paths, f: string, g: string)
    ensures paths.prefix + f == paths.prefix + g <==> f == g
  {
    assert (paths.prefix + f)[|paths.prefix|..] == f && (paths.prefix + g)[|paths.prefix|..] == g;
  }

  /** Writing a file with too long a name makes the index wrong about another file, which has the cut name. */
  lemma LongNameSpoilsOther(s: Store, fn: string, n: nat)
    requires Agrees(s) && s.paths.prefix + fn !in s.writers && |fn| >= s.paths.maxPath
    requires var cut := s.paths.prefix + fn[..s.paths.maxPath - 1];
             cut in s.files && cut !in s.writers && s.files[cut] != n
    ensures var t, cut := WriteFile(s, fn, n), s.paths.prefix + fn[..s.paths.maxPath - 1];
            && cut in t.files && t.files[cut] == s.files[cut]
            && Find(t.index, fn[..s.paths.maxPath - 1]) == Some(n)
            && !AgreesOn(t, fn[..s.paths.maxPath - 1])
  {
    hide Find, WriteFile, NoDuplicates;
    var cut := Cut(s.paths, fn);
    assert AgreesOn(s, cut) && |cut| < |fn|;
    SamePath(s.paths, cut, fn);
    WriteFileChanges(s, fn, n, cut);
  }

  // ----- building the index -----

  /** The names that the file system lists, in its order. */
  function Created(paths: Paths, names: seq<string>, files: map<string, nat>): seq<IndexEntry> {
    if names == [] then []
    else
      var n := |names| - 1;
      Created(paths, names[..n], files)
      + if |paths.prefix + names[n]| < paths.maxPath && paths.prefix + names[n] in files
        then [IndexEntry(names[n], files[paths.prefix + names[n]])] else []
  }

  lemma {:induction false} FindCreated(paths: Paths, names: seq<string>, files: map<string, nat>, fn: string)
    requires forall a, b :: 0 <= a < b < |names| ==> names[a] != names[b]
    ensures NoDuplicates(Created(paths, names, files))
    ensures forall k :: 0 <= k < |Created(paths, names, files)| ==> Created(paths, names, files)[k].fname in names
    ensures Find(Created(paths, names, files), fn)
            == if fn in names && |paths.prefix + fn| < paths.maxPath && paths.prefix + fn in files
               then Some(files[paths.prefix + fn]) else None
  {
    hide Find;
    if names == [] {
      FindMeansContains([], fn);
    } else {
      var n := |names| - 1;
      var init := Created(paths, names[..n], files);
      FindCreated(paths, names[..n], files, fn);
      assert fn in names <==> fn in names[..n] || fn == names[n];
      if |paths.prefix + names[n]| < paths.maxPath && paths.prefix + names[n] in files {
        FindAfterAppend(init, IndexEntry(names[n], files[paths.prefix + names[n]]), fn);
      } else {
        assert Created(paths, names, files) == init;
      }
    }
  }

  /** The index of a complete listing is right if and only if no path is too long. */
  lemma CreatedAgreesIff(paths: Paths, names: seq<string>, files: map<string, nat>)
    requires forall a, b :: 0 <= a < b < |names| ==> names[a] != names[b]
    requires forall path :: path in files ==> HasPrefix(paths, path) && Fn(paths, path) in names
    ensures Agrees(Store(paths, Created(paths, names, files), files, map[]))
            <==> forall path :: path in files ==> |path| < paths.maxPath
  {
    hide Find, Created, NoDuplicates;
    var s := Store(paths, Created(paths, names, files), files, map[]);
    FindCreated(paths, names, files, "");
    forall path | path in files ensures |path| >= paths.maxPath ==> !AgreesOn(s, Fn(paths, path)) {
      PathOfFn(paths, path, Fn(paths, path));
      FindCreated(paths, names, files, Fn(paths, path));
    }
    if forall path :: path in files ==> |path| < paths.maxPath {
      forall fn ensures AgreesOn(s, fn) {
        FindCreated(paths, names, files, fn);
        if paths.prefix + fn in files {
          PathOfFn(paths, paths.prefix + fn, fn);
        }
      }
    }
  }
}
