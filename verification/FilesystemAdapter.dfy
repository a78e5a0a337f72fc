/**
 The file index as an object between the application and a file system, and the writers that it hands out.
 */
module FilesystemAdapters {
  import opened Wrappers
  import opened FileIndex
  import opened FileIndexRuns
  import opened FileIndexWalk

  /** The file system below the index: the sizes of its files. */
  class Filesystem {
    var files: map<string, nat>

    constructor (files: map<string, nat>)
      ensures this.files == files
    {
      this.files := files;
    }
  }

  ghost predicate IsFirst(index: seq<IndexEntry>, fn: string, p: nat) {
    p < |index| && index[p].fname == fn && forall j :: 0 <= j < p ==> index[j].fname != fn
  }

  lemma {:induction false} FirstIsFound(index: seq<IndexEntry>, fn: string, p: nat, size: nat)
    requires IsFirst(index, fn, p)
    ensures Find(index, fn) == Some(index[p].size)
    ensures SetSize(index, fn, size) == index[p := IndexEntry(fn, size)]
  {
    if p > 0 {
      FirstIsFound(index[1..], fn, p - 1, size);
    }
  }

  lemma {:induction false} MissingIsNotFound(index: seq<IndexEntry>, fn: string, size: nat)
    requires forall k :: 0 <= k < |index| ==> index[k].fname != fn
    ensures Find(index, fn).None? && SetSize(index, fn, size) == index
  {
    if index != [] {
      MissingIsNotFound(index[1..], fn, size);
    }
  }

  lemma WithoutNothing(names: set<string>)
    ensures Without([], names) == []
  {
  }

  lemma WithoutOne(e: IndexEntry, names: set<string>)
    ensures Without([e], names) == if e.fname in names then [] else [e]
  {
    assert Without([e][1..], names) == [];
  }

  /** The whole walk, when the files of visited have been visited before. */
  ghost function Resumed(visited: seq<string>, w: Walked): Walked { w.(visited := visited + w.visited) }

  lemma ResumeNext(visited: seq<string>, index: seq<IndexEntry>, it: nat, c: Callback)
    requires it < |index|
    ensures var name := index[it].fname; var rest := Without(index, c.removes(name));
            Resumed(visited, Walk(index, it, c))
            == if c.fails(name) then Walked(visited + [name], rest, true)
               else Resumed(visited + [name], Walk(rest, if |rest| + 1 == |index| then it else it + 1, c))
  {
  }

  lemma WholeWalk(index: seq<IndexEntry>, c: Callback)
    requires NoDuplicates(index)
    ensures Walk(index, 0, c).visited == InOrder([], index, c).visited <==> Suits([], index, c)
    ensures Suits([], index, c) ==> Walk(index, 0, c) == InOrder([], index, c)
    ensures RemovesOnlyItself(c) ==> VisitsAll([], index, c, Walk(index, 0, c))
    ensures Resumed([], Walk(index, 0, c)) == Walk(index, 0, c)
  {
    assert [] + index == index;
    WalkIsInOrderIff([], index, c);
    if RemovesOnlyItself(c) {
      OwnRemovalSuits([], index, c);
    }
  }

  class FilesystemAdapterIndex {
    const paths: Paths
    const filesystem: Filesystem
    var index: seq<IndexEntry>

    /** An index with nothing in it; the file system may have files. */
    constructor (paths: Paths, filesystem: Filesystem)
      ensures this.paths == paths && this.filesystem == filesystem && index == []
    {
      this.paths, this.filesystem, index := paths, filesystem, [];
    }

    /** The first entry with that name. */
    method GetEntryByFname(fn: string) returns (position: Option<nat>)
      ensures if position.Some? then IsFirst(index, fn, position.value)
              else forall k :: 0 <= k < |index| ==> index[k].fname != fn
    {
      var k := 0;
      while k < |index|
        invariant 0 <= k <= |index|
        invariant forall j :: 0 <= j < k ==> index[j].fname != fn
      {
        if index[k].fname == fn {
          return Some(k);
        }
        k := k + 1;
      }
      return None;
    }

    /** The size of a file, if the index has it. A path that is shorter than the prefix is invalid. */
    method Stat(path: string) returns (size: Option<nat>)
      ensures size == if |path| < |paths.prefix| then None else Find(index, Fn(paths, path))
    {
      if |path| < |paths.prefix| {
        return None;
      }
      var entry := GetEntryByFname(Fn(paths, path));
      if entry.Some? {
        FirstIsFound(index, Fn(paths, path), entry.value, 0);
      } else {
        MissingIsNotFound(index, Fn(paths, path), 0);
      }
      size := if entry.Some? then Some(index[entry.value].size) else None;
    }

    /** Open for writing: the step Open of a run. found: the file system can open the file. */
    method OpenForWriting(path: string, found: bool, ghost writers: map<string, Writer>)
      returns (file: IndexedFileAdapter?, ghost s: Store)
      modifies this, filesystem
      ensures s == Do(Store(paths, old(index), old(filesystem.files), writers), Open(path, found))
      ensures index == s.index && filesystem.files == s.files
      ensures file != null <==> |path| >= |paths.prefix| && found
      ensures file != null ==> fresh(file) && file.index == this && file.path == path && file.State() == s.writers[path]
    {
      s := Do(Store(paths, index, filesystem.files, writers), Open(path, found));
      if |path| < |paths.prefix| || !found {
        return null, s;
      }
      filesystem.files := filesystem.files[path := 0];
      var fn := Fn(paths, path);
      var entry := GetEntryByFname(fn);
      if entry.None? {
        MissingIsNotFound(index, fn, 0);
        index := index + [IndexEntry(fn, 0)];
      } else {
        FirstIsFound(index, fn, entry.value, 0);
        index := index[entry.value := IndexEntry(fn, 0)];
      }
      file := new IndexedFileAdapter(this, path, fn);
    }

    /** The step Remove of a run. */
    method Remove(path: string, removed: bool, ghost writers: map<string, Writer>) returns (ok: bool, ghost s: Store)
      modifies this`index, filesystem
      ensures s == Do(Store(paths, old(index), old(filesystem.files), writers), FileIndexRuns.Remove(path, removed))
      ensures index == s.index && filesystem.files == s.files && s.writers == writers && ok == removed
    {
      s := Do(Store(paths, index, filesystem.files, writers), FileIndexRuns.Remove(path, removed));
      if |path| >= |paths.prefix| {
        Erase({Fn(paths, path)});
      }
      if removed {
        filesystem.files := filesystem.files - {path};
      }
      ok := removed;
    }

    /** The entries with other names stay. */
    method Erase(names: set<string>)
      modifies this`index
      ensures index == Without(old(index), names)
    {
      hide Without;
      var all, kept: seq<IndexEntry> := index, [];
      WithoutNothing(names);
      for k := 0 to |all|
        invariant kept == Without(all[..k], names)
      {
        WithoutSplits(all[..k], [all[k]], names);
        WithoutOne(all[k], names);
        assert all[..k + 1] == all[..k] + [all[k]];
        if all[k].fname !in names {
          kept := kept + [all[k]];
        }
      }
      assert all[..|all|] == all;
      index := kept;
    }

    method UpdateFilesize(fn: string, size: nat)
      modifies this`index
      ensures index == SetSize(old(index), fn, size)
    {
      var entry := GetEntryByFname(fn);
      if entry.Some? {
        FirstIsFound(index, fn, entry.value, size);
        index := index[entry.value := IndexEntry(fn, size)];
      } else {
        MissingIsNotFound(index, fn, size);
      }
    }

    /** Build the index from a listing of the file system; names that make too long a path are left out. */
    method CreateIndex(names: seq<string>) returns (ok: bool)
      modifies this`index
      ensures ok <==> old(index) == []
      ensures index == if ok then Created(paths, names, filesystem.files) else old(index)
    {
      if index != [] {
        return false;
      }
      for k := 0 to |names|
        invariant index == Created(paths, names[..k], filesystem.files)
      {
        assert names[..k + 1][..k] == names[..k];
        var path := paths.prefix + names[k];
        if |path| < paths.maxPath && path in filesystem.files {
          index := index + [IndexEntry(names[k], filesystem.files[path])];
        }
      }
      assert names[..|names|] == names;
      ok := true;
    }

    /**
     Visit the files with a callback that may remove files. The files are visited in order, each once and but
     for those that were removed before their turn, if and only if the callback suits the walk; a callback that
     removes at most the file that it is called for does.
     */
    method FtwRoot(c: Callback) returns (visited: seq<string>, err: bool)
      requires NoDuplicates(index)
      modifies this`index
      ensures visited == InOrder([], old(index), c).visited <==> Suits([], old(index), c)
      ensures Suits([], old(index), c) ==> Walked(visited, index, err) == InOrder([], old(index), c)
      ensures RemovesOnlyItself(c) ==> VisitsAll([], old(index), c, Walked(visited, index, err))
    {
      ghost var all := index;
      WholeWalk(all, c);
      visited, err := [], false;
      var it := 0;
      while it < |index|
        invariant Walk(all, 0, c) == Resumed(visited, Walk(index, it, c))
        decreases |index| - it
      {
        var sizeBefore := |index|;
        var name := index[it].fname;
        ResumeNext(visited, index, it, c);
        visited := visited + [name];
        Erase(c.removes(name));
        if c.fails(name) {
          return visited, true;
        }
        if |index| + 1 != sizeBefore {
          it := it + 1;
        }
      }
    }
  }

  class IndexedFileAdapter {
    const index: FilesystemAdapterIndex
    const path: string
    const fn: string
    var written: nat

    constructor (index: FilesystemAdapterIndex, path: string, fn: string)
      ensures this.index == index && this.path == path && State() == Writer(Cut(index.paths, fn), 0)
    {
      this.index, this.path, this.fn, written := index, path, Cut(index.paths, fn), 0;
    }

    ghost function State(): Writer
      reads this
    {
      Writer(fn, written)
    }

    /** The step Write of a run: the file system takes n bytes. */
    method Write(n: nat, ghost writers: map<string, Writer>) returns (ghost s: Store)
      requires path in writers && writers[path] == State()
      modifies this`written, index.filesystem
      ensures s == Do(Store(index.paths, index.index, old(index.filesystem.files), writers),
                      FileIndexRuns.Write(path, n))
      ensures index.filesystem.files == s.files && State() == s.writers[path]
    {
      s := Do(Store(index.paths, index.index, index.filesystem.files, writers), FileIndexRuns.Write(path, n));
      if path in index.filesystem.files {
        index.filesystem.files := index.filesystem.files[path := index.filesystem.files[path] + n];
      }
      written := written + n;
    }

    /** The destructor: the step Close of a run. */
    method Close(ghost writers: map<string, Writer>) returns (ghost s: Store)
      requires path in writers && writers[path] == State()
      modifies index`index
      ensures s == Do(Store(index.paths, old(index.index), index.filesystem.files, writers), FileIndexRuns.Close(path))
      ensures index.index == s.index
    {
      s := Do(Store(index.paths, index.index, index.filesystem.files, writers), FileIndexRuns.Close(path));
      index.UpdateFilesize(fn, written);
    }
  }
}
