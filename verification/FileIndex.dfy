/**
 The file index: a list of names and sizes that answers for the file system below it, as functions.
 */
module FileIndex {
  import opened Wrappers

  type BufferSize = n: int | n > 0 witness 1

  /** MO_FILENAME_PREFIX and MO_MAX_PATH_SIZE. */
  datatype Paths = Paths(prefix: string, maxPath: BufferSize)

  datatype IndexEntry = IndexEntry(fname: string, size: nat)

  ghost predicate NoDuplicates(index: seq<IndexEntry>) {
    forall a, b :: 0 <= a < b < |index| ==> index[a].fname != index[b].fname
  }

  /** The size of the first entry with that name. */
  function Find(index: seq<IndexEntry>, fn: string): Option<nat> {
    if index == [] then None
    else if index[0].fname == fn then Some(index[0].size)
    else Find(index[1..], fn)
  }

  /** Set the size of the first entry with that name, if there is one. */
  function SetSize(index: seq<IndexEntry>, fn: string, size: nat): (r: seq<IndexEntry>)
    ensures |r| == |index| && forall k :: 0 <= k < |index| ==> r[k].fname == index[k].fname
  {
    if index == [] then []
    else if index[0].fname == fn then [IndexEntry(fn, size)] + index[1..]
    else [index[0]] + SetSize(index[1..], fn, size)
  }

  /** What is left when files are removed. */
  function Without(index: seq<IndexEntry>, names: set<string>): (r: seq<IndexEntry>)
    ensures |r| <= |index|
  {
    if index == [] then []
    else (if index[0].fname in names then [] else [index[0]]) + Without(index[1..], names)
  }

  /** A file that is opened for writing is empty. */
  function Opened(index: seq<IndexEntry>, fn: string): seq<IndexEntry> {
    if Find(index, fn).None? then index + [IndexEntry(fn, 0)] else SetSize(index, fn, 0)
  }

  lemma {:induction false} FindMeansContains(index: seq<IndexEntry>, fn: string)
    ensures Find(index, fn).Some? <==> exists k :: 0 <= k < |index| && index[k].fname == fn
  {
    if index != [] {
      FindMeansContains(index[1..], fn);
      if k :| 0 <= k < |index| && index[k].fname == fn {
        assert k > 0 ==> index[1..][k - 1].fname == fn;
      }
      if k :| 0 <= k < |index| - 1 && index[1..][k].fname == fn {
        assert index[k + 1].fname == fn;
      }
    }
  }

  lemma {:induction false} FindAfterSetSize(index: seq<IndexEntry>, fn: string, size: nat, g: string)
    ensures Find(SetSize(index, fn, size), g) == if g == fn && Find(index, g).Some? then Some(size) else Find(index, g)
  {
    if index != [] {
      FindAfterSetSize(index[1..], fn, size, g);
    }
  }

  lemma {:induction false} FindAfterAppend(index: seq<IndexEntry>, e: IndexEntry, g: string)
    ensures Find(index + [e], g)
            == if Find(index, g).Some? then Find(index, g) else if g == e.fname then Some(e.size) else None
  {
    if index != [] {
      FindAfterAppend(index[1..], e, g);
      assert (index + [e])[1..] == index[1..] + [e];
    }
  }

  lemma {:induction false} FindAfterRemoval(index: seq<IndexEntry>, names: set<string>, g: string)
    ensures Find(Without(index, names), g) == if g in names then None else Find(index, g)
  {
    if index != [] {
      FindAfterRemoval(index[1..], names, g);
      if index[0].fname in names {
        assert Without(index, names) == Without(index[1..], names);
      } else {
        assert Without(index, names)[1..] == Without(index[1..], names);
      }
    }
  }

  lemma FindAfterOpen(index: seq<IndexEntry>, fn: string, g: string)
    ensures Find(Opened(index, fn), g) == if g == fn then Some(0) else Find(index, g)
  {
    hide Find, SetSize;
    FindAfterSetSize(index, fn, 0, g);
    FindAfterAppend(index, IndexEntry(fn, 0), g);
  }

  lemma OpenKeepsNoDuplicates(index: seq<IndexEntry>, fn: string)
    requires NoDuplicates(index)
    ensures NoDuplicates(Opened(index, fn))
  {
    hide Find;
    FindMeansContains(index, fn);
  }

  lemma {:induction false} WithoutKeepsEntries(index: seq<IndexEntry>, names: set<string>)
    ensures forall e :: e in Without(index, names) <==> e in index && e.fname !in names
    ensures NoDuplicates(index) ==> NoDuplicates(Without(index, names))
  {
    if index != [] {
      WithoutKeepsEntries(index[1..], names);
      var rest := Without(index[1..], names);
      forall k | 0 <= k < |rest| ensures rest[k] in index[1..] {
      }
    }
  }

  lemma WithoutFirst(index: seq<IndexEntry>, names: set<string>)
    ensures index == [] ==> Without(index, names) == []
    ensures index != [] ==>
              Without(index, names)
              == (if index[0].fname in names then [] else [index[0]]) + Without(index[1..], names)
  {
  }

  lemma {:induction false} WithoutSplits(a: seq<IndexEntry>, b: seq<IndexEntry>, names: set<string>)
    ensures Without(a + b, names) == Without(a, names) + Without(b, names)
  {
    hide Without;
    WithoutFirst(a, names);
    if a == [] {
      assert a + b == b;
    } else {
      WithoutSplits(a[1..], b, names);
      WithoutFirst(a + b, names);
      assert (a + b)[1..] == a[1..] + b;
    }
  }
}
