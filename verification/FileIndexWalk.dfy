/**
 The walk over the file index with a callback that may remove files, the one that it is called for or others.
 */
module FileIndexWalk {
  import opened FileIndex

  /** The callback: which files it removes when it is called for a file, and whether it fails. */
  datatype Callback = Callback(removes: string -> set<string>, fails: string -> bool)

  /** The files that were visited, the index afterwards, and whether a callback failed. */
  datatype Walked = Walked(visited: seq<string>, index: seq<IndexEntry>, err: bool)

  function Then(name: string, w: Walked): Walked { w.(visited := [name] + w.visited) }

  /** ftw_root: go to the next position, unless the index is shorter by exactly one. */
  function Walk(index: seq<IndexEntry>, it: nat, c: Callback): Walked
    decreases |index| - it
  {
    if it >= |index| then Walked([], index, false)
    else
      var name := index[it].fname;
      var rest := Without(index, c.removes(name));
      if c.fails(name) then Walked([name], rest, true)
      else Then(name, Walk(rest, if |rest| + 1 == |index| then it else it + 1, c))
  }

  /** The meant walk: the files of todo in their order, without those that were removed before their turn. */
  function InOrder(done: seq<IndexEntry>, todo: seq<IndexEntry>, c: Callback): Walked
    decreases |todo|
  {
    if todo == [] then Walked([], done, false)
    else
      var name := todo[0].fname;
      var done1, todo1 := Without(done + [todo[0]], c.removes(name)), Without(todo[1..], c.removes(name));
      if c.fails(name) then Walked([name], done1 + todo1, true) else Then(name, InOrder(done1, todo1, c))
  }

  /**
   The callback suits the walk: a call that removes one file does not remove one that is still to come, and a
   call that removes several removes only files that are still to come, unless it leaves none of these.
   */
  predicate Suits(done: seq<IndexEntry>, todo: seq<IndexEntry>, c: Callback)
    decreases |todo|
  {
    todo == [] || c.fails(todo[0].fname) ||
    var names := c.removes(todo[0].fname);
    var done1, todo1 := Without(done + [todo[0]], names), Without(todo[1..], names);
    && (if |done1| + |todo1| + 1 == |done| + |todo| then |done1| == |done|
        else |done1| == |done| + 1 || todo1 == [])
    && Suits(done1, todo1, c)
  }

  /** The walk visits the files in order, each once, if and only if the callback suits it. */
  lemma {:induction false} WalkIsInOrderIff(done: seq<IndexEntry>, todo: seq<IndexEntry>, c: Callback)
    requires NoDuplicates(done + todo)
    ensures Walk(done + todo, |done|, c).visited == InOrder(done, todo, c).visited <==> Suits(done, todo, c)
    ensures Suits(done, todo, c) ==> Walk(done + todo, |done|, c) == InOrder(done, todo, c)
    decreases |todo|
  {
    hide NoDuplicates;
    var index := done + todo;
    if todo == [] {
      assert index == done;
    } else if !c.fails(todo[0].fname) {
      var name := todo[0].fname;
      var names := c.removes(name);
      var done1, todo1 := Without(done + [todo[0]], names), Without(todo[1..], names);
      assert index == done + [todo[0]] + todo[1..];
      WithoutSplits(done + [todo[0]], todo[1..], names);
      WithoutKeepsEntries(index, names);
      var rest := done1 + todo1;
      var it := if |rest| + 1 == |index| then |done| else |done| + 1;
      assert Walk(index, |done|, c) == Then(name, Walk(rest, it, c));
      WalkIsInOrderIff(done1, todo1, c);
      if it == |done1| {
      } else if todo1 == [] && it > |done1| {
        assert rest == done1;
      } else {
        WrongPosition(done, todo, names, done1, todo1, it, c);
      }
      assert Then(name, Walk(rest, it, c)).visited == Then(name, InOrder(done1, todo1, c)).visited <==>
             Walk(rest, it, c).visited == InOrder(done1, todo1, c).visited by {
        FirstDropped(name, Walk(rest, it, c).visited);
        FirstDropped(name, InOrder(done1, todo1, c).visited);
      }
    } else {
      assert index == done + [todo[0]] + todo[1..];
      WithoutSplits(done + [todo[0]], todo[1..], c.removes(todo[0].fname));
    }
  }

  lemma FirstDropped(name: string, s: seq<string>)
    ensures ([name] + s)[1..] == s
  {
  }

  /** From a wrong position the next file, if any, is another one than in order. */
  lemma WrongPosition(done: seq<IndexEntry>, todo: seq<IndexEntry>, names: set<string>,
                      done1: seq<IndexEntry>, todo1: seq<IndexEntry>, it: nat, c: Callback)
    requires NoDuplicates(done1 + todo1) && it != |done1| && (todo1 != [] || it < |done1|)
    ensures Walk(done1 + todo1, it, c).visited != InOrder(done1, todo1, c).visited
  {
    var rest := done1 + todo1;
    if it < |rest| {
      assert Walk(rest, it, c).visited[0] == rest[it].fname;
      if todo1 != [] {
        assert InOrder(done1, todo1, c).visited[0] == todo1[0].fname == rest[|done1|].fname;
      }
    }
  }

  // ----- what the meant walk does -----

  /**
   In the meant walk no file is visited twice, a file is passed over only if an earlier call removed it, and
   what the calls have removed is exactly what is missing in the end.
   */
  lemma {:induction false} EachIsVisitedOrRemoved(done: seq<IndexEntry>, todo: seq<IndexEntry>, c: Callback)
    requires NoDuplicates(done + todo)
    ensures var w := InOrder(done, todo, c);
            && (forall a, b :: 0 <= a < b < |w.visited| ==> w.visited[a] != w.visited[b])
            && (forall v :: v in w.visited ==> exists e :: e in todo && e.fname == v)
            && (forall e :: e in todo && !w.err ==> e.fname in w.visited || RemovedBy(w.visited, c, e.fname))
            && (forall e :: e in w.index <==> e in done + todo && !RemovedBy(w.visited, c, e.fname))
    decreases |todo|
  {
    hide NoDuplicates, Without;
    if todo != [] {
      var first, name := todo[0], todo[0].fname;
      var names := c.removes(name);
      var done1, todo1 := Without(done + [first], names), Without(todo[1..], names);
      assert done + todo == done + [first] + todo[1..];
      WithoutSplits(done + [first], todo[1..], names);
      WithoutKeepsEntries(done + todo, names);
      WithoutKeepsEntries(done + [first], names);
      WithoutKeepsEntries(todo[1..], names);
      OthersHaveOtherNames(done, todo);
      if !c.fails(name) {
        EachIsVisitedOrRemoved(done1, todo1, c);
        var w := InOrder(done1, todo1, c);
        VisitedFirst(w.visited, c, name);
        assert name !in w.visited;
        DistinctFirst(name, w.visited);
      } else {
        VisitedFirst([], c, name);
      }
    }
  }

  ghost predicate RemovedBy(visited: seq<string>, c: Callback, name: string) {
    exists v :: v in visited && name in c.removes(v)
  }

  lemma OthersHaveOtherNames(done: seq<IndexEntry>, todo: seq<IndexEntry>)
    requires NoDuplicates(done + todo) && todo != []
    ensures forall e :: e in todo[1..] ==> e.fname != todo[0].fname
  {
    forall k | 0 < k < |todo| ensures todo[k].fname != todo[0].fname {
      assert (done + todo)[|done| + k] == todo[k] && (done + todo)[|done|] == todo[0];
    }
  }

  lemma DistinctFirst(name: string, s: seq<string>)
    requires name !in s && forall a, b :: 0 <= a < b < |s| ==> s[a] != s[b]
    ensures var t := [name] + s; forall a, b :: 0 <= a < b < |t| ==> t[a] != t[b]
  {
  }

  lemma VisitedFirst(visited: seq<string>, c: Callback, name: string)
    ensures forall n :: RemovedBy([name] + visited, c, n) <==> n in c.removes(name) || RemovedBy(visited, c, n)
  {
    forall n | n in c.removes(name) ensures RemovedBy([name] + visited, c, n) {
      assert name in [name] + visited;
    }
    forall n | RemovedBy(visited, c, n) ensures RemovedBy([name] + visited, c, n) {
      var v :| v in visited && n in c.removes(v);
      assert v in [name] + visited;
    }
  }

  // ----- callbacks that remove at most the file that they are called for -----

  function Names(index: seq<IndexEntry>): (names: seq<string>)
    ensures |names| == |index| && forall k :: 0 <= k < |index| ==> names[k] == index[k].fname
  {
    seq(|index|, k requires 0 <= k < |index| => index[k].fname)
  }

  /** The entries whose files the callback does not remove. */
  function Remaining(index: seq<IndexEntry>, c: Callback): seq<IndexEntry> {
    if index == [] then []
    else (if index[0].fname in c.removes(index[0].fname) then [] else [index[0]]) + Remaining(index[1..], c)
  }

  ghost predicate RemovesOnlyItself(c: Callback) {
    forall name, n :: n in c.removes(name) ==> n == name
  }

  lemma {:induction false} NothingRemoved(index: seq<IndexEntry>, names: set<string>)
    requires forall e :: e in index ==> e.fname !in names
    ensures Without(index, names) == index
  {
    if index != [] {
      NothingRemoved(index[1..], names);
    }
  }

  /** All files of todo are visited in order, until the callback fails, and what it has not removed stays. */
  ghost predicate VisitsAll(done: seq<IndexEntry>, todo: seq<IndexEntry>, c: Callback, w: Walked) {
    var v := |w.visited|;
    && v <= |todo| && w.visited == Names(todo)[..v]
    && (if w.err then v > 0 && c.fails(w.visited[v - 1]) else v == |todo|)
    && w.index == done + Remaining(todo[..v], c) + todo[v..]
  }

  lemma VisitsAllFirst(done: seq<IndexEntry>, todo: seq<IndexEntry>, c: Callback, w: Walked)
    requires todo != [] && VisitsAll(done + Remaining([todo[0]], c), todo[1..], c, w)
    ensures VisitsAll(done, todo, c, Then(todo[0].fname, w))
  {
    hide Remaining, Names;
    var v := |w.visited|;
    NamesFirst(todo, v);
    assert todo[..v + 1][1..] == todo[1..][..v] && todo[v + 1..] == todo[1..][v..];
    RemainingFirst(todo[..v + 1], c);
    assert [todo[0].fname] + w.visited == Names(todo)[..v + 1];
  }

  lemma VisitsFailing(done: seq<IndexEntry>, todo: seq<IndexEntry>, c: Callback)
    requires todo != [] && c.fails(todo[0].fname)
    ensures VisitsAll(done, todo, c, Walked([todo[0].fname], done + Remaining([todo[0]], c) + todo[1..], true))
  {
    assert todo[..1] == [todo[0]];
  }

  lemma VisitsNothing(done: seq<IndexEntry>, c: Callback)
    ensures VisitsAll(done, [], c, Walked([], done, false))
  {
    var none: seq<IndexEntry> := [];
    assert none[..0] == [] == none[0..] && Remaining([], c) == [] && done + [] + [] == done;
  }

  /** Callbacks that remove at most the file that they are called for suit every walk, and it visits all files. */
  lemma {:induction false} OwnRemovalSuits(done: seq<IndexEntry>, todo: seq<IndexEntry>, c: Callback)
    requires NoDuplicates(done + todo) && RemovesOnlyItself(c)
    ensures Suits(done, todo, c) && VisitsAll(done, todo, c, InOrder(done, todo, c))
    decreases |todo|
  {
    hide NoDuplicates, Without, Remaining, VisitsAll;
    VisitsNothing(done, c);
    if todo != [] {
      OwnRemoval(done, todo, c);
      var done1 := done + Remaining([todo[0]], c);
      if c.fails(todo[0].fname) {
        VisitsFailing(done, todo, c);
      } else {
        OwnRemovalSuits(done1, todo[1..], c);
        VisitsAllFirst(done, todo, c, InOrder(done1, todo[1..], c));
      }
    }
  }

  lemma NamesFirst(todo: seq<IndexEntry>, v: nat)
    requires 0 < |todo| && v < |todo|
    ensures Names(todo)[..v + 1] == [todo[0].fname] + Names(todo[1..])[..v]
  {
  }

  lemma OwnRemoval(done: seq<IndexEntry>, todo: seq<IndexEntry>, c: Callback)
    requires NoDuplicates(done + todo) && RemovesOnlyItself(c) && todo != []
    ensures var names, one := c.removes(todo[0].fname), Remaining([todo[0]], c);
            && Without(done + [todo[0]], names) == done + one && Without(todo[1..], names) == todo[1..]
            && |one| <= 1 && NoDuplicates(done + one + todo[1..])
  {
    hide Without, NoDuplicates;
    var names := c.removes(todo[0].fname);
    OthersHaveOtherNames(done, todo);
    EarlierHaveOtherNames(done, todo);
    NothingRemoved(todo[1..], names);
    NothingRemoved(done, names);
    RemainingOfOne(todo[0], c);
    WithoutKeepsEntries(done + todo, names);
    WithoutSplits(done, [todo[0]], names);
    WithoutSplits(done + [todo[0]], todo[1..], names);
    assert done + todo == done + [todo[0]] + todo[1..];
  }

  lemma EarlierHaveOtherNames(done: seq<IndexEntry>, todo: seq<IndexEntry>)
    requires NoDuplicates(done + todo) && todo != []
    ensures forall e :: e in done ==> e.fname != todo[0].fname
  {
    forall k | 0 <= k < |done| ensures done[k].fname != todo[0].fname {
      assert (done + todo)[k] == done[k] && (done + todo)[|done|] == todo[0];
    }
  }

  lemma RemainingOfOne(e: IndexEntry, c: Callback)
    ensures Remaining([e], c) == Without([e], c.removes(e.fname)) == if e.fname in c.removes(e.fname) then [] else [e]
  {
    assert Remaining([e][1..], c) == [] && Without([e][1..], c.removes(e.fname)) == [];
  }

  lemma RemainingFirst(index: seq<IndexEntry>, c: Callback)
    requires index != []
    ensures Remaining(index, c) == Remaining([index[0]], c) + Remaining(index[1..], c)
  {
    RemainingOfOne(index[0], c);
  }
}
