/**
 What an allocation does to the window, over the fields of the records: which ones give way at either end, and
 whether a regular record, a silent one or none is created.
 */
module JournalAllocation {
  import opened Wrappers
  import opened Cyclic
  import opened Journal
  import opened JournalInvariant

  /** The newest number gives way: its record is missing, silent, or aborted and to be cleaned, and can be removed. */
  predicate NewestGivesWay(j: Journal, i: nat, env: AllocEnv)
    requires j.Valid()
  {
    var nr := Prev(j.end, j.m);
    env.trimOk(i) &&
    (nr in j.store ==>
       var t := j.objs[j.store[nr]]; t.silent || (!t.start.requested && !t.active && j.cleanAborted))
  }

  /** The oldest number gives way: its record is missing, completed, aborted, or silent and stopped. */
  predicate OldestGivesWay(j: Journal, i: nat, env: AllocEnv)
    requires j.Valid()
  {
    env.historyRemoveOk(i) &&
    (j.begin in j.store ==>
       var t := j.objs[j.store[j.begin]];
       t.stop.confirmed || (!t.start.requested && !t.active) || (t.silent && t.stop.requested))
  }

  /** Without the newest n numbers. A front at the end moves back with the end. */
  function WithoutNewest(j: Journal, n: nat): (r: Journal)
    requires j.Valid()
    ensures r.Valid()
    decreases n
  {
    if n == 0 then j
    else
      var nr := Prev(j.end, j.m);
      WithoutNewest(j.(store := j.store - {nr}, front := if j.front == j.end then nr else j.front, end := nr), n - 1)
  }

  /** Without the oldest n numbers. A front at the beginning moves on with the beginning. */
  function WithoutOldest(j: Journal, n: nat): (r: Journal)
    requires j.Valid()
    ensures r.Valid()
    decreases n
  {
    if n == 0 then j
    else
      var next := Next(j.begin, j.m);
      WithoutOldest(j.(store := j.store - {j.begin}, begin := next,
                       front := if j.front == j.begin then next else j.front), n - 1)
  }

  /** Up to limit numbers give way at the end, as many as can: these are n. */
  ghost predicate GiveWayAtEnd(j: Journal, env: AllocEnv, i: nat, limit: nat, n: nat)
    requires j.Valid()
  {
    && n <= limit
    && (forall x: nat :: x < n ==> NewestGivesWay(WithoutNewest(j, x), i + x, env))
    && (n < limit ==> !NewestGivesWay(WithoutNewest(j, n), i + n, env))
  }

  lemma {:induction false} TrimBackMeaning(j: Journal, k: nat, i: nat, env: AllocEnv) returns (n: nat)
    requires j.Valid()
    ensures GiveWayAtEnd(j, env, i, k, n) && TrimBack(j, k, i, env) == WithoutNewest(j, n)
    decreases k
  {
    hide NewestGivesWay, WithoutNewest;
    TrimBackOnce(j, k, i, env);
    FirstOfEnd(j, i, env);
    if k > 0 && NewestGivesWay(j, i, env) {
      var rest := TrimBackMeaning(DropNewest(j), k - 1, i + 1, env);
      n := rest + 1;
      NextOfEnd(j, rest);
      forall x: nat | x < n ensures NewestGivesWay(WithoutNewest(j, x), i + x, env) {
        if x > 0 {
          NextOfEnd(j, x - 1);
          var y: nat := x - 1;
          assert NewestGivesWay(WithoutNewest(DropNewest(j), y), i + 1 + y, env);
        }
      }
    } else {
      n := 0;
    }
  }

  lemma FirstOfEnd(j: Journal, i: nat, env: AllocEnv)
    requires j.Valid()
    ensures WithoutNewest(j, 0) == j
    ensures NewestGivesWay(j, i, env)
            <==> var tx := j.Lookup(Prev(j.end, j.m));
                 (tx.None? || TrimsBack(j.objs[tx.value], j.cleanAborted)) && env.trimOk(i)
  {
  }

  lemma NextOfEnd(j: Journal, n: nat)
    requires j.Valid()
    ensures WithoutNewest(j, n + 1) == WithoutNewest(DropNewest(j), n)
  {
  }

  /** After round x of the loop that begins with round i the record can be created. */
  predicate CreatesAfter(env: AllocEnv, i: nat, x: nat) { env.historyCreateOk(i + x) }

  /** Up to limit numbers give way at the beginning, until a record can be created: these are n. */
  ghost predicate GiveWayAtBeginning(j: Journal, env: AllocEnv, i: nat, limit: nat, n: nat, created: bool)
    requires j.Valid()
  {
    && n <= limit
    && (forall x: nat :: x < n ==> OldestGivesWay(WithoutOldest(j, x), i + x, env))
    && (forall x: nat :: x < n ==> (CreatesAfter(env, i, x) <==> created && x == n - 1))
    && (created ==> n > 0)
    && (!created && n < limit ==> !OldestGivesWay(WithoutOldest(j, n), i + n, env))
  }

  lemma {:induction false} TrimHistoryMeaning(j: Journal, k: nat, i: nat, env: AllocEnv) returns (n: nat)
    requires j.Valid()
    ensures GiveWayAtBeginning(j, env, i, k, n, TrimHistory(j, k, i, env).1)
    ensures TrimHistory(j, k, i, env).0 == WithoutOldest(j, n)
    decreases k
  {
    hide OldestGivesWay, WithoutOldest, OldestGoes;
    TrimHistoryOnce(j, k, i, env);
    FirstOfBeginning(j, i, env);
    NextOfBeginning(j, 0);
    FirstOfBeginning(DropOldest(j), i, env);
    n := 0;
    if k > 0 && OldestGoes(j, i, env) {
      n := 1;
      if !env.historyCreateOk(i) {
        var rest := TrimHistoryMeaning(DropOldest(j), k - 1, i + 1, env);
        n := rest + 1;
        NextOfBeginning(j, rest);
        forall x: nat | x < n
          ensures OldestGivesWay(WithoutOldest(j, x), i + x, env)
          ensures CreatesAfter(env, i, x) <==> TrimHistory(j, k, i, env).1 && x == n - 1
        {
          if x > 0 {
            NextOfBeginning(j, x - 1);
            var y: nat := x - 1;
            assert OldestGivesWay(WithoutOldest(DropOldest(j), y), i + 1 + y, env);
            assert CreatesAfter(env, i + 1, y) <==> TrimHistory(j, k, i, env).1 && y == rest - 1;
          }
        }
      }
    }
  }

  lemma FirstOfBeginning(j: Journal, i: nat, env: AllocEnv)
    requires j.Valid()
    ensures WithoutOldest(j, 0) == j && (OldestGivesWay(j, i, env) <==> OldestGoes(j, i, env))
  {
  }

  lemma NextOfBeginning(j: Journal, n: nat)
    requires j.Valid()
    ensures WithoutOldest(j, n + 1) == WithoutOldest(DropOldest(j), n)
  {
  }

  /** b numbers give way at the end, then h at the beginning, and the result is room for that kind of record. */
  ghost predicate MakesRoom(j: Journal, env: AllocEnv, b: nat, h: nat, r: Journal, room: Room)
    requires j.Valid()
  {
    var j1 := WithoutNewest(j, b);
    && GiveWayAtEnd(j, env, 0, j.WindowSize(), b)
    && (if j1.WindowSize() < j1.size && env.createOk then h == 0 && r == j1 && room == Regular
        else
          && r == WithoutOldest(j1, h)
          && GiveWayAtBeginning(j1, env, 0, j1.WindowSize(), h, room == Regular)
          && (room != Regular ==> room == if env.silentOffline && env.silentCreateOk then Silent else NoRoom))
  }

  /**
   An allocation first lets silent, aborted and missing records give way at the end. If fewer than
   MO_TXRECORD_SIZE numbers are left and the record can be created, that is all; otherwise finished records give
   way at the beginning until the record can be created, and if it cannot, a silent one is made if configured.
   */
  lemma AllocationMakesRoom(j: Journal, env: AllocEnv) returns (b: nat, h: nat)
    requires j.Valid()
    ensures MakesRoom(j, env, b, h, MakeRoom(j, env).0, MakeRoom(j, env).1)
  {
    hide TrimBack, TrimHistory, WithoutNewest, WithoutOldest, GiveWayAtEnd, GiveWayAtBeginning;
    b := TrimBackMeaning(j, j.WindowSize(), 0, env);
    var j1 := WithoutNewest(j, b);
    h := 0;
    if !(j1.WindowSize() < j1.size && env.createOk) {
      h := TrimHistoryMeaning(j1, j1.WindowSize(), 0, env);
    }
  }

  /** A begin call makes room and puts the new record, the next object, at the end of the window. */
  lemma BeginMovesWindow(j: Journal, authorized: bool, env: AllocEnv)
    requires j.Valid()
    ensures var q, r := MakeRoom(j, env).0, Begin(j, authorized, env);
            if j.transaction.Some? then r == j
            else if MakeRoom(j, env).1.NoRoom? then r == q
            else
              && r.store == q.store[q.end := |q.objs|] && r.end == (q.end + 1) % q.m && r.begin == q.begin
              && r.front == q.front && r.transactionFront == q.transactionFront
              && r.transaction == Some(|q.objs|) && |r.objs| == |q.objs| + 1 && r.objs[|q.objs|].nr == q.end
  {
    hide MakeRoom;
    var q := MakeRoom(j, env).0;
    ModularForms(q.end, 0, q.m);
  }
}
