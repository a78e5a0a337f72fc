/**
 The two passes of a differential update. The first one looks every command up, blanks the entries to remove
 and remembers their slots; the second one writes the other commands to the slots they were found in, to
 blanked slots, or to new ones.
 */
module AuthUpdates {
  import opened Wrappers
  import opened CStrings
  import opened AuthDatas
  import opened AuthLists

  function Tag(json: seq<Entry>, k: nat): string
    requires k < |json| && json[k].idTag.Some?
  {
    json[k].idTag.value
  }

  /** Blanked slots, each of them once. */
  ghost predicate Slots(s: seq<Data>, free: seq<nat>) {
    && (forall k :: 0 <= k < |free| ==> free[k] < |s| && s[free[k]].idTag == "")
    && (forall a, b :: 0 <= a < b < |free| ==> free[a] != free[b])
  }

  /** Command k, if it changes an entry, has found its slot or none. */
  ghost predicate Pointed(s: seq<Data>, json: seq<Entry>, index: seq<int>, k: nat)
    requires k < |json| == |index| && json[k].idTag.Some?
  {
    -1 <= index[k] < |s| && (json[k].info.Some? && index[k] >= 0 ==> s[index[k]].idTag == Tag(json, k))
  }

  /** Command k changes the entry in its slot, or no entry has its tag. */
  ghost predicate Indexed(s: seq<Data>, m: map<string, Data>, json: seq<Entry>, index: seq<int>, k: nat)
    requires k < |json| == |index| && json[k].idTag.Some?
  {
    && -1 <= index[k] < |s|
    && (json[k].info.Some? ==>
          if index[k] >= 0 then s[index[k]].idTag == Tag(json, k) else Tag(json, k) !in m)
  }

  // ----- which commands are found -----

  /** Slot p is as before, or blanked by one of the first i commands. */
  ghost predicate BlankedOrSame(s0: seq<Data>, s: seq<Data>, json: seq<Entry>, i: nat, p: nat)
    requires p < |s0| == |s| && i <= |json|
  {
    s[p] == s0[p] || (s[p] == s0[p].(idTag := "") && Removes(json, i, s0[p].idTag))
  }

  /** The list after all commands were looked up: those to be removed that were found are blanked. */
  ghost function Blanking(s: seq<Data>, json: seq<Entry>): (r: seq<Data>)
    requires AllTagged(json)
    ensures |r| == |s|
  {
    if json == [] then s
    else
      var e := json[|json| - 1];
      var r := Blanking(s, json[..|json| - 1]);
      var pos := FindSlot(r, e.idTag.value);
      if e.info.None? && pos >= 0 then r[pos := r[pos].(idTag := "")] else r
  }

  /** How many commands are not found although their tag is stored at that time. */
  ghost function Misses(s: seq<Data>, json: seq<Entry>): nat
    requires AllTagged(json)
  {
    if json == [] then 0
    else
      var init, t := json[..|json| - 1], json[|json| - 1].idTag.value;
      Misses(s, init) + if Missed(Blanking(s, init), t) then 1 else 0
  }

  ghost predicate Missed(s: seq<Data>, t: string) { FindSlot(s, t) < 0 && Holds(s, t) }

  lemma BlankingNext(s0: seq<Data>, json: seq<Entry>, i: nat)
    requires AllTagged(json) && i < |json|
    ensures AllTagged(json[..i]) && AllTagged(json[..i + 1])
    ensures var s := Blanking(s0, json[..i]); var pos := FindSlot(s, Tag(json, i));
            && Blanking(s0, json[..i + 1])
               == (if json[i].info.None? && pos >= 0 then s[pos := s[pos].(idTag := "")] else s)
            && Misses(s0, json[..i + 1]) == Misses(s0, json[..i]) + if Missed(s, Tag(json, i)) then 1 else 0
  {
    assert json[..i + 1][..i] == json[..i];
  }

  lemma LaterBound(s0: seq<Data>, s: seq<Data>, json: seq<Entry>, i: nat, p: nat)
    requires i < |json| && p < |s0| == |s| && BlankedOrSame(s0, s, json, i, p)
    ensures BlankedOrSame(s0, s, json, i + 1, p)
  {
  }

  lemma AfterRemoval(s0: seq<Data>, s: seq<Data>, json: seq<Entry>, i: nat, pos: nat, p: nat)
    requires i < |json| && pos < |s0| == |s| && p < |s|
    requires BlankedOrSame(s0, s, json, i, pos) && BlankedOrSame(s0, s, json, i, p)
    requires json[i].info.None? && s[pos].idTag != "" && json[i].idTag == Some(s[pos].idTag)
    ensures BlankedOrSame(s0, s[pos := s[pos].(idTag := "")], json, i + 1, p)
  {
    LaterBound(s0, s, json, i, p);
  }

  ghost predicate AllBlankedOrSame(s0: seq<Data>, s: seq<Data>, json: seq<Entry>, i: nat)
    requires |s0| == |s| && i <= |json|
  {
    forall p :: 0 <= p < |s| ==> BlankedOrSame(s0, s, json, i, p)
  }

  /** Only the removal of its own entry changes a slot. */
  lemma {:induction false} BlankingBlanks(s0: seq<Data>, json: seq<Entry>, i: nat)
    requires DistinctTags(json) && i <= |json|
    ensures AllTagged(json[..i]) && AllBlankedOrSame(s0, Blanking(s0, json[..i]), json, i)
    decreases i
  {
    hide Blanking, BlankedOrSame, FindSlot;
    if i == 0 {
      BlankingStarts(s0, json);
    } else {
      var j, t := i - 1, Tag(json, i - 1);
      BlankingBlanks(s0, json, j);
      BlankingNext(s0, json, j);
      var s := Blanking(s0, json[..j]);
      SlotHasTag(s, t);
      forall p | 0 <= p < |s0| ensures BlankedOrSame(s0, Blanking(s0, json[..i]), json, i, p) {
        LaterBound(s0, s, json, j, p);
        if json[j].info.None? && FindSlot(s, t) >= 0 {
          AfterRemoval(s0, s, json, j, FindSlot(s, t), p);
        }
      }
    }
  }

  lemma BlankingStarts(s0: seq<Data>, json: seq<Entry>)
    requires AllTagged(json)
    ensures AllTagged(json[..0]) && Blanking(s0, json[..0]) == s0 && Misses(s0, json[..0]) == 0
    ensures AllBlankedOrSame(s0, s0, json, 0)
  {
    assert json[..0] == [];
  }

  lemma SlotHasTag(s: seq<Data>, t: string)
    ensures FindSlot(s, t) >= 0 ==> s[FindSlot(s, t)].idTag == t && Holds(s, t)
  {
    BisectHits(s, t, 0, |s| - 1);
  }

  /** A slot whose tag no earlier command mentions is as before, and the other way round. */
  lemma SlotOfNext(s0: seq<Data>, s: seq<Data>, json: seq<Entry>, i: nat, p: nat)
    requires WellFormed(s0, json) && i < |json| && p < |s0| == |s| && AllBlankedOrSame(s0, s, json, i)
    ensures s[p].idTag == Tag(json, i) <==> s0[p].idTag == Tag(json, i)
    ensures s[p].idTag == Tag(json, i) ==> s[p] == s0[p]
  {
    hide Sorted;
    assert BlankedOrSame(s0, s, json, i, p);
  }

  lemma BlankedAfter(z: seq<Data>, s0: seq<Data>, s: seq<Data>, json: seq<Entry>, i: nat)
    requires Blanked(z, s0) && |s| == |s0| && i <= |json| && AllBlankedOrSame(s0, s, json, i)
    ensures Blanked(z, s) && SortedWithBlanks(s)
  {
    hide Sorted;
    forall p | 0 <= p < |s| ensures s[p] == z[p] || s[p] == z[p].(idTag := "") {
      assert BlankedOrSame(s0, s, json, i, p);
    }
  }

  /** Command i is missed if and only if its entry is hidden. */
  lemma MissedIffHidden(s0: seq<Data>, json: seq<Entry>, i: nat, q: nat)
    requires WellFormed(s0, json) && i < |json| && q < |s0| && s0[q].idTag == Tag(json, i)
    ensures AllTagged(json[..i])
    ensures var s := Blanking(s0, json[..i]);
            && s[q] == s0[q] && FindSlot(s, Tag(json, i)) == if Hidden(s, q, 0, |s| - 1) then -1 else q
    ensures Missed(Blanking(s0, json[..i]), Tag(json, i)) <==> Hidden(Blanking(s0, json[..i]), q, 0, |s0| - 1)
  {
    hide Hidden, Bisect, Blanking, BlankedOrSame, Sorted, Blanked;
    BlankingBlanks(s0, json, i);
    var s := Blanking(s0, json[..i]);
    SlotOfNext(s0, s, json, i, q);
    var z :| Blanked(z, s0);
    BlankedAfter(z, s0, s, json, i);
    BisectFindsIff(z, s, q, 0, |s| - 1);
  }

  lemma {:induction false} MissesGrow(s0: seq<Data>, json: seq<Entry>, i: nat)
    requires AllTagged(json) && i <= |json|
    ensures AllTagged(json[..i]) && Misses(s0, json[..i]) <= Misses(s0, json)
    decreases |json| - i
  {
    hide Misses, Blanking;
    if i < |json| {
      MissesGrow(s0, json, i + 1);
      BlankingNext(s0, json, i);
    } else {
      assert json[..i] == json;
    }
  }

  /** A slot that is blanked stays so. */
  lemma {:induction false} BlanksStay(s0: seq<Data>, json: seq<Entry>, i: nat, k: nat, p: nat)
    requires AllTagged(json) && i <= k <= |json| && p < |s0|
    requires AllTagged(json[..i]) && Blanking(s0, json[..i])[p].idTag == ""
    ensures AllTagged(json[..k]) && Blanking(s0, json[..k])[p].idTag == ""
    decreases k
  {
    hide Blanking;
    if i < k {
      BlanksStay(s0, json, i, k - 1, p);
      BlankingNext(s0, json, k - 1);
    }
  }

  /** If nothing is missed, the entry that command a removes is blanked from then on. */
  lemma RemovedIsBlanked(s0: seq<Data>, json: seq<Entry>, a: nat, b: nat, p: nat)
    requires WellFormed(s0, json) && a < b <= |json| && p < |s0|
    requires json[a].info.None? && s0[p].idTag == Tag(json, a) && Misses(s0, json) == 0
    ensures AllTagged(json[..b]) && Blanking(s0, json[..b])[p].idTag == ""
  {
    hide Misses, Blanking, Sorted, Hidden, FindSlot;
    MissesGrow(s0, json, a + 1);
    BlankingNext(s0, json, a);
    MissedIffHidden(s0, json, a, p);
    BlanksStay(s0, json, a + 1, b, p);
  }

  lemma {:induction false} NothingIsMissed(s0: seq<Data>, json: seq<Entry>, i: nat)
    requires WellFormed(s0, json) && !HidesLater(s0, json) && i <= |json|
    ensures AllTagged(json[..i]) && Misses(s0, json[..i]) == 0
    decreases i
  {
    hide Misses, Blanking, Sorted, Bisect, BlankedOrSame, FindSlot;
    if i == 0 {
      BlankingStarts(s0, json);
    } else {
      var j := i - 1;
      NothingIsMissed(s0, json, j);
      BlankingNext(s0, json, j);
      BlankingBlanks(s0, json, j);
      var s := Blanking(s0, json[..j]);
      if Missed(s, Tag(json, j)) {
        var q :| 0 <= q < |s| && s[q].idTag == Tag(json, j);
        SlotOfNext(s0, s, json, j, q);
        MissedIffHidden(s0, json, j, q);
        var p :| q < p < |s| && s[p].idTag == "" && OnPath(p, q, 0, |s| - 1);
        HiderIsRemoved(s0, s, json, j, p, q);
      }
    }
  }

  lemma HiderIsRemoved(s0: seq<Data>, s: seq<Data>, json: seq<Entry>, i: nat, p: nat, q: nat)
    requires WellFormed(s0, json) && i < |json| && q < p < |s0| == |s| && AllBlankedOrSame(s0, s, json, i)
    requires s[p].idTag == "" && s0[q].idTag == Tag(json, i) && OnPath(p, q, 0, |s| - 1)
    ensures HidesLater(s0, json)
  {
    hide Sorted;
    assert BlankedOrSame(s0, s, json, i, p);
    assert Hides(s0, json, i, p, q);
  }

  lemma HiderIsBlanked(s0: seq<Data>, json: seq<Entry>, b: nat, p: nat)
    requires WellFormed(s0, json) && b < |json| && p < |s0| && Misses(s0, json) == 0
    requires s0[p].idTag == "" || Removes(json, b, s0[p].idTag)
    ensures AllTagged(json[..b]) && Blanking(s0, json[..b])[p].idTag == ""
  {
    hide Misses, Blanking, Sorted;
    BlankingBlanks(s0, json, b);
    assert BlankedOrSame(s0, Blanking(s0, json[..b]), json, b, p);
    if s0[p].idTag != "" {
      var a :| 0 <= a < b && json[a].info.None? && json[a].idTag == Some(s0[p].idTag);
      RemovedIsBlanked(s0, json, a, b, p);
    }
  }

  /**
   Every command whose tag is stored is found if and only if on the way of the binary search to its entry, and
   behind it, there is no slot that is blank or whose entry an earlier command removes.
   */
  lemma MissesNothingIff(s0: seq<Data>, json: seq<Entry>)
    requires WellFormed(s0, json)
    ensures Misses(s0, json) == 0 <==> !HidesLater(s0, json)
  {
    hide Misses, Blanking, Sorted;
    if HidesLater(s0, json) {
      if Misses(s0, json) == 0 {
        var b, p, q :| 0 <= b < |json| && 0 <= q < p < |s0| && Hides(s0, json, b, p, q);
        HiderIsBlanked(s0, json, b, p);
        MissedIffHidden(s0, json, b, q);
        BlankingNext(s0, json, b);
        MissesGrow(s0, json, b + 1);
      }
    } else {
      NothingIsMissed(s0, json, |json|);
      assert json[..|json|] == json;
    }
  }

  /** Three entries: removing the middle one hides the first one from a command that changes it. */
  lemma RemovalHidesChange(a: Data, b: Data, c: Data, info: Info)
    requires Proper([a, b, c]) && |a.idTag| <= IDTAG_LEN_MAX && |b.idTag| <= IDTAG_LEN_MAX
    ensures var json := [Entry(Some(b.idTag), None), Entry(Some(a.idTag), Some(info))];
            WellFormed([a, b, c], json) && Misses([a, b, c], json) > 0
  {
    var s, json := [a, b, c], [Entry(Some(b.idTag), None), Entry(Some(a.idTag), Some(info))];
    ProperHasNoBlanks(s);
    assert Before(s[0].idTag, s[1].idTag);
    BeforeIsOneWay(a.idTag, b.idTag);
    assert |s[0].idTag| > 0 && |s[1].idTag| > 0;
    assert WellFormed(s, json);
    assert json[0].info.None? && Removes(json, 1, s[1].idTag) && OnPath(1, 0, 0, 2);
    assert Hides(s, json, 1, 1, 0);
    MissesNothingIff(s, json);
  }

  // ----- first pass -----

  /** How many of the commands a to b - 1 insert an entry. */
  ghost function Inserts(json: seq<Entry>, index: seq<int>, a: nat, b: nat): nat
    requires b <= |json| == |index|
    decreases b
  {
    if a >= b then 0
    else Inserts(json, index, a, b - 1) + if json[b - 1].info.Some? && index[b - 1] < 0 then 1 else 0
  }

  lemma {:induction false} InsertsStay(json: seq<Entry>, index: seq<int>, index2: seq<int>, a: nat, b: nat)
    requires b <= |json| == |index| == |index2| && forall k :: a <= k < b ==> index[k] == index2[k]
    ensures Inserts(json, index, a, b) == Inserts(json, index2, a, b)
    decreases b
  {
    if a < b {
      InsertsStay(json, index, index2, a, b - 1);
    }
  }

  lemma {:induction false} InsertsFirst(json: seq<Entry>, index: seq<int>, a: nat, b: nat)
    requires a < b <= |json| == |index|
    ensures Inserts(json, index, a, b)
            == (if json[a].info.Some? && index[a] < 0 then 1 else 0) + Inserts(json, index, a + 1, b)
    decreases b
  {
    if a < b - 1 {
      InsertsFirst(json, index, a, b - 1);
    }
  }

  /** The slots that are blank from the start; they count when the size is compared with the capacity. */
  function Blanks(s: seq<Data>): nat { |s| - |NonBlank(s)| }

  /**
   After i commands: length is what the size of the list is going to be, and what was blank before. Missed
   commands count as insertions.
   */
  ghost predicate Counting(s0: seq<Data>, s: seq<Data>, m: map<string, Data>, json: seq<Entry>, i: nat,
                           index: seq<int>, free: seq<nat>, length: int)
  {
    && WellFormed(s0, json) && Represents(s0, m) && i <= |json| == |index| && |s| == |s0|
    && s == Blanking(s0, json[..i]) && Slots(s, free)
    && length == |ApplyAll(m, json[..i])| + Misses(s0, json[..i]) + Blanks(s0)
    && length == |NonBlank(s)| + Inserts(json, index, 0, i) + Blanks(s0)
    && (forall k :: 0 <= k < i ==> Pointed(s, json, index, k))
  }

  /** After i commands none of which was missed. */
  ghost predicate Matching(s: seq<Data>, m: map<string, Data>, json: seq<Entry>, i: nat, index: seq<int>) {
    && DistinctTags(json) && i <= |json| == |index|
    && Represents(s, RemoveAll(m, json[..i]))
    && (forall k :: 0 <= k < i ==> Indexed(s, RemoveAll(m, json[..i]), json, index, k))
  }

  ghost predicate Lookup(s0: seq<Data>, s: seq<Data>, m: map<string, Data>, json: seq<Entry>, i: nat,
                         index: seq<int>, free: seq<nat>, length: int)
  {
    && Counting(s0, s, m, json, i, index, free, length)
    && (Misses(s0, json[..i]) == 0 ==> Matching(s, m, json, i, index))
  }

  lemma LookupStarts(s: seq<Data>, json: seq<Entry>, index: seq<int>)
    requires WellFormed(s, json) && |index| == |json|
    ensures Lookup(s, s, EntryMap(s), json, 0, index, [], |s|)
  {
    hide Compare, Represents, EntryMap, Distinct, NonBlank, Blanking, Misses, Inserts, AllBlankedOrSame, FindSlot,
         SortedWithBlanks;
    BlankedIsDistinct(s);
    RepresentsEntries(s);
    BlankingStarts(s, json);
    NothingAtFirst(EntryMap(s), json, index);
  }

  lemma NothingAtFirst(m: map<string, Data>, json: seq<Entry>, index: seq<int>)
    requires AllTagged(json) && |index| == |json|
    ensures ApplyAll(m, json[..0]) == m == RemoveAll(m, json[..0]) && Inserts(json, index, 0, 0) == 0
  {
  }

  lemma NextCommand(m: map<string, Data>, json: seq<Entry>, i: nat)
    requires DistinctTags(json) && i < |json|
    ensures json[..i + 1][..i] == json[..i] && AllTagged(json[..i]) && AllTagged(json[..i + 1])
    ensures ApplyAll(m, json[..i + 1]) == ApplyOne(ApplyAll(m, json[..i]), json[i])
    ensures RemoveAll(m, json[..i + 1])
            == if json[i].info.Some? then RemoveAll(m, json[..i]) else ApplyOne(RemoveAll(m, json[..i]), json[i])
    ensures Tag(json, i) in ApplyAll(m, json[..i]) <==> Tag(json, i) in RemoveAll(m, json[..i])
  {
    EarlierTagsDiffer(json, i);
    NotMentioned(m, json[..i], Tag(json, i));
    assert json[..i + 1][..i] == json[..i];
  }

  lemma SizeAfter(m: map<string, Data>, e: Entry)
    requires e.idTag.Some?
    ensures |ApplyOne(m, e)| == |m| + if e.info.Some? && e.idTag.value !in m then 1
                                      else if e.info.None? && e.idTag.value in m then -1 else 0
  {
    var t := e.idTag.value;
    if e.info.Some? {
      assert m[t := Read(e, false)].Keys == m.Keys + {t};
    } else {
      assert (m - {t}).Keys == m.Keys - {t};
    }
  }

  lemma SlotFreed(s: seq<Data>, free: seq<nat>, p: nat)
    requires Slots(s, free) && p < |s| && s[p].idTag != ""
    ensures Slots(s[p := s[p].(idTag := "")], free + [p])
  {
  }

  /** The other slots that are indexed hold other tags. */
  lemma OthersStayIndexed(s: seq<Data>, m: map<string, Data>, json: seq<Entry>, i: nat, index: seq<int>, p: nat, k: nat)
    requires DistinctTags(json) && k < i < |json| == |index| && p < |s| && s[p].idTag == Tag(json, i)
    requires Indexed(s, m, json, index, k)
    ensures Indexed(s[p := s[p].(idTag := "")], m - {s[p].idTag}, json, index[i := p], k)
  {
  }

  /** The tag of the next command is in the map if and only if it is still in the list. */
  lemma StillHeld(s0: seq<Data>, s: seq<Data>, m: map<string, Data>, json: seq<Entry>, i: nat)
    requires WellFormed(s0, json) && Represents(s0, m) && i < |json| && |s| == |s0| && s == Blanking(s0, json[..i])
    ensures AllTagged(json[..i]) && (Tag(json, i) in ApplyAll(m, json[..i]) <==> Holds(s, Tag(json, i)))
  {
    hide Sorted, Blanking, BlankedOrSame, ApplyAll, RemoveAll, Distinct;
    BlankingBlanks(s0, json, i);
    EarlierTagsDiffer(json, i);
    NotMentioned(m, json[..i], Tag(json, i));
    forall p | 0 <= p < |s| ensures s[p].idTag == Tag(json, i) <==> s0[p].idTag == Tag(json, i) {
      SlotOfNext(s0, s, json, i, p);
    }
    assert Holds(s, Tag(json, i)) <==> Holds(s0, Tag(json, i));
  }

  /** What the loop does with command i when the search returned pos. */
  function NextList(s: seq<Data>, json: seq<Entry>, i: nat, pos: int): (r: seq<Data>)
    requires i < |json| && -1 <= pos < |s|
    ensures |r| == |s|
  {
    if json[i].info.None? && pos >= 0 then s[pos := s[pos].(idTag := "")] else s
  }

  function NextFree(free: seq<nat>, json: seq<Entry>, i: nat, pos: int): seq<nat>
    requires i < |json| && -1 <= pos
  {
    if json[i].info.None? && pos >= 0 then free + [pos] else free
  }

  function NextLength(length: int, json: seq<Entry>, i: nat, pos: int): int
    requires i < |json|
  {
    if pos < 0 then length + (if json[i].info.Some? then 1 else 0)
    else if json[i].info.None? then length - 1 else length
  }

  lemma CountingStep(s0: seq<Data>, s: seq<Data>, m: map<string, Data>, json: seq<Entry>, i: nat,
                     index: seq<int>, free: seq<nat>, length: int)
    requires Counting(s0, s, m, json, i, index, free, length) && i < |json| && index[i] == -1
    ensures var pos := FindSlot(s, Tag(json, i));
            Counting(s0, NextList(s, json, i, pos), m, json, i + 1, index[i := pos],
                     NextFree(free, json, i, pos), NextLength(length, json, i, pos))
  {
    hide ApplyAll, RemoveAll, Blanking, Misses, Represents, FindSlot, SortedWithBlanks, NonBlank, Inserts, Slots,
         Pointed, Blanks;
    var t, pos := Tag(json, i), FindSlot(s, Tag(json, i));
    SlotHasTag(s, t);
    NextCommand(m, json, i);
    SizeAfter(ApplyAll(m, json[..i]), json[i]);
    BlankingNext(s0, json, i);
    StillHeld(s0, s, m, json, i);
    InsertsNext(json, index, i, pos);
    PointedNext(s, json, index, i, pos);
    if pos >= 0 {
      NonBlankCount(s, pos, s[pos].(idTag := ""));
      SlotFreed(s, free, pos);
    }
  }

  lemma InsertsNext(json: seq<Entry>, index: seq<int>, i: nat, pos: int)
    requires i < |json| == |index|
    ensures Inserts(json, index[i := pos], 0, i + 1)
            == Inserts(json, index, 0, i) + if json[i].info.Some? && pos < 0 then 1 else 0
  {
    InsertsStay(json, index, index[i := pos], 0, i);
  }

  lemma PointedNext(s: seq<Data>, json: seq<Entry>, index: seq<int>, i: nat, pos: int)
    requires DistinctTags(json) && i < |json| == |index| && -1 <= pos < |s|
    requires (forall k :: 0 <= k < i ==> Pointed(s, json, index, k)) && (pos >= 0 ==> s[pos].idTag == Tag(json, i))
    ensures var s2, index2, next := NextList(s, json, i, pos), index[i := pos], i + 1;
            forall k :: 0 <= k < next ==> Pointed(s2, json, index2, k)
  {
    var s2, index2, next := NextList(s, json, i, pos), index[i := pos], i + 1;
    forall k | 0 <= k < next ensures Pointed(s2, json, index2, k) {
      assert k < i ==> Pointed(s, json, index, k);
    }
  }

  lemma MatchingStep(s: seq<Data>, m: map<string, Data>, json: seq<Entry>, i: nat, index: seq<int>, pos: int)
    requires Matching(s, m, json, i, index) && i < |json| && -1 <= pos < |s|
    requires pos >= 0 ==> s[pos].idTag == Tag(json, i)
    requires pos < 0 ==> !Holds(s, Tag(json, i))
    ensures Matching(NextList(s, json, i, pos), m, json, i + 1, index[i := pos])
  {
    hide ApplyAll, RemoveAll, Distinct;
    var r, t := RemoveAll(m, json[..i]), Tag(json, i);
    NextCommand(m, json, i);
    if pos < 0 {
      assert t !in r;
      assert r - {t} == r;
    } else if json[i].info.None? {
      BlankOne(s, r, pos);
    }
    var s2, r2, index2, next := NextList(s, json, i, pos), RemoveAll(m, json[..i + 1]), index[i := pos], i + 1;
    forall k | 0 <= k < next ensures Indexed(s2, r2, json, index2, k) {
      if k < i {
        assert Indexed(s, r, json, index, k);
        if pos >= 0 && json[i].info.None? {
          OthersStayIndexed(s, r, json, i, index, pos, k);
        }
      }
    }
  }

  lemma LookupStep(s0: seq<Data>, s: seq<Data>, m: map<string, Data>, json: seq<Entry>, i: nat,
                   index: seq<int>, free: seq<nat>, length: int)
    requires Lookup(s0, s, m, json, i, index, free, length) && i < |json| && index[i] == -1
    ensures var pos := FindSlot(s, Tag(json, i));
            Lookup(s0, NextList(s, json, i, pos), m, json, i + 1, index[i := pos],
                   NextFree(free, json, i, pos), NextLength(length, json, i, pos))
  {
    hide Counting, Matching, FindSlot, Holds, NextList, NextFree, NextLength;
    CountingStep(s0, s, m, json, i, index, free, length);
    LookupIsTagged(s0, s, m, json, i, index, free, length);
    if Misses(s0, json[..i + 1]) == 0 {
      SlotHasTag(s, Tag(json, i));
      NotMissed(s0, s, m, json, i, index, free, length);
      MatchingStep(s, m, json, i, index, FindSlot(s, Tag(json, i)));
    }
  }

  lemma LookupIsTagged(s0: seq<Data>, s: seq<Data>, m: map<string, Data>, json: seq<Entry>, i: nat,
                       index: seq<int>, free: seq<nat>, length: int)
    requires Counting(s0, s, m, json, i, index, free, length)
    ensures i <= |json| && AllTagged(json) && DistinctTags(json)
  {
  }

  lemma NotMissed(s0: seq<Data>, s: seq<Data>, m: map<string, Data>, json: seq<Entry>, i: nat,
                  index: seq<int>, free: seq<nat>, length: int)
    requires Counting(s0, s, m, json, i, index, free, length) && i < |json|
    requires AllTagged(json[..i + 1]) && Misses(s0, json[..i + 1]) == 0
    ensures Misses(s0, json[..i]) == 0 && (FindSlot(s, Tag(json, i)) < 0 ==> !Holds(s, Tag(json, i)))
  {
    hide Misses, Blanking;
    BlankingNext(s0, json, i);
  }

  // ----- second pass -----

  /** After i commands, if none was missed; m is the map without the removed entries. */
  ghost predicate Changing(s: seq<Data>, m: map<string, Data>, json: seq<Entry>, i: nat,
                           index: seq<int>, free: seq<nat>)
  {
    && DistinctTags(json) && i <= |json| == |index|
    && Represents(s, ChangeAll(m, json[..i]))
    && Slots(s, free)
    && (forall k :: i <= k < |json| ==> Indexed(s, ChangeAll(m, json[..i]), json, index, k))
  }

  lemma ChangingStarts(s0: seq<Data>, s: seq<Data>, m: map<string, Data>, json: seq<Entry>,
                       index: seq<int>, free: seq<nat>, length: int)
    requires Lookup(s0, s, m, json, |json|, index, free, length)
    ensures AllTagged(json) && length == |ApplyAll(m, json)| + Misses(s0, json) + Blanks(s0)
    ensures s == Blanking(s0, json) && Filling(s, json, 0, index, free, length - Blanks(s0))
    ensures Misses(s0, json) == 0 ==> Changing(s, RemoveAll(m, json), json, 0, index, free)
  {
    hide RemoveAll, ApplyAll, Represents, Slots, Indexed, SortedWithBlanks, NonBlank, Inserts, Pointed, Misses, Blanks;
    assert json[..|json|] == json && json[..0] == [];
  }

  /** After i commands; length is what the size of the list is going to be. */
  ghost predicate Filling(s: seq<Data>, json: seq<Entry>, i: nat, index: seq<int>, free: seq<nat>, length: int) {
    && DistinctTags(json) && i <= |json| == |index| && Slots(s, free)
    && (forall k :: i <= k < |json| ==> Pointed(s, json, index, k))
    && length == |NonBlank(s)| + Inserts(json, index, i, |json|)
  }

  /** Command i goes to slot p, where its tag was found or which is blank, or to a new slot p at the end. */
  lemma FillingStep(s: seq<Data>, json: seq<Entry>, i: nat, index: seq<int>, free: seq<nat>, length: int,
                    rest: seq<nat>, p: nat)
    requires Filling(s, json, i, index, free, length) && i < |json| && json[i].info.Some?
    requires if index[i] >= 0 then p == index[i] && rest == free
             else if free != [] then p == free[|free| - 1] && rest == free[..|free| - 1]
             else p == |s| && rest == []
    ensures var d := Read(json[i], false);
            Filling(if p < |s| then s[p := d] else s + [d], json, i + 1, index[i := p], rest, length)
  {
    hide Read, NonBlank, Inserts, Slots;
    var d := Read(json[i], false);
    NextChange(map[], json, i);
    assert Pointed(s, json, index, i);
    InsertsFirst(json, index, i, |json|);
    InsertsStay(json, index, index[i := p], i + 1, |json|);
    if index[i] < 0 && free != [] {
      LastSlot(s, free, d);
    }
    if p < |s| {
      NonBlankCount(s, p, d);
    } else {
      NonBlankSnoc(s + [d]);
      assert (s + [d])[..|s|] == s;
    }
    SlotsAfterFill(s, json, i, index, free, rest, p);
    var s2, index2 := if p < |s| then s[p := d] else s + [d], index[i := p];
    forall k | i + 1 <= k < |json| ensures Pointed(s2, json, index2, k) {
      assert Pointed(s, json, index, k);
    }
  }

  lemma LastSlot(s: seq<Data>, free: seq<nat>, d: Data)
    requires Slots(s, free) && free != []
    ensures var p := free[|free| - 1]; p < |s| && s[p].idTag == "" && Slots(s[p := d], free[..|free| - 1])
  {
  }

  lemma SlotsAfterFill(s: seq<Data>, json: seq<Entry>, i: nat, index: seq<int>, free: seq<nat>, rest: seq<nat>, p: nat)
    requires DistinctTags(json) && i < |json| == |index| && Slots(s, free)
    requires if index[i] >= 0 then p == index[i] < |s| && s[p].idTag == Tag(json, i) && rest == free
             else if free != [] then p == free[|free| - 1] && rest == free[..|free| - 1]
             else p == |s| && rest == []
    ensures var d := Read(json[i], false); Slots(if p < |s| then s[p := d] else s + [d], rest)
  {
    hide Read;
  }

  lemma FillingSkipped(s: seq<Data>, json: seq<Entry>, i: nat, index: seq<int>, free: seq<nat>, length: int)
    requires Filling(s, json, i, index, free, length) && i < |json| && json[i].info.None?
    ensures Filling(s, json, i + 1, index, free, length)
  {
    hide NonBlank, Slots;
    InsertsFirst(json, index, i, |json|);
  }

  lemma NextChange(m: map<string, Data>, json: seq<Entry>, i: nat)
    requires DistinctTags(json) && i < |json|
    ensures AllTagged(json[..i]) && AllTagged(json[..i + 1])
    ensures ChangeAll(m, json[..i + 1])
            == if json[i].info.Some? then ApplyOne(ChangeAll(m, json[..i]), json[i]) else ChangeAll(m, json[..i])
    ensures Read(json[i], false).idTag == Tag(json, i) != ""
  {
    assert json[..i + 1][..i] == json[..i];
  }

  lemma ChangeSkipped(s: seq<Data>, m: map<string, Data>, json: seq<Entry>, i: nat, index: seq<int>, free: seq<nat>)
    requires Changing(s, m, json, i, index, free) && i < |json| && json[i].info.None?
    ensures Changing(s, m, json, i + 1, index, free)
  {
    hide ChangeAll, Represents, Slots, Indexed;
    NextChange(m, json, i);
  }

  /** Writing command i to slot p leaves the later commands indexed. */
  lemma LaterStayIndexed(s: seq<Data>, m: map<string, Data>, json: seq<Entry>, i: nat, index: seq<int>, p: nat, k: nat)
    requires DistinctTags(json) && i < k < |json| == |index| && p < |s|
    requires Indexed(s, m, json, index, k) && (s[p].idTag == Tag(json, i) || s[p].idTag == "")
    ensures Indexed(s[p := Read(json[i], false)], m[Tag(json, i) := Read(json[i], false)], json, index[i := p], k)
  {
  }

  /** Command i goes to slot p, where its tag was found or which is blank; free is what remains free. */
  lemma ChangeWritten(s: seq<Data>, m: map<string, Data>, json: seq<Entry>, i: nat, index: seq<int>,
                      free: seq<nat>, rest: seq<nat>, p: nat)
    requires Changing(s, m, json, i, index, free) && i < |json| && json[i].info.Some? && p < |s|
    requires if index[i] >= 0 then p == index[i] && rest == free
             else free != [] && p == free[|free| - 1] && rest == free[..|free| - 1]
    ensures Changing(s[p := Read(json[i], false)], m, json, i + 1, index[i := p], rest)
  {
    hide ChangeAll, Distinct, Compare, Read;
    var c, d := ChangeAll(m, json[..i]), Read(json[i], false);
    NextChange(m, json, i);
    assert Indexed(s, c, json, index, i);
    WriteOne(s, c, p, d);
    var s2, c2, index2 := s[p := d], c[Tag(json, i) := d], index[i := p];
    forall k | i < k < |json| ensures Indexed(s2, c2, json, index2, k) {
      LaterStayIndexed(s, c, json, i, index, p, k);
    }
    assert Slots(s[p := d], rest);
  }

  lemma AppendKeepsIndexed(s: seq<Data>, m: map<string, Data>, json: seq<Entry>, i: nat, index: seq<int>, k: nat)
    requires DistinctTags(json) && i < k < |json| == |index| && Indexed(s, m, json, index, k)
    ensures Indexed(s + [Read(json[i], false)], m[Tag(json, i) := Read(json[i], false)], json, index[i := |s|], k)
  {
  }

  /** Command i goes to a new slot at the end. */
  lemma ChangeAppended(s: seq<Data>, m: map<string, Data>, json: seq<Entry>, i: nat, index: seq<int>)
    requires Changing(s, m, json, i, index, []) && i < |json| && json[i].info.Some? && index[i] < 0
    ensures Changing(s + [Read(json[i], false)], m, json, i + 1, index[i := |s|], [])
  {
    hide ChangeAll, Distinct, Compare, Read;
    var c, d := ChangeAll(m, json[..i]), Read(json[i], false);
    NextChange(m, json, i);
    assert Indexed(s, c, json, index, i);
    AppendOne(s, c, d);
    var s2, c2, index2 := s + [d], c[Tag(json, i) := d], index[i := |s|];
    forall k | i < k < |json| ensures Indexed(s2, c2, json, index2, k) {
      AppendKeepsIndexed(s, c, json, i, index, k);
    }
  }

  /** In the end the list represents the updated map. */
  lemma ChangingEnds(s: seq<Data>, m: map<string, Data>, json: seq<Entry>, index: seq<int>, free: seq<nat>)
    requires DistinctTags(json) && Changing(s, RemoveAll(m, json), json, |json|, index, free)
    ensures Represents(s, ApplyAll(m, json))
  {
    hide RemoveAll, ApplyAll, ChangeAll, Represents, Slots, Indexed;
    RemovalsMayGoFirst(m, json);
    assert json[..|json|] == json;
  }
}
