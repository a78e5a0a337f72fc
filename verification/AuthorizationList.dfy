/**
 The local authorization list as an object: lookup by binary search, and updates in place from JSON.
 */
module AuthorizationLists {
  import opened Wrappers
  import opened CStrings
  import opened AuthDatas
  import opened AuthLists
  import opened AuthUpdates
  import Stamps

  const MAX_LENGTH: nat := 48

  ghost predicate AllStorable(s: seq<Data>) { forall d :: d in s ==> Storable(d) }

  /** The entries of a full update; remove commands are skipped, in the compact form nothing is one. */
  function FullList(json: seq<Entry>, compact: bool): seq<Data> {
    if json == [] then []
    else
      var e := json[|json| - 1];
      FullList(json[..|json| - 1], compact) + if compact || e.info.Some? then [Read(e, compact)] else []
  }

  /** A full update of distinct tags is an update of the empty list. */
  lemma {:induction false} FullListRepresents(json: seq<Entry>)
    requires DistinctTags(json)
    ensures Represents(FullList(json, false), ApplyAll(map[], json))
  {
    if json != [] {
      hide Read, Distinct;
      var init, e := json[..|json| - 1], json[|json| - 1];
      FullListRepresents(init);
      NotMentioned(map[], init, e.idTag.value);
      var m := ApplyAll(map[], init);
      if e.info.Some? {
        ReadKeepsTag(e);
        AppendOne(FullList(init, false), m, Read(e, false));
      } else {
        assert m - {e.idTag.value} == m;
        assert FullList(json, false) == FullList(init, false);
      }
    }
  }

  lemma ReadKeepsTag(e: Entry)
    requires e.idTag.Some? && |e.idTag.value| <= IDTAG_LEN_MAX
    ensures Read(e, false).idTag == e.idTag.value
  {
  }

  lemma {:induction false} FullListIsStorable(json: seq<Entry>, compact: bool)
    ensures AllStorable(FullList(json, compact)) && |FullList(json, compact)| <= |json|
  {
    if json != [] {
      hide Read, Storable;
      FullListIsStorable(json[..|json| - 1], compact);
      ReadIsStorable(json[|json| - 1], compact);
    }
  }

  lemma {:induction false} NonBlankElements(s: seq<Data>)
    ensures |NonBlank(s)| <= |s| && NoBlank(NonBlank(s))
    ensures forall d :: d in NonBlank(s) ==> d in s
  {
    if s != [] {
      NonBlankElements(s[..|s| - 1]);
    }
  }

  lemma SortedIsStorable(s: seq<Data>, r: seq<Data>)
    requires AllStorable(s) && Tidied(s, r)
    ensures AllStorable(r)
  {
    hide Storable, NonBlank, Tidied;
    forall d | d in r ensures Storable(d) {
      TidiedElement(s, r, d);
    }
  }

  lemma BlankIsStorable(s: seq<Data>, p: nat)
    requires p < |s|
    ensures AllStorable(s) ==> AllStorable(s[p := s[p].(idTag := "")])
  {
    hide Stamps.InEpoch;
    assert s[p] in s;
  }

  /** One command of the second pass. */
  lemma ChangeStep(s: seq<Data>, m: map<string, Data>, json: seq<Entry>, i: nat, index: seq<int>, free: seq<nat>)
    requires Changing(s, m, json, i, index, free) && i < |json|
    requires |index| == |json| && -1 <= index[i] < |s| && forall k :: 0 <= k < |free| ==> free[k] < |s|
    ensures json[i].info.None? ==> Changing(s, m, json, i + 1, index, free)
    ensures json[i].info.Some? ==>
              var d, n := Read(json[i], false), |free| - 1;
              if index[i] >= 0 then Changing(s[index[i] := d], m, json, i + 1, index, free)
              else if free != [] then Changing(s[free[n] := d], m, json, i + 1, index[i := free[n]], free[..n])
              else Changing(s + [d], m, json, i + 1, index[i := |s|], [])
  {
    hide Changing, Read;
    if json[i].info.None? {
      ChangeSkipped(s, m, json, i, index, free);
    } else if index[i] >= 0 {
      ChangeWritten(s, m, json, i, index, free, free, index[i]);
      assert index[i := index[i]] == index;
    } else if free != [] {
      ChangeWritten(s, m, json, i, index, free, free[..|free| - 1], free[|free| - 1]);
    } else {
      ChangeAppended(s, m, json, i, index);
    }
  }

  lemma FillStep(s: seq<Data>, json: seq<Entry>, i: nat, index: seq<int>, free: seq<nat>, length: int)
    requires Filling(s, json, i, index, free, length) && i < |json|
    requires |index| == |json| && -1 <= index[i] < |s| && forall k :: 0 <= k < |free| ==> free[k] < |s|
    ensures json[i].info.None? ==> Filling(s, json, i + 1, index, free, length)
    ensures json[i].info.Some? ==>
              var d, n := Read(json[i], false), |free| - 1;
              if index[i] >= 0 then Filling(s[index[i] := d], json, i + 1, index, free, length)
              else if free != [] then
                Filling(s[free[n] := d], json, i + 1, index[i := free[n]], free[..n], length)
              else Filling(s + [d], json, i + 1, index[i := |s|], [], length)
  {
    hide Filling, Read;
    if json[i].info.None? {
      FillingSkipped(s, json, i, index, free, length);
    } else if index[i] >= 0 {
      FillingStep(s, json, i, index, free, length, free, index[i]);
      assert index[i := index[i]] == index;
    } else if free != [] {
      FillingStep(s, json, i, index, free, length, free[..|free| - 1], free[|free| - 1]);
    } else {
      FillingStep(s, json, i, index, free, length, [], |s|);
    }
  }

  lemma FillEnds(s: seq<Data>, json: seq<Entry>, index: seq<int>, free: seq<nat>, length: int)
    requires Filling(s, json, |json|, index, free, length)
    ensures |NonBlank(s)| == length
  {
  }

  // ----- what an update does -----

  /** A full update replaces the list, whatever it was, by the sorted entries of the message. */
  ghost predicate FullUpdate(s0: seq<Data>, json: seq<Entry>, compact: bool, success: bool, s: seq<Data>) {
    AllTagged(json) ==>
      && (success <==> |json| <= MAX_LENGTH)
      && (!success ==> s == s0)
      && (success ==> WeaklySorted(s) && Tidied(FullList(json, compact), s) && |s| <= |json|)
      && (success && !compact && DistinctTags(json) ==>
            Proper(s) && AsMap(s) == ApplyAll(map[], json) && |s| == |AsMap(s)|)
  }

  /**
   A differential update changes the map of the list, one command after the other. Every command that is missed
   although its tag is stored adds one to the size that is compared with the capacity and to the size of the
   list, and every slot that was blank before adds one to the first; the result is the changed map if and only
   if no command is missed. A refused update has made the removals already, but their slots are still there; if
   none was missed, the list is as before if and only if there were none.
   */
  ghost predicate DifferentialUpdate(s0: seq<Data>, json: seq<Entry>, success: bool, s: seq<Data>)
    requires AllTagged(json)
  {
    var m, r := ApplyAll(EntryMap(s0), json), RemoveAll(EntryMap(s0), json);
    && (success <==> |m| + Misses(s0, json) + Blanks(s0) <= MAX_LENGTH)
    && (success ==> |s| == |m| + Misses(s0, json))
    && (success ==> (Proper(s) && AsMap(s) == m <==> Misses(s0, json) == 0))
    && (!success ==> s == Blanking(s0, json) && SortedWithBlanks(s))
    && (!success && Misses(s0, json) == 0 ==> Represents(s, r) && (s == s0 <==> r == EntryMap(s0)))
  }

  lemma SlotsStay(s0: seq<Data>, s: seq<Data>, m: map<string, Data>, json: seq<Entry>)
    requires AllTagged(json) && |s| == |s0| && Represents(s, m) && Represents(s0, m)
    requires AllBlankedOrSame(s0, s, json, |json|)
    ensures s == s0
  {
    forall p | 0 <= p < |s| ensures s[p] == s0[p] {
      assert BlankedOrSame(s0, s, json, |json|, p);
      if s0[p].idTag != "" {
        assert Holds(s, s0[p].idTag);
        var q :| 0 <= q < |s| && s[q].idTag == s0[p].idTag;
        assert BlankedOrSame(s0, s, json, |json|, q);
        assert q == p;
      }
    }
  }

  /** Blanked or not, the list represents one map only. */
  lemma RepresentsOne(s: seq<Data>, m: map<string, Data>, n: map<string, Data>)
    requires Represents(s, m) && Represents(s, n)
    ensures m == n
  {
    forall t | t in m || t in n ensures t in m && t in n && m[t] == n[t] {
      assert Holds(s, t);
    }
  }

  lemma RefusedUpdate(s0: seq<Data>, s: seq<Data>, json: seq<Entry>, index: seq<int>, free: seq<nat>, length: int)
    requires Lookup(s0, s, EntryMap(s0), json, |json|, index, free, length) && length > MAX_LENGTH
    ensures AllTagged(json) && DifferentialUpdate(s0, json, false, s)
  {
    hide Slots, Indexed, BlankedOrSame, ApplyAll, RemoveAll, EntryMap, Represents, Sorted, Blanking, Misses, NonBlank,
         Inserts, Pointed, Blanked, AllBlankedOrSame, Blanks;
    assert json[..|json|] == json;
    BlankingBlanks(s0, json, |json|);
    var z :| Blanked(z, s0);
    BlankedAfter(z, s0, s, json, |json|);
    if Misses(s0, json) == 0 {
      if RemoveAll(EntryMap(s0), json) == EntryMap(s0) {
        SlotsStay(s0, s, EntryMap(s0), json);
      }
      if s == s0 {
        RepresentsOne(s, RemoveAll(EntryMap(s0), json), EntryMap(s0));
      }
    }
  }

  lemma LookupIsCounted(s0: seq<Data>, s: seq<Data>, json: seq<Entry>, index: seq<int>, free: seq<nat>, length: int)
    requires Lookup(s0, s, EntryMap(s0), json, |json|, index, free, length)
    ensures length >= 0
  {
  }

  lemma FinishedMap(s1: seq<Data>, s: seq<Data>, m: map<string, Data>)
    requires Represents(s1, m) && Tidied(s1, s) && WeaklySorted(s)
    ensures Proper(s) && AsMap(s) == m && |s| == |m|
  {
    hide AsMap, Tidied, WeaklySorted, Sorted, Distinct;
    TidiedRepresents(s1, s, m);
    RepresentsOneMap(s, m);
    DistinctIsSorted(s);
  }

  /** The second pass has brought the list to the length of the first one. */
  lemma AcceptedUpdate(s0: seq<Data>, s1: seq<Data>, s: seq<Data>, json: seq<Entry>)
    requires AllTagged(json) && Tidied(s1, s) && WeaklySorted(s)
    requires |NonBlank(s1)| == |ApplyAll(EntryMap(s0), json)| + Misses(s0, json) <= MAX_LENGTH - Blanks(s0)
    requires Misses(s0, json) == 0 ==> Represents(s1, ApplyAll(EntryMap(s0), json))
    ensures DifferentialUpdate(s0, json, true, s)
  {
    hide Misses, ApplyAll, RemoveAll, AsMap, EntryMap, Represents, WeaklySorted, Sorted, NonBlank, Blanks;
    assert |s| == |multiset(s)| == |multiset(NonBlank(s1))| == |NonBlank(s1)|;
    if Misses(s0, json) == 0 {
      FinishedMap(s1, s, ApplyAll(EntryMap(s0), json));
    } else if Proper(s) {
      SortedIsDistinct(s);
      RepresentsItsMap(s);
    }
  }

  lemma TidiedIsShorter(s: seq<Data>, r: seq<Data>)
    requires Tidied(s, r)
    ensures |r| <= |s|
  {
    NonBlankElements(s);
    assert |r| == |multiset(r)| == |multiset(NonBlank(s))| == |NonBlank(s)|;
  }

  lemma FinishIsStorable(s: seq<Data>, r: seq<Data>)
    requires Tidied(s, r)
    ensures AllStorable(s) ==> AllStorable(r)
  {
    if AllStorable(s) {
      SortedIsStorable(s, r);
    }
  }

  /** What binary search finds on a sorted list, and on one with blanked slots. */
  lemma GetIsRight(s: seq<Data>, t: string)
    ensures var pos := Bisect(s, t, 0, |s| - 1);
            && (pos >= 0 ==> Holds(s, t))
            && (WeaklySorted(s) ==> (pos >= 0 <==> Holds(s, t)))
            && (SortedWithBlanks(s) && t != "" ==>
                  && (BlanksFollowOnly(s, t) ==> (pos >= 0 <==> Holds(s, t)))
                  && forall q :: 0 <= q < |s| && s[q].idTag == t ==> pos == if Hidden(s, q, 0, |s| - 1) then -1 else q)
  {
    hide Before, Compare, Hidden, Bisect, Proper;
    BisectHits(s, t, 0, |s| - 1);
    if WeaklySorted(s) {
      SortedIsMonotone(s, t);
      if Holds(s, t) {
        MonotoneFinds(s, t);
      }
    }
    if s0 :| Blanked(s0, s) && t != "" {
      if BlanksFollowOnly(s, t) {
        BlankedIsMonotoneIff(s0, s, t);
        if Holds(s, t) {
          MonotoneFinds(s, t);
        }
      }
      forall q | 0 <= q < |s| && s[q].idTag == t
        ensures Bisect(s, t, 0, |s| - 1) == if Hidden(s, q, 0, |s| - 1) then -1 else q
      {
        BisectFindsIff(s0, s, q, 0, |s| - 1);
      }
    }
  }

  function WriteAll(s: seq<Data>, compact: bool): seq<Entry>
    requires forall k :: 0 <= k < |s| ==> Storable(s[k])
  {
    if s == [] then [] else WriteAll(s[..|s| - 1], compact) + [Write(s[|s| - 1], compact)]
  }

  class AuthorizationList {
    var listVersion: int
    var entries: seq<Data>

    constructor ()
      ensures listVersion == 0 && entries == []
    {
      listVersion, entries := 0, [];
    }

    /**
     On a sorted list the binary search finds the tag if and only if a linear search does. With blanked slots it
     finds an entry if and only if the entry is not hidden, and thus those that all entries before a blanked slot
     precede.
     */
    method Get(idTag: Option<string>) returns (found: Option<nat>)
      ensures idTag.None? ==> found.None?
      ensures found.Some? ==> found.value < |entries| && Some(entries[found.value].idTag) == idTag
      ensures idTag.Some? && WeaklySorted(entries) ==> (found.Some? <==> Holds(entries, idTag.value))
      ensures SortedWithBlanks(entries) ==>
                forall q :: 0 <= q < |entries| && idTag == Some(entries[q].idTag) && entries[q].idTag != "" ==>
                  found == if Hidden(entries, q, 0, |entries| - 1) then None else Some(q)
      ensures idTag.Some? && idTag.value != "" && SortedWithBlanks(entries)
              && BlanksFollowOnly(entries, idTag.value) ==>
                (found.Some? <==> Holds(entries, idTag.value))
    {
      if idTag.None? {
        return None;
      }
      hide WeaklySorted, SortedWithBlanks, BlanksFollowOnly, Hidden, Holds, Bisect;
      var pos := Search(entries, idTag.value);
      GetIsRight(entries, idTag.value);
      found := if pos >= 0 then Some(pos) else None;
    }

    /**
     First pass of a differential update: look all commands up and blank the entries to remove. length is what
     the size of the list is going to be.
     */
    method BuildIndex(json: seq<Entry>) returns (index: seq<int>, free: seq<nat>, length: int)
      requires AllTagged(json)
      modifies this`entries
      ensures |entries| == |old(entries)| && |index| == |json|
      ensures forall k :: 0 <= k < |index| ==> -1 <= index[k] < |entries|
      ensures forall k :: 0 <= k < |free| ==> free[k] < |entries|
      ensures AllStorable(old(entries)) ==> AllStorable(entries)
      ensures WellFormed(old(entries), json) ==>
                Lookup(old(entries), entries, EntryMap(old(entries)), json, |json|, index, free, length)
    {
      hide Lookup, Storable, WellFormed, Monotone, EntryMap, Holds, Bisect;
      ghost var s0, m := entries, EntryMap(entries);
      index, free, length := seq(|json|, _ => -1), [], |entries|;
      if WellFormed(s0, json) {
        LookupStarts(s0, json, index);
      }
      for i := 0 to |json|
        invariant |entries| == |s0| && |index| == |json|
        invariant forall k :: 0 <= k < |index| ==> -1 <= index[k] < |entries|
        invariant forall k :: i <= k < |index| ==> index[k] == -1
        invariant forall k :: 0 <= k < |free| ==> free[k] < |entries|
        invariant AllStorable(s0) ==> AllStorable(entries)
        invariant WellFormed(s0, json) ==> Lookup(s0, entries, m, json, i, index, free, length)
      {
        var pos := Search(entries, json[i].idTag.value);
        if WellFormed(s0, json) {
          LookupStep(s0, entries, m, json, i, index, free, length);
          assert pos == FindSlot(entries, Tag(json, i)) && (pos == -1 ==> index[i := pos] == index);
        }
        if pos >= 0 {
          index := index[i := pos];
          if json[i].info.None? {
            BlankIsStorable(entries, pos);
            entries := entries[pos := entries[pos].(idTag := "")];
            free := free + [pos];
            length := length - 1;
          }
        } else if json[i].info.Some? {
          length := length + 1;
        }
      }
    }

    /** Second pass of a differential update: write the commands that change or insert entries. */
    method ApplyChanges(json: seq<Entry>, index0: seq<int>, free0: seq<nat>, ghost m: map<string, Data>,
                        ghost length: int)
      requires AllTagged(json) && |index0| == |json|
      requires forall k :: 0 <= k < |index0| ==> -1 <= index0[k] < |entries|
      requires forall k :: 0 <= k < |free0| ==> free0[k] < |entries|
      modifies this`entries
      ensures AllStorable(old(entries)) ==> AllStorable(entries)
      ensures Changing(old(entries), m, json, 0, index0, free0) ==>
                exists index, free :: Changing(entries, m, json, |json|, index, free)
      ensures Filling(old(entries), json, 0, index0, free0, length) ==> |NonBlank(entries)| == length
    {
      hide Changing, Filling, Storable, Read, NonBlank;
      var index: seq<int>, free: seq<nat> := index0, free0;
      ghost var meaningful := Changing(entries, m, json, 0, index, free);
      ghost var counted := Filling(entries, json, 0, index, free, length);
      for i := 0 to |json|
        invariant |index| == |json|
        invariant forall k :: 0 <= k < |index| ==> -1 <= index[k] < |entries|
        invariant forall k :: 0 <= k < |free| ==> free[k] < |entries|
        invariant AllStorable(old(entries)) ==> AllStorable(entries)
        invariant meaningful ==> Changing(entries, m, json, i, index, free)
        invariant counted ==> Filling(entries, json, i, index, free, length)
      {
        if meaningful {
          ChangeStep(entries, m, json, i, index, free);
        }
        if counted {
          FillStep(entries, json, i, index, free, length);
        }
        if json[i].info.None? {
          continue;
        }
        ReadIsStorable(json[i], false);
        if index[i] < 0 {
          if free != [] {
            index := index[i := free[|free| - 1]];
            free := free[..|free| - 1];
            entries := entries[index[i] := Read(json[i], false)];
          } else {
            index := index[i := |entries|];
            entries := entries + [Read(json[i], false)];
          }
        } else {
          entries := entries[index[i] := Read(json[i], false)];
        }
      }
      if counted {
        FillEnds(entries, json, index, free, length);
      }
    }

    /** Erase the blanked entries, sort the others, and set the version; an empty list has version 0. */
    method Finish(version: int)
      modifies this
      ensures WeaklySorted(entries) && Tidied(old(entries), entries)
      ensures listVersion == if entries == [] then 0 else version
    {
      entries := RemoveBlanks(entries);
      entries := Sort(entries);
      listVersion := version;
      if entries == [] {
        listVersion := 0;
      }
    }

    method ReplaceAll(json: seq<Entry>, compact: bool)
      requires AllTagged(json)
      modifies this`entries
      ensures entries == FullList(json, compact)
    {
      entries := [];
      for i := 0 to |json|
        invariant entries == FullList(json[..i], compact)
      {
        assert json[..i + 1][..i] == json[..i];
        if compact || json[i].info.Some? {
          entries := entries + [Read(json[i], compact)];
        }
      }
      assert json[..|json|] == json;
    }

    /** An update without idTags or over capacity is refused. The length is an unsigned number. */
    method ReadJson(json: seq<Entry>, version: int, differential: bool, compact: bool) returns (success: bool)
      modifies this
      ensures !AllTagged(json) ==> !success && entries == old(entries)
      ensures success ==> WeaklySorted(entries) && listVersion == if entries == [] then 0 else version
      ensures !success ==> listVersion == old(listVersion)
      ensures AllStorable(old(entries)) ==> AllStorable(entries)
      ensures compact || !differential ==> FullUpdate(old(entries), json, compact, success, entries)
      ensures !compact && differential && WellFormed(old(entries), json) ==>
                DifferentialUpdate(old(entries), json, success, entries)
    {
      hide Storable, AllStorable, WeaklySorted, ApplyAll, Tidied, NonBlank, Misses, Proper, Lookup,
           DifferentialUpdate, EntryMap, SortedWithBlanks;
      var diff := differential && !compact;
      ghost var s0 := entries;
      for i := 0 to |json|
        invariant AllTagged(json[..i]) && entries == s0 && listVersion == old(listVersion)
      {
        if json[i].idTag.None? {
          return false;
        }
      }
      assert json[..|json|] == json;
      var index, free, length := [], [], |json|;
      if diff {
        index, free, length := BuildIndex(json);
      }
      if length < 0 || length > MAX_LENGTH {
        if diff && WellFormed(s0, json) {
          LookupIsCounted(s0, entries, json, index, free, length);
          RefusedUpdate(s0, entries, json, index, free, length);
        }
        return false;
      }
      if diff {
        ghost var m := RemoveAll(EntryMap(s0), json);
        if WellFormed(s0, json) {
          ChangingStarts(s0, entries, EntryMap(s0), json, index, free, length);
        }
        ApplyChanges(json, index, free, m, length - Blanks(s0));
        if WellFormed(s0, json) && Misses(s0, json) == 0 {
          ghost var index2, free2 :| Changing(entries, m, json, |json|, index2, free2);
          ChangingEnds(entries, EntryMap(s0), json, index2, free2);
        }
      } else {
        ReplaceAll(json, compact);
        FullListIsStorable(json, compact);
      }
      ghost var s1 := entries;
      Finish(version);
      FinishIsStorable(s1, entries);
      TidiedIsShorter(s1, entries);
      if diff && WellFormed(s0, json) {
        AcceptedUpdate(s0, s1, entries, json);
      } else if !diff && !compact && DistinctTags(json) {
        FullListRepresents(json);
        FinishedMap(s1, entries, ApplyAll(map[], json));
      }
      success := true;
    }

    /** One JSON entry per list entry, in order. */
    method WriteJson(compact: bool) returns (json: seq<Entry>)
      requires AllStorable(entries)
      ensures json == WriteAll(entries, compact)
    {
      json := [];
      for i := 0 to |entries|
        invariant json == WriteAll(entries[..i], compact)
      {
        assert entries[..i + 1][..i] == entries[..i];
        json := json + [Write(entries[i], compact)];
      }
      assert entries[..|entries|] == entries;
    }
  }
}
