/**
 The authorization service: the list in memory and its compact copy in the file system.
 */
module AuthorizationServices {
  import opened Wrappers
  import opened CStrings
  import opened AuthDatas
  import opened AuthLists
  import opened AuthUpdates
  import opened AuthorizationLists

  datatype StoredList = StoredList(listVersion: int, entries: seq<Entry>)

  datatype ListFile = Missing | Unreadable | Written(list: StoredList)

  /**
   What storeJson did: everything was written; only a part, which it takes for success from 2 bytes on; the file
   was not opened; the write failed and the file was removed; or it failed and the rest of it stayed.
   */
  datatype StoreResult = Stored | Truncated | Untouched | Lost | Spoiled
  {
    predicate Succeeds() { Stored? || Truncated? }

    function After(file: ListFile, list: StoredList): ListFile {
      match this
      case Stored => Written(list)
      case Truncated => Unreadable
      case Untouched => file
      case Lost => Missing
      case Spoiled => Unreadable
    }
  }

  lemma {:induction false} CompactListRoundTrip(s: seq<Data>)
    requires AllStorable(s)
    ensures FullList(WriteAll(s, true), true) == s && |WriteAll(s, true)| == |s|
    ensures NoBlank(s) ==> AllTagged(WriteAll(s, true))
  {
    hide Read, Write, Storable, FullList, WriteAll;
    EmptyLists();
    if s != [] {
      var init, last := s[..|s| - 1], s[|s| - 1];
      StorableParts(s);
      CompactListRoundTrip(init);
      CompactRoundTrip(last);
      WrittenTag(last);
      var w := WriteAll(init, true);
      WriteAllSnoc(s);
      FullListSnoc(w, Write(last, true));
      assert s == init + [last];
    }
  }

  lemma StorableParts(s: seq<Data>)
    requires AllStorable(s) && s != []
    ensures AllStorable(s[..|s| - 1]) && Storable(s[|s| - 1])
  {
    hide Storable;
    assert s[|s| - 1] in s;
  }

  lemma WriteAllSnoc(s: seq<Data>)
    requires AllStorable(s) && s != []
    ensures WriteAll(s, true) == WriteAll(s[..|s| - 1], true) + [Write(s[|s| - 1], true)]
  {
    hide Storable, Write;
  }

  lemma EmptyLists()
    ensures WriteAll([], true) == [] && FullList([], true) == []
  {
  }

  lemma FullListSnoc(w: seq<Entry>, e: Entry)
    ensures FullList(w + [e], true) == FullList(w, true) + [Read(e, true)]
  {
    hide Read;
    assert (w + [e])[..|w|] == w;
  }

  lemma WrittenTag(d: Data)
    requires Storable(d)
    ensures d.idTag != "" ==> Write(d, true).idTag.Some?
  {
  }

  lemma SortedLast(s: seq<Data>, r: seq<Data>)
    requires Sorted(s) && Sorted(r) && s != [] && multiset(s) == multiset(r)
    ensures |s| == |r| && s[|s| - 1] == r[|r| - 1]
  {
    hide Compare;
    var n := |s| - 1;
    assert |s| == |multiset(s)| == |multiset(r)| == |r|;
    assert s[n] in multiset(r) && r[n] in multiset(s);
    var p :| 0 <= p < |r| && r[p] == s[n];
    var q :| 0 <= q < |s| && s[q] == r[n];
    BeforeIsOneWay(s[q].idTag, s[n].idTag);
    BeforeIsOneWay(r[p].idTag, r[n].idTag);
  }

  lemma SameWithoutLast(s: seq<Data>, r: seq<Data>)
    requires s != [] && |s| == |r| && s[|s| - 1] == r[|r| - 1] && multiset(s) == multiset(r)
    ensures multiset(s[..|s| - 1]) == multiset(r[..|r| - 1])
  {
    var n := |s| - 1;
    assert s == s[..n] + [s[n]] && r == r[..n] + [r[n]];
    assert multiset(s[..n]) == multiset(s) - multiset{s[n]} && multiset(r[..n]) == multiset(r) - multiset{r[n]};
  }

  /** A sorted list of distinct tags has one sorted permutation. */
  lemma {:induction false} SortedOnce(s: seq<Data>, r: seq<Data>)
    requires Sorted(s) && Sorted(r) && multiset(s) == multiset(r)
    ensures s == r
  {
    if s == [] {
      assert |multiset(r)| == 0;
    } else {
      hide Before;
      SortedLast(s, r);
      var n := |s| - 1;
      SameWithoutLast(s, r);
      SortedOnce(s[..n], r[..n]);
      assert s == s[..n] + [s[n]] && r == r[..n] + [r[n]];
    }
  }

  lemma TidyingKeepsProper(s: seq<Data>, r: seq<Data>)
    requires Proper(s) && WeaklySorted(r) && Tidied(s, r)
    ensures r == s
  {
    hide Before;
    NothingToErase(s);
    SortedIsDistinct(s);
    TidiedIsDistinct(s, r);
    DistinctIsSorted(r);
    SortedOnce(s, r);
  }

  /** The file holds this list; an empty list has version 0, whatever was stored. */
  ghost predicate Saved(file: ListFile, s: seq<Data>, version: int) {
    && Proper(s) && AllStorable(s) && |s| <= MAX_LENGTH
    && file.Written? && file.list.entries == WriteAll(s, true)
    && version == if s == [] then 0 else file.list.listVersion
  }

  lemma SavedIsRestored(file: ListFile, s: seq<Data>, version: int, s0: seq<Data>,
                        success: bool, r: seq<Data>)
    requires Saved(file, s, version) && FullUpdate(s0, file.list.entries, true, success, r)
    ensures success && r == s
  {
    hide WriteAll, FullList, Tidied, Storable, Sorted, WeaklySorted;
    CompactListRoundTrip(s);
    if success {
      TidyingKeepsProper(s, r);
    }
  }

  /** The file is touched only by an update that fits. */
  ghost function FileAfter(file: ListFile, fits: bool, result: StoreResult, version: int, s: seq<Data>): ListFile
    requires AllStorable(s)
  {
    if !fits || result == Untouched then file
    else if result == Stored then Written(StoredList(version, WriteAll(s, true)))
    else if result == Lost then Missing
    else Unreadable
  }

  class AuthorizationService {
    const list: AuthorizationList
    var file: ListFile

    /** Loads the stored list. */
    constructor (file: ListFile, loadable: bool)
      ensures fresh(list) && this.file == file && AllStorable(list.entries)
      ensures !file.Written? || !loadable ==> list.entries == [] && list.listVersion == 0
      ensures loadable ==> forall s, v :: Saved(file, s, v) ==> list.entries == s && list.listVersion == v
    {
      list := new AuthorizationList();
      this.file := file;
      new;
      var ok := LoadLists(loadable);
    }

    /** A file that was saved is restored: the same entries and version. loadable: there is memory to parse it. */
    method LoadLists(loadable: bool) returns (ok: bool)
      requires AllStorable(list.entries)
      modifies list
      ensures AllStorable(list.entries)
      ensures !file.Written? || !loadable ==>
                ok == file.Missing? && list.entries == old(list.entries) && list.listVersion == old(list.listVersion)
      ensures loadable ==> forall s, v :: Saved(file, s, v) ==> ok && list.entries == s && list.listVersion == v
    {
      hide Storable, Proper, WeaklySorted, WriteAll, FullUpdate;
      if file.Missing? {
        return true;
      }
      if file.Unreadable? || !loadable {
        return false;
      }
      ok := list.ReadJson(file.list.entries, file.list.listVersion, false, true);
      forall s, v | Saved(file, s, v) ensures ok && list.entries == s && list.listVersion == v {
        SavedIsRestored(file, s, v, old(list.entries), ok, list.entries);
      }
    }

    /**
     An update that fits is in the file if it was stored completely, and a refused one leaves the file alone. If
     an update that fits cannot be stored, the previous list is back if the file was not opened and can be
     loaded; otherwise the new list stays in memory, whatever has become of the file.
     */
    method UpdateLocalList(json: seq<Entry>, version: int, differential: bool, result: StoreResult, loadable: bool)
      returns (success: bool)
      requires AllStorable(list.entries)
      modifies this`file, list
      ensures AllStorable(list.entries)
      ensures differential && WellFormed(old(list.entries), json) ==>
                var s0, v0, f0 := old(list.entries), old(list.listVersion), old(file);
                var fits := |ApplyAll(EntryMap(s0), json)| + Misses(s0, json) + Blanks(s0) <= MAX_LENGTH;
                && (success <==> fits && (result == Stored || result == Truncated))
                && (!fits ==> DifferentialUpdate(s0, json, false, list.entries) && list.listVersion == v0)
                && file == FileAfter(f0, fits, result, version, list.entries)
                && (if fits && result == Untouched && loadable && Saved(f0, s0, v0)
                    then list.entries == s0 && list.listVersion == v0
                    else fits && (result != Untouched || !loadable || !f0.Written?) ==>
                           DifferentialUpdate(s0, json, true, list.entries))
                && (success && Misses(s0, json) == 0 ==>
                      (Saved(file, list.entries, list.listVersion) <==> result == Stored))
      ensures !differential && AllTagged(json) ==>
                var s0, v0, f0 := old(list.entries), old(list.listVersion), old(file);
                var fits := |json| <= MAX_LENGTH;
                && (success <==> fits && (result == Stored || result == Truncated))
                && (!fits ==> list.entries == s0 && list.listVersion == v0)
                && file == FileAfter(f0, fits, result, version, list.entries)
                && (if fits && result == Untouched && loadable && Saved(f0, s0, v0)
                    then list.entries == s0 && list.listVersion == v0
                    else fits && (result != Untouched || !loadable || !f0.Written?) ==>
                           FullUpdate(s0, json, false, true, list.entries))
                && (success && DistinctTags(json) ==>
                      (Saved(file, list.entries, list.listVersion) <==> result == Stored))
      ensures !AllTagged(json) ==> !success && file == old(file)
                                   && list.entries == old(list.entries) && list.listVersion == old(list.listVersion)
    {
      hide Storable, Proper, WeaklySorted, Tidied, ApplyAll, RemoveAll, AsMap, FullList, Represents, WriteAll,
           Misses, HidesLater;
      success := list.ReadJson(json, version, differential, false);
      if success {
        var doc := list.WriteJson(true);
        success := result.Succeeds();
        file := result.After(file, StoredList(version, doc));
        if !success {
          var ok := LoadLists(loadable);
        }
      }
    }
  }
}
