/**
 The local authorization list as a finite map from idTags to entries, and lists of entries, some of them
 blanked, that represent such a map.
 */
module AuthLists {
  import opened Wrappers
  import opened CStrings
  import opened AuthDatas

  // ----- sorted lists -----

  ghost predicate Sorted(s: seq<Data>) {
    forall a, b :: 0 <= a < b < |s| ==> Before(s[a].idTag, s[b].idTag)
  }

  /** Sorted, but a tag may be there several times. */
  ghost predicate WeaklySorted(s: seq<Data>) {
    forall a, b :: 0 <= a < b < |s| ==> !Before(s[b].idTag, s[a].idTag)
  }

  ghost predicate NoBlank(s: seq<Data>) { forall k :: 0 <= k < |s| ==> s[k].idTag != "" }

  ghost predicate Proper(s: seq<Data>) { Sorted(s) && NoBlank(s) }

  lemma NotAfterTransitive(a: string, b: string, c: string)
    requires !Before(b, a) && !Before(c, b)
    ensures !Before(c, a)
  {
    hide Compare;
    Antisymmetric(a, b);
    Antisymmetric(b, c);
    if Before(c, a) {
      if a == b || b == c {
      } else {
        Transitive(c, a, b);
      }
    }
  }

  // ----- commands of an update -----

  ghost predicate AllTagged(json: seq<Entry>) { forall k :: 0 <= k < |json| ==> json[k].idTag.Some? }

  /** Every command has a tag of its own, and it fits the field. */
  ghost predicate DistinctTags(json: seq<Entry>) {
    && AllTagged(json)
    && (forall k :: 0 <= k < |json| ==> 0 < |json[k].idTag.value| <= IDTAG_LEN_MAX)
    && (forall a, b :: 0 <= a < b < |json| ==> json[a].idTag != json[b].idTag)
  }

  /** Commands in ascending order of their tags. */
  ghost predicate Ascending(json: seq<Entry>) {
    && AllTagged(json)
    && (forall k :: 0 <= k < |json| ==> 0 < |json[k].idTag.value| <= IDTAG_LEN_MAX)
    && (forall a, b :: 0 <= a < b < |json| ==> Before(json[a].idTag.value, json[b].idTag.value))
  }

  /** After the removal of a stored entry, only commands with later tags follow. */
  ghost predicate RemovalsInOrder(s: seq<Data>, json: seq<Entry>)
    requires AllTagged(json)
  {
    forall a, b :: 0 <= a < b < |json| && json[a].info.None? && Holds(s, json[a].idTag.value) ==>
      Before(json[a].idTag.value, json[b].idTag.value)
  }

  /** The list is sorted, up to slots that a refused update blanked, and every command has a tag of its own. */
  ghost predicate WellFormed(s: seq<Data>, json: seq<Entry>) { SortedWithBlanks(s) && DistinctTags(json) }

  /** The well-formed updates that the list applies as meant. */
  ghost predicate Updatable(s: seq<Data>, json: seq<Entry>) { WellFormed(s, json) && !HidesLater(s, json) }

  lemma ProperHasNoBlanks(s: seq<Data>)
    requires Proper(s)
    ensures SortedWithBlanks(s)
  {
    hide Sorted;
    assert Blanked(s, s);
  }

  /** On a list without blanked slots these are among them: only later tags follow the removal of a stored entry. */
  lemma InOrderIsUpdatable(s: seq<Data>, json: seq<Entry>)
    requires Proper(s) && DistinctTags(json) && RemovalsInOrder(s, json)
    ensures Updatable(s, json)
  {
    hide Compare, SortedWithBlanks;
    ProperHasNoBlanks(s);
    forall b, p, q | 0 <= b < |json| && 0 <= q < p < |s| ensures !Hides(s, json, b, p, q) {
      BeforeIsOneWay(s[q].idTag, s[p].idTag);
      assert Holds(s, s[p].idTag);
    }
  }

  /** And so are updates in ascending order of their tags. */
  lemma AscendingIsUpdatable(s: seq<Data>, json: seq<Entry>)
    requires Proper(s) && Ascending(json)
    ensures Updatable(s, json)
  {
    hide Compare, HidesLater, SortedWithBlanks;
    forall a, b | 0 <= a < b < |json| ensures json[a].idTag != json[b].idTag {
      BeforeIsOneWay(json[a].idTag.value, json[b].idTag.value);
    }
    InOrderIsUpdatable(s, json);
  }

  /** An entry with info inserts or replaces, an entry without removes. */
  function ApplyOne(m: map<string, Data>, e: Entry): map<string, Data>
    requires e.idTag.Some?
  {
    if e.info.Some? then m[e.idTag.value := Read(e, false)] else m - {e.idTag.value}
  }

  /** One command after the other. */
  function ApplyAll(m: map<string, Data>, json: seq<Entry>): map<string, Data>
    requires forall k :: 0 <= k < |json| ==> json[k].idTag.Some?
  {
    if json == [] then m else ApplyOne(ApplyAll(m, json[..|json| - 1]), json[|json| - 1])
  }

  /** Only the remove commands, and only the others. */
  function RemoveAll(m: map<string, Data>, json: seq<Entry>): map<string, Data>
    requires forall k :: 0 <= k < |json| ==> json[k].idTag.Some?
  {
    if json == [] then m
    else
      var r, e := RemoveAll(m, json[..|json| - 1]), json[|json| - 1];
      if e.info.Some? then r else ApplyOne(r, e)
  }

  function ChangeAll(m: map<string, Data>, json: seq<Entry>): map<string, Data>
    requires forall k :: 0 <= k < |json| ==> json[k].idTag.Some?
  {
    if json == [] then m
    else
      var r, e := ChangeAll(m, json[..|json| - 1]), json[|json| - 1];
      if e.info.Some? then ApplyOne(r, e) else r
  }

  ghost predicate Mentions(json: seq<Entry>, t: string) {
    exists k :: 0 <= k < |json| && json[k].idTag == Some(t)
  }

  lemma {:induction false} NotMentioned(m: map<string, Data>, json: seq<Entry>, t: string)
    requires AllTagged(json) && !Mentions(json, t)
    ensures t in ApplyAll(m, json) <==> t in m
    ensures t in RemoveAll(m, json) <==> t in m
    ensures t in ChangeAll(m, json) <==> t in m
  {
    if json != [] {
      assert json[|json| - 1].idTag != Some(t);
      NotMentioned(m, json[..|json| - 1], t);
    }
  }

  /** What an update of distinct tags makes of the map, tag by tag. */
  lemma {:induction false} UpdateMeaning(m: map<string, Data>, json: seq<Entry>, t: string)
    requires DistinctTags(json)
    ensures !Mentions(json, t) ==> (t in ApplyAll(m, json) <==> t in m) && (t in m ==> ApplyAll(m, json)[t] == m[t])
    ensures forall k :: 0 <= k < |json| && json[k].idTag == Some(t) ==>
              if json[k].info.Some? then t in ApplyAll(m, json) && ApplyAll(m, json)[t] == Read(json[k], false)
              else t !in ApplyAll(m, json)
  {
    if json != [] {
      hide Read;
      var n := |json| - 1;
      PrefixIsDistinct(json, n);
      UpdateMeaning(m, json[..n], t);
      assert Mentions(json[..n], t) ==> Mentions(json, t);
      if !Mentions(json, t) {
        assert json[n].idTag != Some(t);
      }
      forall k | 0 <= k < n && json[k].idTag == Some(t)
        ensures json[..n][k].idTag == Some(t) && json[n].idTag != Some(t)
      {
      }
    }
  }

  lemma {:induction false} RemoveCommutes(m: map<string, Data>, json: seq<Entry>, t: string)
    requires AllTagged(json) && !Mentions(json, t)
    ensures ChangeAll(m - {t}, json) == ChangeAll(m, json) - {t}
  {
    if json != [] {
      assert json[|json| - 1].idTag != Some(t);
      RemoveCommutes(m, json[..|json| - 1], t);
    }
  }

  lemma EarlierTagsDiffer(json: seq<Entry>, k: nat)
    requires DistinctTags(json) && k < |json|
    ensures !Mentions(json[..k], json[k].idTag.value)
  {
  }

  lemma PrefixIsDistinct(json: seq<Entry>, k: nat)
    requires DistinctTags(json) && k <= |json|
    ensures DistinctTags(json[..k])
  {
  }

  /** All removals first and all changes afterwards give the same map. */
  lemma {:induction false} RemovalsMayGoFirst(m: map<string, Data>, json: seq<Entry>)
    requires DistinctTags(json)
    ensures ApplyAll(m, json) == ChangeAll(RemoveAll(m, json), json)
  {
    if json != [] {
      hide DistinctTags;
      var n := |json| - 1;
      PrefixIsDistinct(json, n);
      EarlierTagsDiffer(json, n);
      RemovalsMayGoFirst(m, json[..n]);
      RemoveCommutes(RemoveAll(m, json[..n]), json[..n], json[n].idTag.value);
    }
  }

  // ----- lists that represent a map -----

  ghost predicate Holds(s: seq<Data>, t: string) { exists k :: 0 <= k < |s| && s[k].idTag == t }

  ghost predicate Distinct(s: seq<Data>) {
    forall a, b :: 0 <= a < b < |s| && s[a].idTag != "" ==> s[a].idTag != s[b].idTag
  }

  /** The entries that are not blanked are those of the map. */
  ghost predicate Represents(s: seq<Data>, m: map<string, Data>) {
    && Distinct(s)
    && (forall k :: 0 <= k < |s| && s[k].idTag != "" ==> s[k].idTag in m && m[s[k].idTag] == s[k])
    && (forall t :: t in m ==> t != "" && Holds(s, t))
  }

  lemma BlankOne(s: seq<Data>, m: map<string, Data>, p: nat)
    requires Represents(s, m) && p < |s| && s[p].idTag != ""
    ensures Represents(s[p := s[p].(idTag := "")], m - {s[p].idTag})
  {
    var r := s[p := s[p].(idTag := "")];
    forall t | t in m && t != s[p].idTag ensures Holds(r, t) {
      var k :| 0 <= k < |s| && s[k].idTag == t;
      assert r[k].idTag == t;
    }
  }

  lemma WriteOne(s: seq<Data>, m: map<string, Data>, p: nat, d: Data)
    requires Represents(s, m) && p < |s| && d.idTag != ""
    requires s[p].idTag == d.idTag || (s[p].idTag == "" && d.idTag !in m)
    ensures Represents(s[p := d], m[d.idTag := d])
  {
    var r := s[p := d];
    assert r[p].idTag == d.idTag;
    forall t | t in m ensures Holds(r, t) {
      var k :| 0 <= k < |s| && s[k].idTag == t;
      assert k != p ==> r[k].idTag == t;
    }
  }

  lemma AppendOne(s: seq<Data>, m: map<string, Data>, d: Data)
    requires Represents(s, m) && d.idTag != "" && d.idTag !in m
    ensures Represents(s + [d], m[d.idTag := d])
  {
    var r := s + [d];
    assert r[|s|].idTag == d.idTag;
    forall t | t in m ensures Holds(r, t) {
      var k :| 0 <= k < |s| && s[k].idTag == t;
      assert r[k].idTag == t;
    }
  }

  /** The map of a list without blanks. */
  function AsMap(s: seq<Data>): map<string, Data> {
    if s == [] then map[] else AsMap(s[..|s| - 1])[s[|s| - 1].idTag := s[|s| - 1]]
  }

  lemma {:induction false} RepresentsItsMap(s: seq<Data>)
    requires Distinct(s) && NoBlank(s)
    ensures Represents(s, AsMap(s)) && |AsMap(s)| == |s|
  {
    if s != [] {
      var init, last := s[..|s| - 1], s[|s| - 1];
      RepresentsItsMap(init);
      assert last.idTag in AsMap(init) ==> Holds(init, last.idTag);
      AppendOne(init, AsMap(init), last);
      assert s == init + [last];
    }
  }

  lemma RepresentsOneMap(s: seq<Data>, m: map<string, Data>)
    requires Represents(s, m) && NoBlank(s)
    ensures m == AsMap(s) && |m| == |s|
  {
    hide AsMap;
    RepresentsItsMap(s);
    var n := AsMap(s);
    forall t | t in m || t in n ensures t in m && t in n && m[t] == n[t] {
      assert Holds(s, t);
    }
  }

  lemma SortedIsDistinct(s: seq<Data>)
    requires Sorted(s)
    ensures Distinct(s) && WeaklySorted(s)
  {
    hide Compare;
    forall a, b | 0 <= a < b < |s| ensures s[a].idTag != s[b].idTag && !Before(s[b].idTag, s[a].idTag) {
      Antisymmetric(s[a].idTag, s[b].idTag);
    }
  }

  lemma DistinctIsSorted(s: seq<Data>)
    requires WeaklySorted(s) && Distinct(s) && NoBlank(s)
    ensures Sorted(s)
  {
    hide Compare;
    forall a, b | 0 <= a < b < |s| ensures Before(s[a].idTag, s[b].idTag) {
      Antisymmetric(s[a].idTag, s[b].idTag);
    }
  }

  // ----- erasing and reordering -----

  function NonBlank(s: seq<Data>): (r: seq<Data>)
    ensures |r| <= |s|
  {
    if s == [] then []
    else NonBlank(s[..|s| - 1]) + if s[|s| - 1].idTag == "" then [] else [s[|s| - 1]]
  }

  lemma {:induction false} NothingToErase(s: seq<Data>)
    requires NoBlank(s)
    ensures NonBlank(s) == s
  {
    if s != [] {
      NothingToErase(s[..|s| - 1]);
    }
  }

  lemma NonBlankIsDistinct(s: seq<Data>)
    requires Distinct(s)
    ensures Distinct(NonBlank(s)) && NoBlank(NonBlank(s))
  {
    TidiedIsDistinct(s, NonBlank(s));
  }

  /** The map of the entries that are not blanked. */
  function EntryMap(s: seq<Data>): map<string, Data> { AsMap(NonBlank(s)) }

  lemma RepresentsEntries(s: seq<Data>)
    requires Distinct(s)
    ensures Represents(s, EntryMap(s)) && |EntryMap(s)| == |NonBlank(s)|
  {
    hide AsMap, NonBlank;
    var r, m := NonBlank(s), EntryMap(s);
    NonBlankIsDistinct(s);
    RepresentsItsMap(r);
    forall k | 0 <= k < |s| && s[k].idTag != "" ensures s[k].idTag in m && m[s[k].idTag] == s[k] {
      TidiedElement(s, r, s[k]);
      assert s[k] in r;
    }
    forall t | t in m ensures t != "" && Holds(s, t) {
      var k :| 0 <= k < |r| && r[k].idTag == t;
      TidiedElement(s, r, r[k]);
      assert r[k] in s;
    }
  }

  lemma {:induction false} NonBlankCount(s: seq<Data>, p: nat, d: Data)
    requires p < |s|
    ensures |NonBlank(s[p := d])| == |NonBlank(s)| - (if s[p].idTag != "" then 1 else 0)
                                                  + (if d.idTag != "" then 1 else 0)
  {
    var n := |s| - 1;
    if p < n {
      NonBlankCount(s[..n], p, d);
      assert s[p := d][..n] == s[..n][p := d];
    } else {
      assert s[p := d][..n] == s[..n];
    }
  }

  lemma SnocCount(s: seq<Data>, e: Data, d: Data)
    ensures multiset(s + [e])[d] == multiset(s)[d] + if e == d then 1 else 0
  {
  }

  lemma NonBlankSnoc(s: seq<Data>)
    requires s != []
    ensures var init, last := s[..|s| - 1], s[|s| - 1];
            s == init + [last] && NonBlank(s) == if last.idTag == "" then NonBlank(init) else NonBlank(init) + [last]
  {
  }

  lemma {:induction false} NonBlankKeepsOthers(s: seq<Data>, d: Data)
    ensures multiset(NonBlank(s))[d] == if d.idTag == "" then 0 else multiset(s)[d]
  {
    if s != [] {
      hide NonBlank;
      var init, last := s[..|s| - 1], s[|s| - 1];
      NonBlankKeepsOthers(init, d);
      NonBlankSnoc(s);
      SnocCount(init, last, d);
      SnocCount(NonBlank(init), last, d);
    }
  }

  lemma {:induction false} OneCopy(s: seq<Data>, d: Data)
    requires Distinct(s) && d.idTag != ""
    ensures multiset(s)[d] <= 1
  {
    if s != [] {
      var init, last := s[..|s| - 1], s[|s| - 1];
      OneCopy(init, d);
      assert s == init + [last];
      assert d in multiset(init) ==> d in init;
    }
  }

  lemma TwoCopies(s: seq<Data>, a: nat, b: nat)
    requires a < b < |s|
    ensures s[a] == s[b] ==> multiset(s)[s[a]] >= 2
  {
    assert s == s[..b] + [s[b]] + s[b + 1..];
    assert s[a] in s[..b];
    assert s[a] in multiset(s[..b]);
  }

  /** r has the entries of s that are not blanked, in any order. */
  ghost predicate Tidied(s: seq<Data>, r: seq<Data>) { multiset(r) == multiset(NonBlank(s)) }

  lemma TidiedElement(s: seq<Data>, r: seq<Data>, d: Data)
    requires Tidied(s, r)
    ensures d in r <==> d in s && d.idTag != ""
  {
    NonBlankKeepsOthers(s, d);
    assert d in r <==> d in multiset(r);
    assert d in s <==> d in multiset(s);
  }

  lemma TidiedCount(s: seq<Data>, r: seq<Data>, d: Data)
    requires Tidied(s, r) && d.idTag != ""
    ensures multiset(r)[d] == multiset(s)[d]
  {
    NonBlankKeepsOthers(s, d);
  }

  lemma TidiedIsDistinct(s: seq<Data>, r: seq<Data>)
    requires Tidied(s, r) && Distinct(s)
    ensures Distinct(r) && NoBlank(r)
  {
    hide NonBlank, Tidied;
    forall k | 0 <= k < |r| ensures r[k].idTag != "" {
      TidiedElement(s, r, r[k]);
    }
    forall a, b | 0 <= a < b < |r| ensures r[a].idTag != r[b].idTag {
      TidiedElement(s, r, r[a]);
      TidiedElement(s, r, r[b]);
      SameTagSameEntry(s, r[a], r[b]);
      TwoCopies(r, a, b);
      OneCopy(s, r[a]);
      TidiedCount(s, r, r[a]);
    }
  }

  lemma SameTagSameEntry(s: seq<Data>, d: Data, e: Data)
    requires Distinct(s) && d in s && e in s && d.idTag != ""
    ensures d.idTag == e.idTag ==> d == e
  {
    var i :| 0 <= i < |s| && s[i] == d;
    var j :| 0 <= j < |s| && s[j] == e;
  }

  lemma TidiedRepresents(s: seq<Data>, r: seq<Data>, m: map<string, Data>)
    requires Tidied(s, r) && Represents(s, m)
    ensures Represents(r, m) && NoBlank(r)
  {
    hide NonBlank, Tidied;
    TidiedIsDistinct(s, r);
    forall k | 0 <= k < |r| ensures r[k].idTag in m && m[r[k].idTag] == r[k] {
      TidiedElement(s, r, r[k]);
      var i :| 0 <= i < |s| && s[i] == r[k];
    }
    forall t | t in m ensures t != "" && Holds(r, t) {
      var i :| 0 <= i < |s| && s[i].idTag == t;
      TidiedElement(s, r, s[i]);
      var k :| 0 <= k < |r| && r[k] == s[i];
    }
  }

  method RemoveBlanks(s: seq<Data>) returns (r: seq<Data>)
    ensures r == NonBlank(s)
  {
    r := [];
    for k := 0 to |s|
      invariant r == NonBlank(s[..k])
    {
      assert s[..k + 1][..k] == s[..k];
      if s[k].idTag != "" {
        r := r + [s[k]];
      }
    }
    assert s[..|s|] == s;
  }

  lemma EmptyIsSorted()
    ensures WeaklySorted([])
  {
  }

  lemma InsertKeepsOrder(r: seq<Data>, k: nat, x: Data)
    requires WeaklySorted(r) && k <= |r|
    requires k > 0 ==> !Before(x.idTag, r[k - 1].idTag)
    requires forall j :: k <= j < |r| ==> Before(x.idTag, r[j].idTag)
    ensures WeaklySorted(r[..k] + [x] + r[k..])
  {
    hide Before;
    forall j | 0 <= j < k ensures !Before(x.idTag, r[j].idTag) {
      BeforeIsOneWay(r[j].idTag, r[k - 1].idTag);
      NotAfterTransitive(r[j].idTag, r[k - 1].idTag, x.idTag);
    }
    forall j | k <= j < |r| ensures !Before(r[j].idTag, x.idTag) {
      BeforeIsOneWay(x.idTag, r[j].idTag);
    }
  }

  lemma BeforeIsOneWay(a: string, b: string)
    ensures Before(a, b) ==> !Before(b, a) && a != b
  {
    hide Compare;
    Antisymmetric(a, b);
  }

  lemma InsertKeepsEntries(s: seq<Data>, i: nat, r: seq<Data>, k: nat)
    requires i < |s| && k <= |r| && multiset(r) == multiset(s[..i])
    ensures multiset(r[..k] + [s[i]] + r[k..]) == multiset(s[..i + 1])
  {
    assert r == r[..k] + r[k..] && s[..i + 1] == s[..i] + [s[i]];
  }

  /** What is used of std::sort: the result is sorted and has the same entries. */
  method Sort(s: seq<Data>) returns (r: seq<Data>)
    ensures WeaklySorted(r) && multiset(r) == multiset(s)
  {
    hide Before, WeaklySorted;
    r := [];
    EmptyIsSorted();
    for i := 0 to |s|
      invariant WeaklySorted(r) && multiset(r) == multiset(s[..i])
    {
      var k := |r|;
      while k > 0 && Before(s[i].idTag, r[k - 1].idTag)
        invariant 0 <= k <= |r|
        invariant forall j :: k <= j < |r| ==> Before(s[i].idTag, r[j].idTag)
      {
        k := k - 1;
      }
      InsertKeepsOrder(r, k, s[i]);
      InsertKeepsEntries(s, i, r, k);
      r := r[..k] + [s[i]] + r[k..];
    }
    assert s[..|s|] == s;
  }

  // ----- binary search -----

  /** The entries before, at, and after t are in this order. */
  ghost predicate Monotone(s: seq<Data>, t: string) {
    forall a, b :: 0 <= a < b < |s| ==>
      (Before(t, s[a].idTag) ==> Before(t, s[b].idTag)) && (Before(s[b].idTag, t) ==> Before(s[a].idTag, t))
  }

  lemma SortedIsMonotone(s: seq<Data>, t: string)
    requires WeaklySorted(s)
    ensures Monotone(s, t)
  {
    hide Compare;
    forall a, b | 0 <= a < b < |s|
      ensures (Before(t, s[a].idTag) ==> Before(t, s[b].idTag)) && (Before(s[b].idTag, t) ==> Before(s[a].idTag, t))
    {
      var x, y := s[a].idTag, s[b].idTag;
      Antisymmetric(x, y);
      if x != y && Before(t, x) {
        Transitive(t, x, y);
      }
      if x != y && Before(y, t) {
        Transitive(x, y, t);
      }
    }
  }

  /** The position at which binary search between l and r ends, or -1, on any list. */
  function Bisect(s: seq<Data>, t: string, l: int, r: int): (pos: int)
    requires 0 <= l <= r + 1 <= |s|
    ensures pos == -1 || l <= pos <= r
    decreases r - l
  {
    if l > r then -1
    else
      var m := (r + l) / 2;
      var diff := Compare(s[m].idTag, t);
      if diff < 0 then Bisect(s, t, m + 1, r) else if diff > 0 then Bisect(s, t, l, m - 1) else m
  }

  /** s is a sorted list in which some entries were blanked. */
  ghost predicate Blanked(s0: seq<Data>, s: seq<Data>) {
    Proper(s0) && |s| == |s0| && forall p :: 0 <= p < |s| ==> s[p] == s0[p] || s[p] == s0[p].(idTag := "")
  }

  ghost predicate SortedWithBlanks(s: seq<Data>) { exists s0 :: Blanked(s0, s) }

  lemma BlankedIsDistinct(s: seq<Data>)
    requires SortedWithBlanks(s)
    ensures Distinct(s)
  {
    hide Sorted;
    var s0 :| Blanked(s0, s);
    SortedIsDistinct(s0);
  }

  /** What is stored before a blanked slot comes before t. */
  ghost predicate BlanksFollowOnly(s: seq<Data>, t: string) {
    forall q, p :: 0 <= q < p < |s| && s[p].idTag == "" && s[q].idTag != "" ==> Before(s[q].idTag, t)
  }

  /** For which tags blanked slots leave the order intact that binary search relies on. */
  lemma BlankedIsMonotoneIff(s0: seq<Data>, s: seq<Data>, t: string)
    requires Blanked(s0, s) && t != ""
    ensures Monotone(s, t) <==> BlanksFollowOnly(s, t)
  {
    hide Compare;
    EmptyIsFirst(t);
    if BlanksFollowOnly(s, t) {
      SortedIsDistinct(s0);
      SortedIsMonotone(s0, t);
      forall a, b | 0 <= a < b < |s|
        ensures (Before(t, s[a].idTag) ==> Before(t, s[b].idTag)) && (Before(s[b].idTag, t) ==> Before(s[a].idTag, t))
      {
        BeforeIsOneWay(s[a].idTag, t);
        EmptyIsFirst(s[a].idTag);
      }
    }
  }

  /** Binary search between l and r looks at position p on its way to q. */
  predicate OnPath(p: int, q: int, l: int, r: int)
    decreases r - l
  {
    l <= q <= r &&
    var m := (r + l) / 2;
    p == m || (m < q && OnPath(p, q, m + 1, r)) || (q < m && OnPath(p, q, l, m - 1))
  }

  /** On the way to slot q there is a blanked slot behind it, which sends the search in the wrong direction. */
  ghost predicate Hidden(s: seq<Data>, q: nat, l: int, r: int) {
    exists p :: q < p < |s| && s[p].idTag == "" && OnPath(p, q, l, r)
  }

  lemma HiddenStep(s: seq<Data>, q: nat, l: int, r: int)
    requires 0 <= l <= q <= r < |s|
    ensures var m := (r + l) / 2;
            Hidden(s, q, l, r) <==>
            || (m < q && Hidden(s, q, m + 1, r))
            || (q < m && (s[m].idTag == "" || Hidden(s, q, l, m - 1)))
  {
    var m := (r + l) / 2;
    if p :| q < p < |s| && s[p].idTag == "" && OnPath(p, q, l, r) && p != m {
      assert m < q ==> OnPath(p, q, m + 1, r);
      assert q < m ==> OnPath(p, q, l, m - 1);
    }
    if m < q && Hidden(s, q, m + 1, r) {
      var p :| q < p < |s| && s[p].idTag == "" && OnPath(p, q, m + 1, r);
      assert OnPath(p, q, l, r);
    }
    if q < m && s[m].idTag == "" {
      assert OnPath(m, q, l, r);
    }
    if q < m && Hidden(s, q, l, m - 1) {
      var p :| q < p < |s| && s[p].idTag == "" && OnPath(p, q, l, m - 1);
      assert OnPath(p, q, l, r);
    }
  }

  /** An entry of a list with blanked slots is found if and only if it is not hidden. */
  lemma {:induction false} BisectFindsIff(s0: seq<Data>, s: seq<Data>, q: nat, l: int, r: int)
    requires Blanked(s0, s) && 0 <= l <= q <= r < |s| && s[q].idTag != ""
    ensures Bisect(s, s[q].idTag, l, r) == if Hidden(s, q, l, r) then -1 else q
    decreases r - l
  {
    hide Compare, Hidden, Bisect, Blanked;
    var m, t := (r + l) / 2, s[q].idTag;
    BisectStep(s, t, l, r);
    HiddenStep(s, q, l, r);
    CompareSlots(s0, s, m, q);
    if m < q {
      BisectFindsIff(s0, s, q, m + 1, r);
    } else if m > q && s[m].idTag == "" {
      BisectPast(s0, s, q, m + 1, r);
    } else if m > q {
      BisectFindsIff(s0, s, q, l, m - 1);
    }
  }

  lemma CompareSlots(s0: seq<Data>, s: seq<Data>, m: nat, q: nat)
    requires Blanked(s0, s) && m < |s| && q < |s| && s[q].idTag != ""
    ensures var c := Compare(s[m].idTag, s[q].idTag);
            if m == q then c == 0 else if m < q || s[m].idTag == "" then c < 0 else c > 0
  {
    hide Compare;
    EmptyIsFirst(s[q].idTag);
    Antisymmetric(s[m].idTag, s[q].idTag);
  }

  /** Behind slot q the search for its tag finds nothing. */
  lemma BisectPast(s0: seq<Data>, s: seq<Data>, q: nat, l: int, r: int)
    requires Blanked(s0, s) && q < l <= r + 1 <= |s| && s[q].idTag != ""
    ensures Bisect(s, s[q].idTag, l, r) == -1
  {
    hide Compare, Blanked;
    BisectHits(s, s[q].idTag, l, r);
    var pos := Bisect(s, s[q].idTag, l, r);
    if pos >= 0 {
      CompareSlots(s0, s, pos, q);
      Antisymmetric(s[pos].idTag, s[q].idTag);
    }
  }

  lemma {:induction false} BisectHits(s: seq<Data>, t: string, l: int, r: int)
    requires 0 <= l <= r + 1 <= |s|
    ensures var pos := Bisect(s, t, l, r); pos >= 0 ==> s[pos].idTag == t
    decreases r - l
  {
    hide Compare;
    if l <= r {
      var m := (r + l) / 2;
      Antisymmetric(s[m].idTag, t);
      BisectHits(s, t, m + 1, r);
      BisectHits(s, t, l, m - 1);
    }
  }

  /** A blanked slot in the middle of three hides the first one from binary search, although it is there. */
  lemma BlankHidesEarlierEntry(a: Data, b: Data, c: Data)
    requires a.idTag != "" && Before(a.idTag, b.idTag) && Before(b.idTag, c.idTag)
    ensures Blanked([a, b, c], [a, b.(idTag := ""), c])
    ensures Bisect([a, b.(idTag := ""), c], a.idTag, 0, 2) == -1
  {
    hide Compare;
    Transitive(a.idTag, b.idTag, c.idTag);
    EmptyIsFirst(a.idTag);
    EmptyIsFirst(b.idTag);
    EmptyIsFirst(c.idTag);
    BeforeIsOneWay(a.idTag, c.idTag);
    Antisymmetric(a.idTag, c.idTag);
  }

  // ----- looking up the commands of an update -----

  function FindSlot(s: seq<Data>, t: string): (pos: int)
    ensures -1 <= pos < |s|
  {
    Bisect(s, t, 0, |s| - 1)
  }

  /** One of the first i commands removes t. */
  ghost predicate Removes(json: seq<Entry>, i: nat, t: string)
    requires i <= |json|
  {
    exists k :: 0 <= k < i && json[k].info.None? && json[k].idTag == Some(t)
  }

  /**
   On the way to the entry of some command, and behind it, there is a slot that is blank or whose entry an
   earlier command removes.
   */
  ghost predicate HidesLater(s: seq<Data>, json: seq<Entry>)
    requires AllTagged(json)
  {
    exists b, p, q :: 0 <= b < |json| && 0 <= q < p < |s| && Hides(s, json, b, p, q)
  }

  ghost predicate Hides(s: seq<Data>, json: seq<Entry>, b: nat, p: nat, q: nat)
    requires AllTagged(json) && b < |json| && q < p < |s|
  {
    && json[b].idTag.value == s[q].idTag && OnPath(p, q, 0, |s| - 1)
    && (s[p].idTag == "" || Removes(json, b, s[p].idTag))
  }

  lemma BisectStep(s: seq<Data>, t: string, l: int, r: int)
    requires 0 <= l <= r + 1 <= |s|
    ensures l > r ==> Bisect(s, t, l, r) == -1
    ensures l <= r ==>
              var m := (r + l) / 2; var diff := Compare(s[m].idTag, t);
              Bisect(s, t, l, r)
              == if diff < 0 then Bisect(s, t, m + 1, r) else if diff > 0 then Bisect(s, t, l, m - 1) else m
  {
  }

  lemma {:induction false} MonotoneFindsBetween(s: seq<Data>, t: string, l: int, r: int, k: nat)
    requires Monotone(s, t) && 0 <= l <= k <= r < |s| && s[k].idTag == t
    ensures Bisect(s, t, l, r) >= 0
    decreases r - l
  {
    hide Compare, Bisect;
    var m := (r + l) / 2;
    BisectStep(s, t, l, r);
    Antisymmetric(s[m].idTag, t);
    Antisymmetric(t, t);
    if Before(s[m].idTag, t) {
      MonotoneFindsBetween(s, t, m + 1, r, k);
    } else if Before(t, s[m].idTag) {
      MonotoneFindsBetween(s, t, l, m - 1, k);
    }
  }

  lemma MonotoneFinds(s: seq<Data>, t: string)
    requires Monotone(s, t) && Holds(s, t)
    ensures FindSlot(s, t) >= 0
  {
    hide Monotone, Bisect;
    var k :| 0 <= k < |s| && s[k].idTag == t;
    MonotoneFindsBetween(s, t, 0, |s| - 1, k);
  }

  /** The binary search, as the loop it is. */
  method Search(s: seq<Data>, t: string) returns (pos: int)
    ensures pos == FindSlot(s, t)
    ensures -1 <= pos < |s| && (pos >= 0 ==> s[pos].idTag == t)
  {
    hide Compare, Bisect;
    var l, r := 0, |s| - 1;
    while l <= r
      invariant 0 <= l <= r + 1 <= |s|
      invariant Bisect(s, t, l, r) == Bisect(s, t, 0, |s| - 1)
    {
      BisectStep(s, t, l, r);
      var m := (r + l) / 2;
      Antisymmetric(s[m].idTag, t);
      var diff := Compare(s[m].idTag, t);
      if diff < 0 {
        l := m + 1;
      } else if diff > 0 {
        r := m - 1;
      } else {
        return m;
      }
    }
    BisectStep(s, t, l, r);
    return -1;
  }
}
