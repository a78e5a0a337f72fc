/**
 One entry of the local authorization list, its JSON form in messages from the server, and its compact form
 in the stored file.
 */
module AuthDatas {
  import opened Wrappers
  import opened Stamps
  import DateText

  const IDTAG_LEN_MAX: nat := 20

  datatype Status = Accepted | Blocked | Expired | Invalid | ConcurrentTx | Undefined

  function Serialize(s: Status): string {
    match s
    case Accepted => "Accepted"
    case Blocked => "Blocked"
    case Expired => "Expired"
    case Invalid => "Invalid"
    case ConcurrentTx => "ConcurrentTx"
    case Undefined => "UNDEFINED"
  }

  function Deserialize(s: string): Status {
    if s == "Accepted" then Accepted
    else if s == "Blocked" then Blocked
    else if s == "Expired" then Expired
    else if s == "Invalid" then Invalid
    else if s == "ConcurrentTx" then ConcurrentTx
    else Undefined
  }

  /** Each status has one text; every other text is Undefined, as UNDEFINED is. */
  lemma StatusTexts(s: string)
    ensures Deserialize(s) == Accepted <==> s == "Accepted"
    ensures Deserialize(s) == Blocked <==> s == "Blocked"
    ensures Deserialize(s) == Expired <==> s == "Expired"
    ensures Deserialize(s) == Invalid <==> s == "Invalid"
    ensures Deserialize(s) == ConcurrentTx <==> s == "ConcurrentTx"
    ensures s == Serialize(Deserialize(s)) || Deserialize(s) == Undefined
    ensures Serialize(Undefined) == "UNDEFINED"
  {
    assert |"Accepted"| == 8 && |"Blocked"| == 7 && |"Expired"| == 7 && |"Invalid"| == 7 && |"ConcurrentTx"| == 12;
    assert "Expired"[0] == 'E' && "Invalid"[0] == 'I' && "Blocked"[0] == 'B';
  }

  lemma StatusRoundTrip(s: Status)
    ensures Deserialize(Serialize(s)) == s
  {
    assert |Serialize(Accepted)| == 8 && |Serialize(Blocked)| == 7 && |Serialize(ConcurrentTx)| == 12;
    assert Serialize(Expired)[0] == 'E' && Serialize(Invalid)[0] == 'I' && Serialize(Blocked)[0] == 'B';
    assert |Serialize(Undefined)| == 9;
  }

  /** The JSON keys of an idTagInfo. */
  datatype Info = Info(expiryDate: Option<string>, parentIdTag: Option<string>, status: Option<string>)

  /** info is absent in a remove command. A compact entry holds the keys of its info itself. */
  datatype Entry = Entry(idTag: Option<string>, info: Option<Info>)

  datatype Data = Data(idTag: string, expiryDate: Option<Stamp>, parentIdTag: Option<string>, status: Status)

  /** strncpy to a field of that length. */
  function Truncate(s: string): (t: string)
    ensures |t| <= IDTAG_LEN_MAX
    ensures |s| <= IDTAG_LEN_MAX ==> t == s
  {
    if |s| <= IDTAG_LEN_MAX then s else s[..IDTAG_LEN_MAX]
  }

  /** readJson: every field is set, a text that is no time stamp counts as no expiry date. */
  function Read(e: Entry, compact: bool): Data {
    var info := if e.info.Some? then e.info.value else Info(None, None, None);
    Data(if e.idTag.Some? then Truncate(e.idTag.value) else "",
         if info.expiryDate.Some? then DateText.Parse(info.expiryDate.value) else None,
         if info.parentIdTag.Some? then Some(Truncate(info.parentIdTag.value)) else None,
         if info.status.Some? then Deserialize(info.status.value) else if compact then Accepted else Undefined)
  }

  /** The fields of a read entry: texts are cut, a missing status is Accepted in the compact form only. */
  lemma ReadMeaning(idTag: string, info: Info, compact: bool)
    ensures var d := Read(Entry(Some(idTag), Some(info)), compact);
            && d.idTag == (if |idTag| <= 20 then idTag else idTag[..20])
            && (info.parentIdTag.None? ==> d.parentIdTag.None?)
            && (info.parentIdTag.Some? ==>
                  var p := info.parentIdTag.value; d.parentIdTag == Some(if |p| <= 20 then p else p[..20]))
            && (info.status == None ==> d.status == if compact then Accepted else Undefined)
            && (info.status == Some("Accepted") <==> d.status == Accepted && (info.status.Some? || !compact))
            && (info.expiryDate.None? ==> d.expiryDate.None?)
            && (forall t :: InEpoch(t) && info.expiryDate == Some(DateText.Print(t)) ==> d.expiryDate == Some(t))
  {
    hide DateText.Parse, DateText.Print, Deserialize;
    if info.status.Some? {
      StatusTexts(info.status.value);
    }
    forall t | InEpoch(t) && info.expiryDate == Some(DateText.Print(t))
      ensures DateText.Parse(DateText.Print(t)) == Some(t)
    {
      DateText.ParsePrinted(t);
    }
  }

  /** Everything that Read makes. */
  predicate Storable(d: Data) {
    && |d.idTag| <= IDTAG_LEN_MAX
    && (d.parentIdTag.Some? ==> |d.parentIdTag.value| <= IDTAG_LEN_MAX)
    && (d.expiryDate.Some? ==> InEpoch(d.expiryDate.value))
  }

  lemma ReadIsStorable(e: Entry, compact: bool)
    ensures Storable(Read(e, compact))
  {
    hide DateText.Parse, InEpoch;
    if e.info.Some? && e.info.value.expiryDate.Some? && DateText.Parse(e.info.value.expiryDate.value).Some? {
      DateText.ParsedParts(e.info.value.expiryDate.value);
    }
  }

  function Write(d: Data, compact: bool): Entry
    requires Storable(d)
  {
    Entry(if d.idTag != "" then Some(d.idTag) else None,
          Some(Info(
            if d.expiryDate.Some? then Some(DateText.Print(d.expiryDate.value)) else None,
            d.parentIdTag,
            if d.status != Accepted then Some(Serialize(d.status))
            else if !compact then Some(Serialize(Invalid)) else None)))
  }

  /** The compact form keeps everything. */
  lemma CompactRoundTrip(d: Data)
    requires Storable(d)
    ensures Read(Write(d, true), true) == d
  {
    hide DateText.Parse, DateText.Print, Serialize, Deserialize;
    StatusRoundTrip(d.status);
    if d.expiryDate.Some? {
      DateText.ParsePrinted(d.expiryDate.value);
    }
  }

  /** The other form keeps everything but the status Accepted, for which it writes Invalid. */
  lemma VerboseRoundTripIff(d: Data)
    requires Storable(d)
    ensures Read(Write(d, false), false) == d.(status := if d.status == Accepted then Invalid else d.status)
    ensures Read(Write(d, false), false) == d <==> d.status != Accepted
  {
    hide DateText.Parse, DateText.Print, Serialize, Deserialize;
    StatusRoundTrip(d.status);
    StatusRoundTrip(Invalid);
    if d.expiryDate.Some? {
      DateText.ParsePrinted(d.expiryDate.value);
    }
  }
}
