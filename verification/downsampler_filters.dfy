/** The filter list of the CCSDS downsampler component: a model file lists,
    per packet, its APID and the filter factor the downsampler applies to it.
    Loading validates each record, names it, and rejects a list that would
    give two packets the same name or the same APID. The result is the list
    name and description, the entries in input order (the ordered dictionary
    keyed by APID) and the size of the table in bytes.

    Reading the YAML file and checking it against its schema happen before
    this point; here a file is already a sequence of `Packet` records.
    `ada.formatVariable` is a parameter `format`, about which nothing is
    assumed. */
module DownsamplerFilters {
  import opened Wrappers
  import opened Strings

  /** An APID is an 11-bit field. */
  const MaxApid := 2047
  /** A filter factor is a 16-bit field. */
  const MaxFilterFactor := 65535
  /** Each entry of the table: 2 bytes of APID and 2 of filter factor. */
  const BytesPerEntry := 4

  /** One record of `downsampled_packets`; the two optional keys may be absent. */
  datatype Packet = Packet(apid: int, filterFactor: int, packetName: Option<string>, description: Option<string>)

  /** A validated record (`filter_entry`). */
  datatype FilterEntry = FilterEntry(apid: int, filterFactor: int, name: string, description: string)

  /** The `ModelException`s loading can raise. */
  datatype ModelError =
    | ApidTooLarge(apid: int)
    | FilterFactorTooLarge(filterFactor: int)
    | SpecificNameGiven(specificName: string)
    | DuplicateName(name: string)
    | DuplicateApid(apid: int)

  /** A loaded filter list. */
  datatype Filters = Filters(name: string, description: Option<string>, entries: seq<FilterEntry>, size: int)

  /** The name given to a packet that has none, before formatting. */
  function DefaultName(apid: int): string
  {
    "Apid_" + IntToString(apid)
  }

  /** The default name is `Apid_` followed by the decimal digits of the
      APID, with a minus sign exactly when it is negative and no leading
      zeros. */
  lemma DefaultNameSpelled(apid: int)
    ensures |DefaultName(apid)| > 5 && DefaultName(apid)[..5] == "Apid_"
    ensures DefaultName(apid)[5] == '-' <==> apid < 0
    ensures apid >= 0 ==> AllDigits(DefaultName(apid)[5..]) && DigitsValue(DefaultName(apid)[5..]) == apid
    ensures apid < 0 ==> AllDigits(DefaultName(apid)[6..]) && DigitsValue(DefaultName(apid)[6..]) == -apid
    ensures apid >= 0 && |DefaultName(apid)| > 6 ==> DefaultName(apid)[5] != '0'
    ensures apid < 0 ==> |DefaultName(apid)| >= 7 && DefaultName(apid)[6] != '0'
  {
    var d := IntToString(apid);
    assert DefaultName(apid)[5..] == d;
    assert DefaultName(apid)[6..] == d[1..];
  }

  /** Different APIDs get different default names, before formatting. */
  lemma DefaultNamesDiffer(a: int, b: int)
    requires a != b
    ensures DefaultName(a) != DefaultName(b)
  {
    if DefaultName(a) == DefaultName(b) {
      assert IntToString(a) == DefaultName(a)[5..] == DefaultName(b)[5..] == IntToString(b);
      IntToStringInjective(a, b);
    }
  }

  /** `filter_entry(packet)`: the APID is checked before the filter factor,
      and only from above; the name is formatted, the description defaults
      to the empty string. */
  function MakeEntry(p: Packet, format: string -> string): (r: Result<FilterEntry, ModelError>)
    ensures r.Success? <==> p.apid <= MaxApid && p.filterFactor <= MaxFilterFactor
    ensures p.apid > MaxApid ==> r == Failure(ApidTooLarge(p.apid))
    ensures p.apid <= MaxApid && p.filterFactor > MaxFilterFactor ==> r == Failure(FilterFactorTooLarge(p.filterFactor))
    ensures r.Success? ==>
      && r.value.apid == p.apid && r.value.filterFactor == p.filterFactor
      && r.value.name == format(p.packetName.GetOr(DefaultName(p.apid)))
      && r.value.description == p.description.GetOr("")
  {
    if p.apid > MaxApid then Failure(ApidTooLarge(p.apid))
    else if p.filterFactor > MaxFilterFactor then Failure(FilterFactorTooLarge(p.filterFactor))
    else
      var name := match p.packetName
        case Some(n) => format(n)
        case None => format(DefaultName(p.apid));
      var description := match p.description
        case Some(d) => d
        case None => "";
      Success(FilterEntry(p.apid, p.filterFactor, name, description))
  }

  /** The validation bounds APIDs and filter factors only from above: a
      negative APID or filter factor is accepted. */
  lemma NegativeValuesAccepted(format: string -> string)
    ensures MakeEntry(Packet(-1, -1, None, None), format).Success?
  {
  }

  /** A non-empty specific name is Python-truthy; `None` and `""` are not. */
  predicate Truthy(specificName: Option<string>)
  {
    specificName.Some? && specificName.value != ""
  }

  /** The first `k` packets are all valid, with pairwise distinct names and
      pairwise distinct APIDs. */
  ghost predicate AcceptedPrefix(packets: seq<Packet>, k: nat, format: string -> string)
  {
    && k <= |packets|
    && (forall i :: 0 <= i < k ==> MakeEntry(packets[i], format).Success?)
    && (forall i, j :: 0 <= i < j < k ==>
          && MakeEntry(packets[i], format).value.name != MakeEntry(packets[j], format).value.name
          && MakeEntry(packets[i], format).value.apid != MakeEntry(packets[j], format).value.apid)
  }

  /** Packet `k` is the first one rejected, with error `e`: invalid on its
      own, else a repeated name, else a repeated APID. */
  ghost predicate RejectedAt(packets: seq<Packet>, k: nat, format: string -> string, e: ModelError)
  {
    && k < |packets|
    && AcceptedPrefix(packets, k, format)
    && var m := MakeEntry(packets[k], format);
       if m.Failure? then e == m.error
       else if exists i :: 0 <= i < k && MakeEntry(packets[i], format).value.name == m.value.name then
         e == DuplicateName(m.value.name)
       else
         && (exists i :: 0 <= i < k && MakeEntry(packets[i], format).value.apid == m.value.apid)
         && e == DuplicateApid(m.value.apid)
  }

  /** The names of the accepted entries. */
  function NamesOf(entries: seq<FilterEntry>): set<string>
  {
    set i | 0 <= i < |entries| :: entries[i].name
  }

  /** Accepting one more entry adds its name. */
  lemma NamesOfSnoc(entries: seq<FilterEntry>, e: FilterEntry)
    ensures NamesOf(entries + [e]) == NamesOf(entries) + {e.name}
  {
    var t := entries + [e];
    assert t[|entries|] == e;
    forall n | n in NamesOf(entries) ensures n in NamesOf(t) {
      var i :| 0 <= i < |entries| && entries[i].name == n;
      assert t[i] == entries[i];
    }
  }

  /** The APIDs of the accepted entries. */
  function ApidsOf(entries: seq<FilterEntry>): set<int>
  {
    set i | 0 <= i < |entries| :: entries[i].apid
  }

  /** `entries` are the validated records of the first `k` packets. */
  ghost predicate Matches(packets: seq<Packet>, k: nat, format: string -> string, entries: seq<FilterEntry>)
  {
    && k <= |packets| && |entries| == k
    && forall i :: 0 <= i < k ==> MakeEntry(packets[i], format) == Success(entries[i])
  }

  /** A packet whose name is already taken is rejected for that name. */
  lemma RejectDuplicateName(packets: seq<Packet>, k: nat, format: string -> string, entries: seq<FilterEntry>)
    requires k < |packets| && AcceptedPrefix(packets, k, format) && Matches(packets, k, format, entries)
    requires MakeEntry(packets[k], format).Success?
    requires MakeEntry(packets[k], format).value.name in NamesOf(entries)
    ensures RejectedAt(packets, k, format, DuplicateName(MakeEntry(packets[k], format).value.name))
  {
    var m := MakeEntry(packets[k], format).value;
    var i :| 0 <= i < k && entries[i].name == m.name;
    assert MakeEntry(packets[i], format).value.name == m.name;
  }

  /** A packet with a fresh name whose APID is already taken is rejected for that APID. */
  lemma RejectDuplicateApid(packets: seq<Packet>, k: nat, format: string -> string, entries: seq<FilterEntry>)
    requires k < |packets| && AcceptedPrefix(packets, k, format) && Matches(packets, k, format, entries)
    requires MakeEntry(packets[k], format).Success?
    requires MakeEntry(packets[k], format).value.name !in NamesOf(entries)
    requires MakeEntry(packets[k], format).value.apid in ApidsOf(entries)
    ensures RejectedAt(packets, k, format, DuplicateApid(MakeEntry(packets[k], format).value.apid))
  {
    var m := MakeEntry(packets[k], format).value;
    var i :| 0 <= i < k && entries[i].apid == m.apid;
    assert MakeEntry(packets[i], format).value.apid == m.apid;
    forall j | 0 <= j < k ensures MakeEntry(packets[j], format).value.name != m.name {
      assert entries[j].name in NamesOf(entries);
    }
  }

  /** A valid packet with a fresh name and a fresh APID is accepted. */
  lemma AcceptNext(packets: seq<Packet>, k: nat, format: string -> string, entries: seq<FilterEntry>)
    requires k < |packets| && AcceptedPrefix(packets, k, format) && Matches(packets, k, format, entries)
    requires MakeEntry(packets[k], format).Success?
    requires MakeEntry(packets[k], format).value.name !in NamesOf(entries)
    requires MakeEntry(packets[k], format).value.apid !in ApidsOf(entries)
    ensures AcceptedPrefix(packets, k + 1, format)
    ensures Matches(packets, k + 1, format, entries + [MakeEntry(packets[k], format).value])
  {
    var m := MakeEntry(packets[k], format).value;
    forall i, j | 0 <= i < j < k + 1
      ensures MakeEntry(packets[i], format).value.name != MakeEntry(packets[j], format).value.name
      ensures MakeEntry(packets[i], format).value.apid != MakeEntry(packets[j], format).value.apid
    {
      if j == k {
        assert MakeEntry(packets[i], format).value == entries[i];
        assert entries[i].name in NamesOf(entries);
        assert entries[i].apid in ApidsOf(entries);
      }
    }
    var t := entries + [m];
    forall i | 0 <= i < k + 1 ensures MakeEntry(packets[i], format) == Success(t[i]) {
      if i < k { assert t[i] == entries[i]; }
    }
  }

  /** The entries of a fully accepted list have distinct APIDs and distinct names. */
  lemma AcceptedDistinct(packets: seq<Packet>, format: string -> string, entries: seq<FilterEntry>)
    requires AcceptedPrefix(packets, |packets|, format) && Matches(packets, |packets|, format, entries)
    ensures forall i, j :: 0 <= i < j < |entries| ==>
      entries[i].apid != entries[j].apid && entries[i].name != entries[j].name
  {
    forall i, j | 0 <= i < j < |entries|
      ensures entries[i].apid != entries[j].apid && entries[i].name != entries[j].name
    {
      assert MakeEntry(packets[i], format) == Success(entries[i]);
      assert MakeEntry(packets[j], format) == Success(entries[j]);
    }
  }

  /** `ccsds_downsampler_filters.load`, after the base model has been read:
      `specificName` and `modelName` come from the file name, `description`
      and `packets` from the file. */
  method Load(specificName: Option<string>, modelName: string, description: Option<string>,
              packets: seq<Packet>, format: string -> string)
    returns (r: Result<Filters, ModelError>)
    ensures Truthy(specificName) ==> r == Failure(SpecificNameGiven(specificName.value))
    ensures r.Success? <==> !Truthy(specificName) && AcceptedPrefix(packets, |packets|, format)
    ensures r.Success? ==>
      && r.value.name == format(modelName)
      && r.value.description == description
      && |r.value.entries| == |packets|
      && (forall i :: 0 <= i < |packets| ==> MakeEntry(packets[i], format) == Success(r.value.entries[i]))
      && r.value.size == BytesPerEntry * |packets|
    ensures r.Success? ==>
      forall i, j :: 0 <= i < j < |r.value.entries| ==>
        && r.value.entries[i].apid != r.value.entries[j].apid
        && r.value.entries[i].name != r.value.entries[j].name
    ensures r.Failure? && !Truthy(specificName) ==> exists k :: RejectedAt(packets, k, format, r.error)
  {
    if Truthy(specificName) {
      return Failure(SpecificNameGiven(specificName.value));
    }
    var name := format(modelName);
    var entries: seq<FilterEntry> := [];
    var seenNames: set<string> := {};
    for i := 0 to |packets|
      invariant |entries| == i
      invariant AcceptedPrefix(packets, i, format)
      invariant Matches(packets, i, format, entries)
      invariant seenNames == NamesOf(entries)
    {
      var e := MakeEntry(packets[i], format);
      if e.Failure? {
        assert RejectedAt(packets, i, format, e.error);
        return Failure(e.error);
      }
      var entry := e.value;
      if entry.name in seenNames {
        RejectDuplicateName(packets, i, format, entries);
        return Failure(DuplicateName(entry.name));
      }
      if entry.apid in ApidsOf(entries) {
        RejectDuplicateApid(packets, i, format, entries);
        return Failure(DuplicateApid(entry.apid));
      }
      AcceptNext(packets, i, format, entries);
      NamesOfSnoc(entries, entry);
      seenNames := seenNames + {entry.name};
      entries := entries + [entry];
    }
    AcceptedDistinct(packets, format, entries);
    r := Success(Filters(name, description, entries, BytesPerEntry * |entries|));
  }
}
