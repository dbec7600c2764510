/**
 * The venue detector (`isDexTransaction`): decides whether a transaction
 * touched a decentralised exchange, from its metadata entries first and from
 * its UTXO addresses as a fallback.
 */
module Venue {
  import opened Wrappers
  import opened Text
  import opened Ledger

  /** A metadata label as the API may deliver it: a string, a number, or nothing. */
  datatype Label = StrLabel(s: string) | NumLabel(n: int) | NoLabel

  /** JavaScript truthiness of a label: the empty string, 0 and a missing label are falsy. */
  predicate Truthy(l: Label) {
    match l
    case StrLabel(s) => |s| > 0
    case NumLabel(n) => n != 0
    case NoLabel => false
  }

  /**
   * A metadata payload (`json_metadata`). `text` is its rendering
   * `JSON.stringify(payload).toLowerCase()`, taken as given; a string payload
   * also keeps its `raw` value, which the label-0 sentinel test compares.
   */
  datatype Payload = Str(raw: string, text: string) | Other(text: string)

  datatype MetadataEntry = MetadataEntry(tag: Label, payload: Payload)

  /** The `{isDex, dexName}` record. */
  datatype Detection = Detection(isDex: bool, dexName: string)

  const NotDex := Detection(false, "")
  const Splash := Detection(true, "Splash")

  /** One row of the label-674 keyword table. */
  datatype DexRow = DexRow(name: string, patterns: seq<string>)

  /** The label-674 keyword table, in priority order. */
  const DexPatterns: seq<DexRow> := [
    DexRow("Minswap", ["minswap", "order executed"]),
    DexRow("SundaeSwap", ["sundae", "swap"]),
    DexRow("MuesliSwap", ["muesli", "order"]),
    DexRow("WingRiders", ["wing", "riders"])
  ]

  /** Every venue name the detector can report when it reports a venue. */
  predicate KnownName(name: string) {
    name in {"Splash", "Minswap", "SundaeSwap", "MuesliSwap", "WingRiders", "Unknown DEX"}
  }

  /** The name of the first table row one of whose patterns occurs in `text`. */
  function FirstRow(text: string, rows: seq<DexRow>): (r: Option<string>)
    ensures r.None? <==> forall k :: 0 <= k < |rows| ==> !ContainsAny(text, rows[k].patterns)
    ensures r.Some? ==> exists k :: 0 <= k < |rows| && rows[k].name == r.value &&
                                    ContainsAny(text, rows[k].patterns) &&
                                    forall j :: 0 <= j < k ==> !ContainsAny(text, rows[j].patterns)
  {
    if |rows| == 0 then None
    else if ContainsAny(text, rows[0].patterns) then Some(rows[0].name)
    else
      var r := FirstRow(text, rows[1..]);
      assert forall k :: 1 <= k < |rows| ==> rows[1..][k - 1] == rows[k];
      r
  }

  /** The payload of a Splash label-0 entry: `'0x0100'`, `'0x0001'`, or a string starting with `'0x01'`. */
  predicate SplashSentinel(p: Payload) {
    p.Str? && (p.raw == "0x0100" || p.raw == "0x0001" || StartsWith(p.raw, "0x01"))
  }

  /** The generic keyword rule's trigger words. */
  predicate GenericHit(text: string) {
    Contains(text, "splash") || Contains(text, "dex") || Contains(text, "swap")
  }

  /**
   * The verdict one metadata entry reaches on its own, or None when the scan
   * must go on to the next entry. The three branches are exclusive: a string
   * label `'674'`, a label `'0'` or `0`, and any other truthy label.
   */
  function EntryRule(e: MetadataEntry): (r: Option<Detection>)
    ensures r.Some? ==> r.value.isDex && KnownName(r.value.dexName)
    ensures e.tag == StrLabel("674") && Contains(e.payload.text, "splash") ==> r == Some(Splash)
    ensures (e.tag == StrLabel("0") || e.tag == NumLabel(0)) ==> (r.Some? <==> SplashSentinel(e.payload))
    ensures (e.tag == StrLabel("0") || e.tag == NumLabel(0)) && r.Some? ==> r.value == Splash
    ensures e.tag != StrLabel("674") && e.tag != StrLabel("0") && e.tag != NumLabel(0) ==>
              (r.Some? <==> Truthy(e.tag) && GenericHit(e.payload.text))
    ensures e.tag != StrLabel("674") && e.tag != StrLabel("0") && e.tag != NumLabel(0) && r.Some? ==>
              r.value.dexName == (if Contains(e.payload.text, "splash") then "Splash" else "Unknown DEX")
    ensures !Truthy(e.tag) && e.tag != NumLabel(0) ==> r.None?
  {
    var text := e.payload.text;
    if e.tag == StrLabel("674") then
      if Contains(text, "splash") then Some(Splash)
      else
        match FirstRow(text, DexPatterns)
        case Some(name) => Some(Detection(true, name))
        case None => None
    else if e.tag == StrLabel("0") || e.tag == NumLabel(0) then
      if SplashSentinel(e.payload) then Some(Splash) else None
    else if Truthy(e.tag) then
      if GenericHit(text) then
        Some(Detection(true, if Contains(text, "splash") then "Splash" else "Unknown DEX"))
      else None
    else None
  }

  /** Some input or output of the UTXO record sits at the venue address. */
  predicate TouchesVenue(u: Utxos, venue: string) {
    (exists k :: 0 <= k < |u.inputs| && u.inputs[k].address == venue) ||
    (exists k :: 0 <= k < |u.outputs| && u.outputs[k].address == venue)
  }

  /** The address fallback, consulted only when no metadata entry decided. */
  function AddressFallback(utxos: Option<Utxos>, venue: string): (d: Detection)
    ensures d.isDex <==> utxos.Some? && TouchesVenue(utxos.value, venue)
    ensures d == Splash || d == NotDex
  {
    if utxos.Some? && TouchesVenue(utxos.value, venue) then Splash else NotDex
  }

  /**
   * `isDexTransaction(metadata, utxos)`: scan the metadata entries in order,
   * the first entry that reaches a verdict wins; otherwise fall back to the
   * venue address.
   */
  function Detect(metadata: seq<MetadataEntry>, utxos: Option<Utxos>, venue: string): (d: Detection)
    ensures !d.isDex ==> d.dexName == ""
    ensures d.isDex ==> KnownName(d.dexName)
  {
    if |metadata| == 0 then AddressFallback(utxos, venue)
    else
      match EntryRule(metadata[0])
      case Some(found) => found
      case None => Detect(metadata[1..], utxos, venue)
  }

  /** The first entry with a verdict decides, whatever follows it. */
  lemma {:induction false} FirstVerdictWins(metadata: seq<MetadataEntry>, utxos: Option<Utxos>, venue: string, i: nat)
    requires i < |metadata| && EntryRule(metadata[i]).Some?
    requires forall j :: 0 <= j < i ==> EntryRule(metadata[j]).None?
    ensures Detect(metadata, utxos, venue) == EntryRule(metadata[i]).value
  {
    if i > 0 {
      assert metadata[1..][i - 1] == metadata[i];
      assert forall j :: 0 <= j < i - 1 ==> metadata[1..][j] == metadata[j + 1];
      FirstVerdictWins(metadata[1..], utxos, venue, i - 1);
    }
  }

  /** With no entry reaching a verdict, the result is the address fallback's. */
  lemma {:induction false} FallbackWhenSilent(metadata: seq<MetadataEntry>, utxos: Option<Utxos>, venue: string)
    requires forall j :: 0 <= j < |metadata| ==> EntryRule(metadata[j]).None?
    ensures Detect(metadata, utxos, venue) == AddressFallback(utxos, venue)
  {
    if |metadata| > 0 {
      assert forall j :: 0 <= j < |metadata| - 1 ==> metadata[1..][j] == metadata[j + 1];
      FallbackWhenSilent(metadata[1..], utxos, venue);
    }
  }

  /**
   * Reference characterisation: a venue is detected iff some metadata entry
   * reaches a verdict or, failing that, some address is the venue's.
   */
  lemma DetectIff(metadata: seq<MetadataEntry>, utxos: Option<Utxos>, venue: string)
    ensures Detect(metadata, utxos, venue).isDex <==>
              (exists j :: 0 <= j < |metadata| && EntryRule(metadata[j]).Some?) ||
              (utxos.Some? && TouchesVenue(utxos.value, venue))
  {
    if j :| 0 <= j < |metadata| && EntryRule(metadata[j]).Some? {
      var i := FirstVerdict(metadata, j);
      FirstVerdictWins(metadata, utxos, venue, i);
    } else {
      FallbackWhenSilent(metadata, utxos, venue);
    }
  }

  /** The least index whose entry reaches a verdict, given that one does. */
  function FirstVerdict(metadata: seq<MetadataEntry>, j: nat): (i: nat)
    requires j < |metadata| && EntryRule(metadata[j]).Some?
    ensures i <= j && EntryRule(metadata[i]).Some?
    ensures forall k :: 0 <= k < i ==> EntryRule(metadata[k]).None?
  {
    if exists k :: 0 <= k < j && EntryRule(metadata[k]).Some? then
      var k :| 0 <= k < j && EntryRule(metadata[k]).Some?;
      FirstVerdict(metadata, k)
    else j
  }

  /**
   * A label-674 entry mentioning "splash" yields Splash — provided no earlier
   * entry already reached a verdict.
   */
  lemma Label674SplashWins(metadata: seq<MetadataEntry>, utxos: Option<Utxos>, venue: string, i: nat)
    requires i < |metadata| && metadata[i].tag == StrLabel("674") && Contains(metadata[i].payload.text, "splash")
    requires forall j :: 0 <= j < i ==> EntryRule(metadata[j]).None?
    ensures Detect(metadata, utxos, venue) == Splash
  {
    FirstVerdictWins(metadata, utxos, venue, i);
  }

  /**
   * The numeric label 674 is not the string `'674'`: it goes through the
   * generic keyword rule, so a payload naming only a table venue is missed.
   */
  lemma NumericLabel674IsGeneric(e: MetadataEntry)
    requires e.tag == NumLabel(674)
    ensures EntryRule(e).Some? <==> GenericHit(e.payload.text)
    ensures EntryRule(e).Some? ==> EntryRule(e).value.dexName == (if Contains(e.payload.text, "splash") then "Splash" else "Unknown DEX")
  {
  }

  /**
   * A label-674 entry without "splash" is named by the first table row with a
   * pattern in its text; when no row matches, the scan moves on.
   */
  lemma Label674Table(e: MetadataEntry)
    requires e.tag == StrLabel("674") && !Contains(e.payload.text, "splash")
    ensures EntryRule(e).None? <==> forall k :: 0 <= k < |DexPatterns| ==> !ContainsAny(e.payload.text, DexPatterns[k].patterns)
    ensures EntryRule(e).Some? ==>
              exists k :: 0 <= k < |DexPatterns| && EntryRule(e).value == Detection(true, DexPatterns[k].name) &&
                          ContainsAny(e.payload.text, DexPatterns[k].patterns) &&
                          forall j :: 0 <= j < k ==> !ContainsAny(e.payload.text, DexPatterns[j].patterns)
  {
  }

  /**
   * "Any label-674 entry mentioning splash yields Splash" holds only when no
   * earlier entry decides: here a generic entry mentioning "dex" comes first
   * and the result is `'Unknown DEX'`.
   */
  lemma EarlierEntryPreemptsSplash()
    ensures Detect([MetadataEntry(StrLabel("1"), Other("dex")), MetadataEntry(StrLabel("674"), Other("splash"))],
                   None, "") == Detection(true, "Unknown DEX")
  {
    ShorterNeverContains("dex", "splash");
    assert Contains("dex", "dex");
  }
}
