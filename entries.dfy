/** The records that flow through the importer: a raw Journey entry as read
    from one export file, and the validated entry that is handed to dayone2. */
module Entries {
  import opened Platform

  /** `JourneyEntry`: one export file, fields as stored. `dateJournal` is
      None for a JSON null; `lat`/`lon` are None for a JSON null. */
  datatype JourneyEntry = JourneyEntry(
    id: string,
    path: string,
    dateJournal: Option<int>,
    text: string,
    kind: string,
    lat: Option<Coord>,
    lon: Option<Coord>,
    timezone: string,
    address: string,
    tags: seq<string>,
    photos: seq<string>
  )

  /** `ValidatedEntry`: what `validate_journey_entry` produces. */
  datatype ValidatedEntry = ValidatedEntry(
    foreignId: string,
    sourcePath: string,
    text: string,
    tags: seq<string>,
    photos: seq<string>,
    lat: Option<real>,
    lon: Option<real>,
    timestamp: string,
    timezone: string
  )

  /** A parsed JSON value, as `json.loads` returns it. */
  datatype Json =
    | JNull
    | JBool(b: bool)
    | JInt(i: int)
    | JFloat(f: Coord)
    | JStr(s: string)
    | JList(items: seq<Json>)
    | JObject(fields: map<string, Json>)

  /** The keys `extract_entry_from_body` reads, in the order its keyword
      arguments are evaluated. */
  const ENTRY_KEYS: seq<string> :=
    ["id", "date_journal", "text", "lon", "lat", "tags", "photos", "address", "type", "timezone"]

  datatype ExtractError =
    | MissingKey(key: string)  // the KeyError the source raises
    | WrongType(key: string)   // a value the typed record cannot hold

  datatype Extracted = Extracted(entry: JourneyEntry) | ExtractFailed(error: ExtractError)

  /** The first key of `keys` that `body` lacks. */
  function FirstMissing(body: map<string, Json>, keys: seq<string>): (missing: Option<string>)
    ensures missing.None? <==> forall i :: 0 <= i < |keys| ==> keys[i] in body
    ensures missing.Some? ==> exists i :: 0 <= i < |keys| && keys[i] == missing.value && keys[i] !in body
                                   && forall k :: 0 <= k < i ==> keys[k] in body
  {
    if keys == [] then None
    else if keys[0] !in body then Some(keys[0])
    else
      var rest := FirstMissing(body, keys[1..]);
      if rest.Some? then
        var i :| 0 <= i < |keys[1..]| && keys[1..][i] == rest.value && keys[1..][i] !in body
                 && forall k :: 0 <= k < i ==> keys[1..][k] in body;
        assert keys[i + 1] == rest.value && forall k :: 0 <= k < i + 1 ==> keys[k] in body;
        rest
      else rest
  }

  function AsString(v: Json): Option<string> {
    if v.JStr? then Some(v.s) else None
  }

  /** A JSON number or null, as a nullable float. */
  function AsCoord(v: Json): Option<Option<Coord>> {
    match v
    case JNull => Some(None)
    case JFloat(f) => Some(Some(f))
    case JInt(i) => Some(Some(Finite(i as real)))
    case _ => None
  }

  function AsMillis(v: Json): Option<Option<int>> {
    match v
    case JNull => Some(None)
    case JInt(i) => Some(Some(i))
    case _ => None
  }

  predicate AllStrings(items: seq<Json>) {
    forall i :: 0 <= i < |items| ==> items[i].JStr?
  }

  function AsStrings(v: Json): (r: Option<seq<string>>)
    ensures r.Some? ==> (v.JList? && |r.value| == |v.items|
      && forall i :: 0 <= i < |v.items| ==> v.items[i] == JStr(r.value[i]))
  {
    if v.JList? && AllStrings(v.items) then Some(seq(|v.items|, i requires 0 <= i < |v.items| => v.items[i].s))
    else None
  }

  /** `Importer.extract_entry_from_body`. A missing key fails with the first
      missing key in evaluation order, exactly as the KeyError the source
      raises; a present key whose value the typed record cannot hold fails
      with WrongType. */
  function ExtractEntryFromBody(body: map<string, Json>, path: string): (r: Extracted)
    ensures r.ExtractFailed? && r.error.MissingKey? <==> FirstMissing(body, ENTRY_KEYS).Some?
    ensures r.ExtractFailed? && r.error.MissingKey? ==> r.error.key == FirstMissing(body, ENTRY_KEYS).value
    ensures r.Extracted? ==> forall i :: 0 <= i < |ENTRY_KEYS| ==> ENTRY_KEYS[i] in body
    ensures r.Extracted? ==> (r.entry.path == path
      && "id" in body && "text" in body && "timezone" in body && "address" in body && "type" in body
      && "date_journal" in body && "lat" in body && "lon" in body && "tags" in body && "photos" in body
      && body["id"] == JStr(r.entry.id) && body["text"] == JStr(r.entry.text)
      && body["timezone"] == JStr(r.entry.timezone) && body["address"] == JStr(r.entry.address)
      && body["type"] == JStr(r.entry.kind)
      && AsMillis(body["date_journal"]) == Some(r.entry.dateJournal)
      && AsCoord(body["lat"]) == Some(r.entry.lat) && AsCoord(body["lon"]) == Some(r.entry.lon)
      && AsStrings(body["tags"]) == Some(r.entry.tags) && AsStrings(body["photos"]) == Some(r.entry.photos))
  {
    var missing := FirstMissing(body, ENTRY_KEYS);
    if missing.Some? then ExtractFailed(MissingKey(missing.value))
    else
      assert forall i :: 0 <= i < |ENTRY_KEYS| ==> ENTRY_KEYS[i] in body;
      assert "id" == ENTRY_KEYS[0] && "date_journal" == ENTRY_KEYS[1] && "text" == ENTRY_KEYS[2];
      assert "lon" == ENTRY_KEYS[3] && "lat" == ENTRY_KEYS[4] && "tags" == ENTRY_KEYS[5];
      assert "photos" == ENTRY_KEYS[6] && "address" == ENTRY_KEYS[7] && "type" == ENTRY_KEYS[8];
      assert "timezone" == ENTRY_KEYS[9];
      var id := AsString(body["id"]);
      var date := AsMillis(body["date_journal"]);
      var text := AsString(body["text"]);
      var lon := AsCoord(body["lon"]);
      var lat := AsCoord(body["lat"]);
      var tags := AsStrings(body["tags"]);
      var photos := AsStrings(body["photos"]);
      var address := AsString(body["address"]);
      var kind := AsString(body["type"]);
      var timezone := AsString(body["timezone"]);
      if id.None? then ExtractFailed(WrongType("id"))
      else if date.None? then ExtractFailed(WrongType("date_journal"))
      else if text.None? then ExtractFailed(WrongType("text"))
      else if lon.None? then ExtractFailed(WrongType("lon"))
      else if lat.None? then ExtractFailed(WrongType("lat"))
      else if tags.None? then ExtractFailed(WrongType("tags"))
      else if photos.None? then ExtractFailed(WrongType("photos"))
      else if address.None? then ExtractFailed(WrongType("address"))
      else if kind.None? then ExtractFailed(WrongType("type"))
      else if timezone.None? then ExtractFailed(WrongType("timezone"))
      else Extracted(JourneyEntry(
        id := id.value, path := path, dateJournal := date.value, text := text.value, kind := kind.value,
        lat := lat.value, lon := lon.value, timezone := timezone.value, address := address.value,
        tags := tags.value, photos := photos.value))
  }

  function CoordToJson(c: Option<Coord>): Json {
    if c.None? then JNull else JFloat(c.value)
  }

  function StringsToJson(items: seq<string>): (v: Json)
    ensures v.JList? && |v.items| == |items| && forall i :: 0 <= i < |items| ==> v.items[i] == JStr(items[i])
  {
    JList(seq(|items|, i requires 0 <= i < |items| => JStr(items[i])))
  }

  /** The export file Journey writes for an entry. */
  function EntryToBody(e: JourneyEntry): map<string, Json> {
    map[
      "id" := JStr(e.id),
      "date_journal" := if e.dateJournal.None? then JNull else JInt(e.dateJournal.value),
      "text" := JStr(e.text),
      "type" := JStr(e.kind),
      "lat" := CoordToJson(e.lat),
      "lon" := CoordToJson(e.lon),
      "timezone" := JStr(e.timezone),
      "address" := JStr(e.address),
      "tags" := StringsToJson(e.tags),
      "photos" := StringsToJson(e.photos)
    ]
  }

  /** Reading back the file of an entry recovers the entry. */
  lemma ExtractEntryToBody(e: JourneyEntry)
    ensures ExtractEntryFromBody(EntryToBody(e), e.path) == Extracted(e)
  {
    var body := EntryToBody(e);
    assert forall i :: 0 <= i < |ENTRY_KEYS| ==> ENTRY_KEYS[i] in body;
    StringsRoundTrip(e.tags);
    StringsRoundTrip(e.photos);
    ExtractRecovers(body, e);
  }

  /** A body holding every key, each with the value an entry stores, reads
      back as that entry. */
  lemma ExtractRecovers(body: map<string, Json>, e: JourneyEntry)
    requires forall i :: 0 <= i < |ENTRY_KEYS| ==> ENTRY_KEYS[i] in body
    requires "id" in body && body["id"] == JStr(e.id)
    requires "text" in body && body["text"] == JStr(e.text)
    requires "type" in body && body["type"] == JStr(e.kind)
    requires "timezone" in body && body["timezone"] == JStr(e.timezone)
    requires "address" in body && body["address"] == JStr(e.address)
    requires "date_journal" in body && AsMillis(body["date_journal"]) == Some(e.dateJournal)
    requires "lat" in body && AsCoord(body["lat"]) == Some(e.lat)
    requires "lon" in body && AsCoord(body["lon"]) == Some(e.lon)
    requires "tags" in body && AsStrings(body["tags"]) == Some(e.tags)
    requires "photos" in body && AsStrings(body["photos"]) == Some(e.photos)
    ensures ExtractEntryFromBody(body, e.path) == Extracted(e)
  {
  }

  lemma StringsRoundTrip(items: seq<string>)
    ensures AsStrings(StringsToJson(items)) == Some(items)
  {
    var v := StringsToJson(items);
    assert AllStrings(v.items);
    assert AsStrings(v).value == items;
  }

  /** A body without "text" (but with "id" and "date_journal") fails on "text". */
  lemma MissingTextReported(body: map<string, Json>, path: string)
    requires "id" in body && "date_journal" in body && "text" !in body
    ensures ExtractEntryFromBody(body, path) == ExtractFailed(MissingKey("text"))
  {
    assert ENTRY_KEYS[0] == "id" && ENTRY_KEYS[1] == "date_journal" && ENTRY_KEYS[2] == "text";
    assert FirstMissing(body, ENTRY_KEYS[2..]) == Some("text");
    assert FirstMissing(body, ENTRY_KEYS[1..]) == Some("text");
  }
}
