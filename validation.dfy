/** `Importer.validate_journey_entry` and `validate_journey_entries` as pure
    functions of the host: what a raw entry becomes, what is logged about it
    and how many of its attachments are missing. The class in module J2d
    computes the same things step by step and records them. */
module Validation {
  import opened Platform
  import opened Strings
  import opened Entries

  /** What validation logs, in the order it logs it. NoLocation is logged at
      debug level; every other one is a warning. */
  datatype Diagnostic =
    | TimezoneInvalid(name: string)
    | TimestampInvalid(millis: int)
    | AttachmentMissing(kind: string, path: string)
    | NoLocation
    | CoordinatesInvalid(lat: Coord, lon: Coord)
    | NoText
    | NoTextNoPhotos
    | PreviouslyExported

  /** Text that Day One writes into entries it exported itself. */
  const EXPORT_MARKER: string := "dayone-moment:"

  // ---------------------------------------------------------------------
  // Time zone and timestamp
  // ---------------------------------------------------------------------

  /** `raw.timezone` is non-empty and pytz knows it. */
  predicate TimezoneRecognised(h: Host, name: string) {
    name != "" && h.zoneKnown(name)
  }

  /** The zone an entry is imported with: the recognised raw zone, otherwise
      the host's local zone. */
  function ResolveTimezone(h: Host, name: string): (zone: string)
    ensures h.localZone != "" ==> zone != ""
    ensures TimezoneRecognised(h, name) && h.zoneName(name) != "" ==> zone == h.zoneName(name)
    ensures !TimezoneRecognised(h, name) ==> zone == h.localZone
  {
    var recognised := if TimezoneRecognised(h, name) then h.zoneName(name) else "";
    if recognised != "" then recognised else h.localZone
  }

  /** A warning for a non-empty, unknown zone name; nothing for an empty one. */
  function TimezoneDiagnostics(h: Host, name: string): (d: seq<Diagnostic>)
    ensures d != [] <==> name != "" && !h.zoneKnown(name)
    ensures d != [] ==> d == [TimezoneInvalid(name)]
  {
    if name != "" && !h.zoneKnown(name) then [TimezoneInvalid(name)] else []
  }

  /** The journal time formatted in the host's zone, or "" when it is absent
      or formatting raised. */
  function JournalTime(h: Host, millis: Option<int>): string {
    if millis.Some? && h.formatMillis(millis.value).Some? then h.formatMillis(millis.value).value else ""
  }

  /** The timestamp an entry is imported with. The fallback "now" is taken in
      `zone`; the journal time itself ignores `zone`. */
  function ResolveTimestamp(h: Host, millis: Option<int>, zone: string): (ts: string)
    ensures h.formatNow(zone) != "" ==> ts != ""
    ensures millis.None? ==> ts == h.formatNow(zone)
    ensures millis.Some? && h.formatMillis(millis.value).None? ==> ts == h.formatNow(zone)
    ensures JournalTime(h, millis) != "" ==> ts == JournalTime(h, millis)
  {
    var formatted := JournalTime(h, millis);
    if formatted != "" then formatted else h.formatNow(zone)
  }

  function TimestampDiagnostics(h: Host, millis: Option<int>): (d: seq<Diagnostic>)
    ensures d != [] <==> millis.Some? && h.formatMillis(millis.value).None?
  {
    if millis.Some? && h.formatMillis(millis.value).None? then [TimestampInvalid(millis.value)] else []
  }

  // ---------------------------------------------------------------------
  // Coordinates
  // ---------------------------------------------------------------------

  predicate LatitudeValid(c: Coord) {
    c.Finite? && -90.0 <= c.value <= 90.0 && c.value != MAX_FLOAT
  }

  predicate LongitudeValid(c: Coord) {
    c.Finite? && -180.0 <= c.value <= 180.0 && c.value != MAX_FLOAT
  }

  predicate CoordinatesAccepted(lat: Option<Coord>, lon: Option<Coord>) {
    lat.Some? && lon.Some? && LatitudeValid(lat.value) && LongitudeValid(lon.value)
  }

  /** The validated (lat, lon): both present and valid, or both absent. */
  function ValidateCoordinates(lat: Option<Coord>, lon: Option<Coord>): (r: (Option<real>, Option<real>))
    ensures r.0.Some? <==> r.1.Some?
    ensures r.0.Some? <==> CoordinatesAccepted(lat, lon)
    ensures r.0.Some? ==> r.0.value == lat.value.value && r.1.value == lon.value.value
    ensures r.0.Some? ==> -90.0 <= r.0.value <= 90.0 && -180.0 <= r.1.value <= 180.0
    ensures r.0.Some? ==> r.0.value != MAX_FLOAT && r.1.value != MAX_FLOAT
  {
    if CoordinatesAccepted(lat, lon) then (Some(lat.value.value), Some(lon.value.value)) else (None, None)
  }

  /** Nothing when both are accepted or either is null; a debug line when
      both are the "no location" sentinel; a warning otherwise. */
  function CoordinateDiagnostics(lat: Option<Coord>, lon: Option<Coord>): seq<Diagnostic> {
    if lat.None? || lon.None? || CoordinatesAccepted(lat, lon) then []
    else if lat.value == Finite(MAX_FLOAT) && lon.value == Finite(MAX_FLOAT) then [NoLocation]
    else [CoordinatesInvalid(lat.value, lon.value)]
  }

  // ---------------------------------------------------------------------
  // Attachments
  // ---------------------------------------------------------------------

  function ResolvedPaths(h: Host, root: string, paths: seq<string>): (r: seq<string>)
    ensures |r| == |paths| && forall i :: 0 <= i < |paths| ==> r[i] == h.resolvePath(root, paths[i])
  {
    seq(|paths|, i requires 0 <= i < |paths| => h.resolvePath(root, paths[i]))
  }

  /** The paths among `rs` that are files (`files`) or that are not
      (`!files`), in their order in `rs`. */
  function FilterFiles(h: Host, rs: seq<string>, files: bool): seq<string> {
    if rs == [] then []
    else
      var last := rs[|rs| - 1];
      FilterFiles(h, rs[..|rs| - 1], files) + (if h.isFile(last) == files then [last] else [])
  }

  /** The paths named by the missing-attachment warnings, in order. */
  function MissingPaths(ds: seq<Diagnostic>): seq<string> {
    if ds == [] then []
    else
      var last := ds[|ds| - 1];
      MissingPaths(ds[..|ds| - 1]) + (if last.AttachmentMissing? then [last.path] else [])
  }

  /** The resolved attachment paths that are files, in order. */
  function ExistingAttachments(h: Host, root: string, paths: seq<string>): (found: seq<string>)
    ensures |found| <= |paths|
    ensures forall i :: 0 <= i < |found| ==> h.isFile(found[i])
  {
    if paths == [] then []
    else
      var earlier := ExistingAttachments(h, root, paths[..|paths| - 1]);
      var p := h.resolvePath(root, paths[|paths| - 1]);
      if h.isFile(p) then earlier + [p] else earlier
  }

  /** One warning per attachment that is not a file, in order, naming the
      guessed kind of the raw path and the resolved path. */
  function MissingAttachments(h: Host, root: string, paths: seq<string>): (missing: seq<Diagnostic>)
    ensures forall i :: 0 <= i < |missing| ==> missing[i].AttachmentMissing? && !h.isFile(missing[i].path)
  {
    if paths == [] then []
    else
      var earlier := MissingAttachments(h, root, paths[..|paths| - 1]);
      var p := h.resolvePath(root, paths[|paths| - 1]);
      if h.isFile(p) then earlier else earlier + [AttachmentMissing(DetermineAttachmentType(paths[|paths| - 1]), p)]
  }

  /** The kept attachments are exactly the resolved paths that are files,
      and the warnings name exactly the others, each in order. */
  lemma {:induction false} AttachmentsFiltered(h: Host, root: string, paths: seq<string>)
    ensures ExistingAttachments(h, root, paths) == FilterFiles(h, ResolvedPaths(h, root, paths), true)
    ensures MissingPaths(MissingAttachments(h, root, paths)) == FilterFiles(h, ResolvedPaths(h, root, paths), false)
    decreases |paths|
  {
    if paths != [] {
      var init := paths[..|paths| - 1];
      AttachmentsFiltered(h, root, init);
      assert ResolvedPaths(h, root, paths)[..|paths| - 1] == ResolvedPaths(h, root, init);
      var earlier := MissingAttachments(h, root, init);
      var p := h.resolvePath(root, paths[|paths| - 1]);
      if !h.isFile(p) {
        var d := AttachmentMissing(DetermineAttachmentType(paths[|paths| - 1]), p);
        assert (earlier + [d])[..|earlier|] == earlier;
      }
    }
  }

  /** `a` can be obtained from `b` by deleting elements. */
  predicate IsSubsequence<T(==)>(a: seq<T>, b: seq<T>)
    decreases |b|
  {
    if a == [] then true
    else if b == [] then false
    else if a[|a| - 1] == b[|b| - 1] then IsSubsequence(a[..|a| - 1], b[..|b| - 1])
    else IsSubsequence(a, b[..|b| - 1])
  }

  /** Every attachment is either kept (in order) or reported missing: the
      kept ones are an in-order subsequence of the resolved paths, every
      resolved path that is a file is kept, every other one is reported,
      and kept plus missing account for every raw path. */
  lemma AttachmentsPartitioned(h: Host, root: string, paths: seq<string>)
    ensures IsSubsequence(ExistingAttachments(h, root, paths), ResolvedPaths(h, root, paths))
    ensures forall i :: 0 <= i < |paths| && h.isFile(h.resolvePath(root, paths[i]))
              ==> h.resolvePath(root, paths[i]) in ExistingAttachments(h, root, paths)
    ensures forall i :: 0 <= i < |paths| && !h.isFile(h.resolvePath(root, paths[i]))
              ==> h.resolvePath(root, paths[i]) in MissingPaths(MissingAttachments(h, root, paths))
    ensures |ExistingAttachments(h, root, paths)| + |MissingAttachments(h, root, paths)| == |paths|
  {
    var rs := ResolvedPaths(h, root, paths);
    KeptInOrder(h, root, paths);
    AttachmentsFiltered(h, root, paths);
    FilterFilesMembers(h, rs, true);
    FilterFilesMembers(h, rs, false);
  }

  /** The kept attachments are an in-order subsequence of the resolved
      paths, and kept plus missing account for every raw path. */
  lemma {:induction false} KeptInOrder(h: Host, root: string, paths: seq<string>)
    ensures IsSubsequence(ExistingAttachments(h, root, paths), ResolvedPaths(h, root, paths))
    ensures |ExistingAttachments(h, root, paths)| + |MissingAttachments(h, root, paths)| == |paths|
    decreases |paths|
  {
    if paths != [] {
      var init := paths[..|paths| - 1];
      KeptInOrder(h, root, init);
      assert ResolvedPaths(h, root, paths)[..|paths| - 1] == ResolvedPaths(h, root, init);
      var found := ExistingAttachments(h, root, paths);
      if h.isFile(h.resolvePath(root, paths[|paths| - 1])) {
        assert found[..|found| - 1] == ExistingAttachments(h, root, init);
      } else {
        SubsequenceOfLonger(found, ResolvedPaths(h, root, init), ResolvedPaths(h, root, paths));
      }
    }
  }

  /** Every path of the kind a filter selects is in its result. */
  lemma {:induction false} FilterFilesMembers(h: Host, rs: seq<string>, files: bool)
    ensures forall i :: 0 <= i < |rs| && h.isFile(rs[i]) == files ==> rs[i] in FilterFiles(h, rs, files)
    decreases |rs|
  {
    if rs != [] {
      var init := rs[..|rs| - 1];
      FilterFilesMembers(h, init, files);
      forall i | 0 <= i < |rs| - 1 && h.isFile(rs[i]) == files
        ensures rs[i] in FilterFiles(h, rs, files)
      {
        assert rs[i] == init[i];
      }
    }
  }

  /** A subsequence of `b` is a subsequence of `b` extended by one element. */
  lemma {:induction false} SubsequenceOfLonger<T>(a: seq<T>, b: seq<T>, c: seq<T>)
    requires IsSubsequence(a, b) && c != [] && c[..|c| - 1] == b
    ensures IsSubsequence(a, c)
    decreases |c|, 0
  {
    if a != [] && a[|a| - 1] == c[|c| - 1] {
      SubsequenceDropLast(a, b);
    }
  }

  /** A subsequence with its last element removed is still a subsequence. */
  lemma {:induction false} SubsequenceDropLast<T>(a: seq<T>, b: seq<T>)
    requires a != [] && IsSubsequence(a, b)
    ensures IsSubsequence(a[..|a| - 1], b)
    decreases |b|, 1
  {
    if a[|a| - 1] != b[|b| - 1] {
      SubsequenceDropLast(a, b[..|b| - 1]);
    }
    SubsequenceOfLonger(a[..|a| - 1], b[..|b| - 1], b);
  }

  /** When every attachment exists, all of them are kept, in order. */
  lemma {:induction false} AllAttachmentsKept(h: Host, root: string, paths: seq<string>)
    requires forall i :: 0 <= i < |paths| ==> h.isFile(h.resolvePath(root, paths[i]))
    ensures ExistingAttachments(h, root, paths) == ResolvedPaths(h, root, paths)
    ensures MissingAttachments(h, root, paths) == []
    decreases |paths|
  {
    if paths != [] {
      AllAttachmentsKept(h, root, paths[..|paths| - 1]);
      assert ResolvedPaths(h, root, paths) == ResolvedPaths(h, root, paths[..|paths| - 1]) + [h.resolvePath(root, paths[|paths| - 1])];
    }
  }

  // ---------------------------------------------------------------------
  // Text and the skip rule
  // ---------------------------------------------------------------------

  /** `Importer.convert_html_to_markdown`: markdown when the text holds an
      HTML element, the text unchanged otherwise. */
  function ConvertHtmlToMarkdown(h: Host, original: string): (text: string)
    ensures !h.hasMarkup(original) ==> text == original
  {
    if h.hasMarkup(original) then h.markdownify(original) else original
  }

  /** An entry is skipped when it has neither text nor attachments, or when
      Day One exported it before. */
  predicate SkipEntry(text: string, photos: seq<string>) {
    (text == "" && |photos| == 0) || Contains(text, EXPORT_MARKER)
  }

  function TextDiagnostics(text: string, photos: seq<string>): seq<Diagnostic> {
    (if text == "" then [NoText] else [])
    + (if text == "" && |photos| == 0 then [NoTextNoPhotos] else [])
    + (if Contains(text, EXPORT_MARKER) then [PreviouslyExported] else [])
  }

  // ---------------------------------------------------------------------
  // One entry
  // ---------------------------------------------------------------------

  /** The invariant of every validated entry. */
  predicate WellFormed(e: ValidatedEntry) {
    && (e.lat.Some? <==> e.lon.Some?)
    && (e.lat.Some? ==> -90.0 <= e.lat.value <= 90.0 && e.lat.value != MAX_FLOAT)
    && (e.lon.Some? ==> -180.0 <= e.lon.value <= 180.0 && e.lon.value != MAX_FLOAT)
    && (e.text != "" || e.photos != [])
    && !Contains(e.text, EXPORT_MARKER)
  }

  /** The result of validating one entry: the entry or None (a skip), the
      entry's path once per missing attachment (what is appended to the
      skipped attachments), and what was logged. */
  datatype Outcome = Outcome(entry: Option<ValidatedEntry>, skippedAttachments: seq<string>, diagnostics: seq<Diagnostic>)

  function Validate(h: Host, root: string, raw: JourneyEntry): Outcome
  {
    var zone := ResolveTimezone(h, raw.timezone);
    var timestamp := ResolveTimestamp(h, raw.dateJournal, zone);
    var photos := ExistingAttachments(h, root, raw.photos);
    var missing := MissingAttachments(h, root, raw.photos);
    var coordinates := ValidateCoordinates(raw.lat, raw.lon);
    var text := ConvertHtmlToMarkdown(h, raw.text);
    var diagnostics := TimezoneDiagnostics(h, raw.timezone) + TimestampDiagnostics(h, raw.dateJournal)
      + missing + CoordinateDiagnostics(raw.lat, raw.lon) + TextDiagnostics(text, photos);
    var entry := if SkipEntry(text, photos) then None
      else Some(ValidatedEntry(raw.id, raw.path, text, EscapeTags(raw.tags), photos,
                               coordinates.0, coordinates.1, timestamp, zone));
    Outcome(entry, Repeat(raw.path, |missing|), diagnostics)
  }

  /** What validating one entry promises: it is skipped exactly when its
      converted text is empty and it has no existing attachment, or the text
      carries the export marker; otherwise the entry is well formed and
      carries the raw entry's id, path, converted text, escaped tags,
      existing attachments and checked coordinates, with the resolved time
      zone and the timestamp resolved in that zone, which are never empty
      when the host supplies them. */
  lemma ValidateSound(h: Host, root: string, raw: JourneyEntry)
    ensures var v := Validate(h, root, raw);
      && (v.entry.None? <==> SkipEntry(ConvertHtmlToMarkdown(h, raw.text), ExistingAttachments(h, root, raw.photos)))
      && v.skippedAttachments == Repeat(raw.path, |MissingAttachments(h, root, raw.photos)|)
    ensures var v := Validate(h, root, raw);
      v.entry.Some? ==>
        && WellFormed(v.entry.value)
        && v.entry.value.foreignId == raw.id && v.entry.value.sourcePath == raw.path
        && v.entry.value.text == ConvertHtmlToMarkdown(h, raw.text)
        && v.entry.value.tags == EscapeTags(raw.tags)
        && v.entry.value.photos == ExistingAttachments(h, root, raw.photos)
        && (v.entry.value.lat, v.entry.value.lon) == ValidateCoordinates(raw.lat, raw.lon)
        && v.entry.value.timezone == ResolveTimezone(h, raw.timezone)
        && v.entry.value.timestamp == ResolveTimestamp(h, raw.dateJournal, v.entry.value.timezone)
        && (h.localZone != "" ==> v.entry.value.timezone != "")
        && (h.formatNow(v.entry.value.timezone) != "" ==> v.entry.value.timestamp != "")
  {
    var photos := ExistingAttachments(h, root, raw.photos);
    var text := ConvertHtmlToMarkdown(h, raw.text);
    var coordinates := ValidateCoordinates(raw.lat, raw.lon);
  }

  /** An entry whose converted text carries the export marker is skipped,
      whatever else it holds. */
  lemma PreviouslyExportedSkipped(h: Host, root: string, raw: JourneyEntry)
    requires Contains(ConvertHtmlToMarkdown(h, raw.text), EXPORT_MARKER)
    ensures Validate(h, root, raw).entry.None?
    ensures PreviouslyExported in Validate(h, root, raw).diagnostics
  {
  }

  /** Empty text with at least one existing attachment is not a reason to
      skip. */
  lemma AttachmentOnlyEntryKept(h: Host, root: string, raw: JourneyEntry)
    requires ConvertHtmlToMarkdown(h, raw.text) == ""
    requires ExistingAttachments(h, root, raw.photos) != []
    ensures Validate(h, root, raw).entry.Some?
    ensures NoText in Validate(h, root, raw).diagnostics
  {
    assert !Contains("", EXPORT_MARKER);
  }

  /** Out-of-range coordinates (latitude 100, longitude 50) are dropped as a
      pair, with one coordinates warning and no "no location" line. */
  lemma OutOfRangeCoordinatesDropped(h: Host, root: string, raw: JourneyEntry)
    requires raw.lat == Some(Finite(100.0)) && raw.lon == Some(Finite(50.0))
    ensures var v := Validate(h, root, raw);
      && (v.entry.Some? ==> v.entry.value.lat.None? && v.entry.value.lon.None?)
      && CoordinateDiagnostics(raw.lat, raw.lon) == [CoordinatesInvalid(Finite(100.0), Finite(50.0))]
      && CoordinatesInvalid(Finite(100.0), Finite(50.0)) in v.diagnostics
      && NoLocation !in v.diagnostics
  {
    var v := Validate(h, root, raw);
    var text := ConvertHtmlToMarkdown(h, raw.text);
    var photos := ExistingAttachments(h, root, raw.photos);
    var before := TimezoneDiagnostics(h, raw.timezone) + TimestampDiagnostics(h, raw.dateJournal)
      + MissingAttachments(h, root, raw.photos);
    var after := TextDiagnostics(text, photos);
    assert !CoordinatesAccepted(raw.lat, raw.lon);
    assert ValidateCoordinates(raw.lat, raw.lon) == (None, None);
    assert CoordinateDiagnostics(raw.lat, raw.lon) == [CoordinatesInvalid(Finite(100.0), Finite(50.0))];
    assert NoLocation !in MissingAttachments(h, root, raw.photos);
    assert v.diagnostics == before + [CoordinatesInvalid(Finite(100.0), Finite(50.0))] + after;
    OnlyInMiddle(before, CoordinatesInvalid(Finite(100.0), Finite(50.0)), after, NoLocation);
  }

  /** A value placed between two lists is in the whole; another value that
      is in neither list is not. */
  lemma OnlyInMiddle<T>(a: seq<T>, x: T, c: seq<T>, y: T)
    requires y !in a && y !in c && y != x
    ensures x in a + [x] + c && y !in a + [x] + c
  {
    assert (a + [x] + c)[|a|] == x;
  }

  /** The "no location" sentinel in both coordinates yields no coordinates
      and a debug line, not a warning. */
  lemma SentinelMeansNoLocation(h: Host, root: string, raw: JourneyEntry)
    requires raw.lat == Some(Finite(MAX_FLOAT)) && raw.lon == Some(Finite(MAX_FLOAT))
    ensures var v := Validate(h, root, raw);
      && (v.entry.Some? ==> v.entry.value.lat.None? && v.entry.value.lon.None?)
      && CoordinateDiagnostics(raw.lat, raw.lon) == [NoLocation]
  {
  }

  // ---------------------------------------------------------------------
  // Many entries
  // ---------------------------------------------------------------------

  /** `validate_journey_entries` run to the end: the validated entries in
      order, the paths recorded as skipped entries and as skipped
      attachments, and everything logged. */
  datatype BatchOutcome = BatchOutcome(
    valid: seq<ValidatedEntry>,
    skippedEntries: seq<string>,
    skippedAttachments: seq<string>,
    diagnostics: seq<Diagnostic>
  )

  function ValidateAll(h: Host, root: string, raws: seq<JourneyEntry>): BatchOutcome
  {
    if raws == [] then BatchOutcome([], [], [], [])
    else
      var earlier := ValidateAll(h, root, raws[..|raws| - 1]);
      var raw := raws[|raws| - 1];
      var v := Validate(h, root, raw);
      BatchOutcome(
        earlier.valid + (if v.entry.Some? then [v.entry.value] else []),
        earlier.skippedEntries + (if v.entry.None? then [raw.path] else []),
        earlier.skippedAttachments + v.skippedAttachments,
        earlier.diagnostics + v.diagnostics)
  }

  /** One more entry extends every part of the batch outcome by that
      entry's own outcome. */
  lemma ValidateAllStep(h: Host, root: string, raws: seq<JourneyEntry>, i: nat)
    requires i < |raws|
    ensures var earlier := ValidateAll(h, root, raws[..i]);
      var v := Validate(h, root, raws[i]);
      ValidateAll(h, root, raws[..i + 1]) == BatchOutcome(
        earlier.valid + (if v.entry.Some? then [v.entry.value] else []),
        earlier.skippedEntries + (if v.entry.None? then [raws[i].path] else []),
        earlier.skippedAttachments + v.skippedAttachments,
        earlier.diagnostics + v.diagnostics)
  {
    assert raws[..i + 1][..i] == raws[..i];
  }

  /** Each raw entry is either passed on or recorded as skipped, never both
      and never neither, and everything passed on is well formed. When the
      host has a local zone and can always format "now", everything passed
      on has a time zone and a timestamp. */
  lemma {:induction false} ValidateAllAccounts(h: Host, root: string, raws: seq<JourneyEntry>)
    ensures |ValidateAll(h, root, raws).valid| + |ValidateAll(h, root, raws).skippedEntries| == |raws|
    ensures forall e :: e in ValidateAll(h, root, raws).valid ==> WellFormed(e)
    ensures h.localZone != "" && (forall z :: h.formatNow(z) != "") ==>
              forall e :: e in ValidateAll(h, root, raws).valid ==> e.timezone != "" && e.timestamp != ""
    decreases |raws|
  {
    if raws != [] {
      ValidateAllAccounts(h, root, raws[..|raws| - 1]);
      ValidateSound(h, root, raws[|raws| - 1]);
    }
  }

  /** Every missing attachment puts the owning entry's path into the
      skipped-attachment list once, whether or not the entry is imported. */
  lemma {:induction false} SkippedAttachmentsCount(h: Host, root: string, raws: seq<JourneyEntry>)
    ensures |ValidateAll(h, root, raws).skippedAttachments|
         == SumMissing(h, root, raws)
    decreases |raws|
  {
    if raws != [] {
      SkippedAttachmentsCount(h, root, raws[..|raws| - 1]);
    }
  }

  function SumMissing(h: Host, root: string, raws: seq<JourneyEntry>): nat {
    if raws == [] then 0
    else SumMissing(h, root, raws[..|raws| - 1]) + |MissingAttachments(h, root, raws[|raws| - 1].photos)|
  }
}
