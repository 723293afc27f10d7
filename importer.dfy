/** The importer of src/j2d/j2d.py: an `Importer` object that validates raw
    Journey entries, imports the valid ones through dayone2 one at a time and
    keeps the batch bookkeeping (`ImportManyResult`) in its fields. */
module J2d {
  import opened Platform
  import opened Strings
  import opened Entries
  import opened Validation

  /** What `import_one_entry` returns: `(id, None)` after exit status 0,
      `(None, stderr)` otherwise; Aborted when dayone2 cannot be launched
      (the OSError is re-raised and ends the run). */
  datatype ImportResult = Returned(id: Option<string>, err: Option<string>) | Aborted

  function ImportResultOf(launch: Launch): (r: ImportResult)
    ensures r.Aborted? <==> launch.LaunchFailed?
    ensures r.Returned? ==> (r.id.Some? <==> r.err.None?)
    ensures r.Returned? && r.id.Some? ==> launch.returncode == 0 && r.id.value == ParseIdFromOutput(launch.stdout)
    ensures r.Returned? && r.err.Some? ==> launch.returncode != 0 && r.err.value == launch.stderr
  {
    if launch.LaunchFailed? then Aborted
    else if launch.returncode == 0 then Returned(Some(ParseIdFromOutput(launch.stdout)), None)
    else Returned(None, Some(launch.stderr))
  }

  /** `if not err`: the entry counts as imported. */
  predicate Succeeded(r: ImportResult) {
    r.Returned? && (r.err.None? || r.err.value == "")
  }

  /** Exit status 0 is a success whether or not an id was found, and so is a
      non-zero exit that wrote nothing to standard error. */
  lemma SuccessIsEmptyError(launch: Launch)
    requires launch.Launched?
    ensures Succeeded(ImportResultOf(launch)) <==> launch.returncode == 0 || launch.stderr == ""
  {
  }

  /** Python truthiness of an optional float: present and non-zero. */
  predicate Truthy(x: Option<real>) {
    x.Some? && x.value != 0.0
  }

  function TagArgs(tags: seq<string>): seq<string> {
    if |tags| > 0 then ["-t"] + tags else []
  }

  function PhotoArgs(photos: seq<string>): seq<string> {
    if |photos| > 0 then ["-p"] + photos else []
  }

  function CoordinateArgs(h: Host, lat: Option<real>, lon: Option<real>): seq<string> {
    if Truthy(lat) && Truthy(lon) then ["--coordinate", h.floatToString(lat.value), h.floatToString(lon.value)]
    else []
  }

  /** The dayone2 command line for a validated entry. */
  function DayOneArgs(h: Host, journal: string, e: ValidatedEntry): seq<string> {
    ["dayone2", "-j", journal, "-d", e.timestamp, "-z", e.timezone]
      + TagArgs(e.tags) + PhotoArgs(e.photos) + CoordinateArgs(h, e.lat, e.lon) + ["--", "new"]
  }

  /** Where everything sits in the command line: the fixed head, then the
      tag group, the attachment group, the coordinate group, and the fixed
      tail. */
  lemma DayOneArgsLayout(h: Host, journal: string, e: ValidatedEntry)
    ensures var a := DayOneArgs(h, journal, e);
      var t := if |e.tags| > 0 then 1 + |e.tags| else 0;
      var p := if |e.photos| > 0 then 1 + |e.photos| else 0;
      var c := if Truthy(e.lat) && Truthy(e.lon) then 3 else 0;
      && |a| == 9 + t + p + c
      && a[..7] == ["dayone2", "-j", journal, "-d", e.timestamp, "-z", e.timezone]
      && a[|a| - 2..] == ["--", "new"]
      && (|e.tags| > 0 ==> a[7] == "-t" && a[8..8 + |e.tags|] == e.tags)
      && (|e.photos| > 0 ==> a[7 + t] == "-p" && a[8 + t..8 + t + |e.photos|] == e.photos)
      && (c == 3 ==> a[7 + t + p..10 + t + p] == ["--coordinate", h.floatToString(e.lat.value), h.floatToString(e.lon.value)])
  {
    var head: seq<string> := ["dayone2", "-j", journal, "-d", e.timestamp, "-z", e.timezone];
    CommandLayout(head, e.tags, e.photos, CoordinateArgs(h, e.lat, e.lon));
    assert DayOneArgs(h, journal, e) == head + TagArgs(e.tags) + PhotoArgs(e.photos) + CoordinateArgs(h, e.lat, e.lon) + ["--", "new"];
  }

  /** Where each group lands, whatever the head and the groups hold. */
  lemma CommandLayout(head: seq<string>, tags: seq<string>, photos: seq<string>, co: seq<string>)
    ensures var a := head + TagArgs(tags) + PhotoArgs(photos) + co + ["--", "new"];
      var n, t, p := |head|, |TagArgs(tags)|, |PhotoArgs(photos)|;
      && |a| == n + t + p + |co| + 2
      && a[..n] == head
      && a[|a| - 2..] == ["--", "new"]
      && (|tags| > 0 ==> a[n] == "-t" && a[n + 1..n + 1 + |tags|] == tags)
      && (|photos| > 0 ==> a[n + t] == "-p" && a[n + t + 1..n + t + 1 + |photos|] == photos)
      && a[n + t + p..n + t + p + |co|] == co
  {
    var tg, ph := TagArgs(tags), PhotoArgs(photos);
    GroupsAt(head, tg, ph, co, ["--", "new"]);
    var a := head + tg + ph + co + ["--", "new"];
    var n := |head|;
    if |tags| > 0 {
      var g := a[n..n + |tg|];
      assert a[n] == g[0];
      assert a[n + 1..n + 1 + |tags|] == g[1..];
    }
    if |photos| > 0 {
      var g := a[n + |tg|..n + |tg| + |ph|];
      assert a[n + |tg|] == g[0];
      assert a[n + |tg| + 1..n + |tg| + 1 + |photos|] == g[1..];
    }
  }

  /** A validated entry on the equator or the prime meridian keeps its
      coordinates, but the command line drops them: the test is truthiness. */
  lemma ZeroCoordinateDropped(h: Host, journal: string, e: ValidatedEntry)
    requires e.lat == Some(0.0) || e.lon == Some(0.0)
    ensures CoordinateArgs(h, e.lat, e.lon) == []
    ensures |DayOneArgs(h, journal, e)| == 9 + |TagArgs(e.tags)| + |PhotoArgs(e.photos)|
  {
  }

  /** The result of dayone2 for one entry. */
  function LaunchOf(h: Host, tool: Tool, journal: string, e: ValidatedEntry): Launch {
    tool(DayOneArgs(h, journal, e), e.text)
  }

  /** What `import_one_entry` returns for each entry, with `tool` standing
      for dayone2. The batch below is defined over any such map, so that its
      properties do not depend on how the command line is built. */
  function ResultsOf(h: Host, tool: Tool, journal: string): ValidatedEntry -> ImportResult {
    e => ImportResultOf(LaunchOf(h, tool, journal, e))
  }

  /** The state of `import_journey_entries` after some entries: the entries
      it yielded, the failed paths, the attempt count, and whether a launch
      failure ended the run. */
  datatype ImportRun = ImportRun(imported: seq<ValidatedEntry>, failed: seq<string>, attempted: nat, aborted: bool)

  function ImportAll(results: ValidatedEntry -> ImportResult, entries: seq<ValidatedEntry>): ImportRun {
    if entries == [] then ImportRun([], [], 0, false)
    else
      var earlier := ImportAll(results, entries[..|entries| - 1]);
      var e := entries[|entries| - 1];
      var r := results(e);
      if earlier.aborted then earlier
      else if r.Aborted? then earlier.(aborted := true)
      else if Succeeded(r) then earlier.(imported := earlier.imported + [e], attempted := earlier.attempted + 1)
      else earlier.(failed := earlier.failed + [e.sourcePath], attempted := earlier.attempted + 1)
  }

  /** Every attempted entry is either yielded or has its path recorded as
      failed; without a launch failure every entry is attempted, and after
      one the attempts stop right before the entry that could not be
      launched. */
  lemma {:induction false} ImportAllAccounts(results: ValidatedEntry -> ImportResult, entries: seq<ValidatedEntry>)
    ensures var run := ImportAll(results, entries);
      && |run.imported| + |run.failed| == run.attempted
      && (!run.aborted ==> run.attempted == |entries|)
      && (run.aborted ==> run.attempted < |entries| && results(entries[run.attempted]).Aborted?)
      && (forall i :: 0 <= i < run.attempted ==> !results(entries[i]).Aborted?)
    decreases |entries|
  {
    if entries != [] {
      var init := entries[..|entries| - 1];
      ImportAllAccounts(results, init);
      var earlier := ImportAll(results, init);
      var run := ImportAll(results, entries);
      if earlier.aborted {
        assert run == earlier;
        assert entries[earlier.attempted] == init[earlier.attempted];
      } else if results(entries[|entries| - 1]).Aborted? {
        assert run == earlier.(aborted := true);
        assert run.attempted == |init|;
      } else {
        assert run.attempted == |entries|;
      }
      assert forall i :: 0 <= i < |init| ==> entries[i] == init[i];
    }
  }

  /** Once a launch has failed, later entries change nothing. */
  lemma {:induction false} AbortedRunStays(results: ValidatedEntry -> ImportResult, entries: seq<ValidatedEntry>, k: nat)
    requires k <= |entries| && ImportAll(results, entries[..k]).aborted
    ensures ImportAll(results, entries) == ImportAll(results, entries[..k])
    decreases |entries| - k
  {
    if k < |entries| {
      assert entries[..k + 1][..k] == entries[..k];
      AbortedRunStays(results, entries, k + 1);
    } else {
      assert entries[..k] == entries;
    }
  }

  /** The entries that dayone2 accepts, in order (a reference definition). */
  function SucceededEntries(results: ValidatedEntry -> ImportResult, entries: seq<ValidatedEntry>): seq<ValidatedEntry> {
    if entries == [] then []
    else
      var first := if Succeeded(results(entries[0])) then [entries[0]] else [];
      first + SucceededEntries(results, entries[1..])
  }

  /** The source paths of the entries dayone2 rejects, in order. */
  function FailedPaths(results: ValidatedEntry -> ImportResult, entries: seq<ValidatedEntry>): seq<string> {
    if entries == [] then []
    else
      var first := if Succeeded(results(entries[0])) then [] else [entries[0].sourcePath];
      first + FailedPaths(results, entries[1..])
  }

  lemma {:induction false} SucceededEntriesAppend(results: ValidatedEntry -> ImportResult, s: seq<ValidatedEntry>, e: ValidatedEntry)
    ensures SucceededEntries(results, s + [e])
         == SucceededEntries(results, s) + (if Succeeded(results(e)) then [e] else [])
    ensures FailedPaths(results, s + [e])
         == FailedPaths(results, s) + (if Succeeded(results(e)) then [] else [e.sourcePath])
    decreases |s|
  {
    if s != [] {
      assert (s + [e])[1..] == s[1..] + [e];
      SucceededEntriesAppend(results, s[1..], e);
      var first := if Succeeded(results(s[0])) then [s[0]] else [];
      AppendAssociative(first, SucceededEntries(results, s[1..]), if Succeeded(results(e)) then [e] else []);
      var firstPath := if Succeeded(results(s[0])) then [] else [s[0].sourcePath];
      AppendAssociative(firstPath, FailedPaths(results, s[1..]), if Succeeded(results(e)) then [] else [e.sourcePath]);
    } else {
      assert s + [e] == [e];
    }
  }

  /** When dayone2 can always be launched, the run yields exactly the
      entries it accepts and records exactly the paths of the ones it
      rejects, both in order, and attempts every entry. */
  lemma {:induction false} ImportAllWithoutLaunchFailure(results: ValidatedEntry -> ImportResult, entries: seq<ValidatedEntry>)
    requires forall i :: 0 <= i < |entries| ==> !results(entries[i]).Aborted?
    ensures ImportAll(results, entries)
         == ImportRun(SucceededEntries(results, entries), FailedPaths(results, entries), |entries|, false)
    decreases |entries|
  {
    if entries != [] {
      var init := entries[..|entries| - 1];
      var e := entries[|entries| - 1];
      assert forall i :: 0 <= i < |init| ==> init[i] == entries[i];
      ImportAllWithoutLaunchFailure(results, init);
      SucceededEntriesAppend(results, init, e);
      assert init + [e] == entries;
    }
  }

  /** Three entries of which dayone2 rejects the middle one: two succeed,
      one fails, and the failed list holds the middle entry's path. */
  lemma OneOfThreeFails(h: Host, tool: Tool, journal: string, entries: seq<ValidatedEntry>)
    requires |entries| == 3
    requires LaunchOf(h, tool, journal, entries[0]).Launched? && LaunchOf(h, tool, journal, entries[0]).returncode == 0
    requires LaunchOf(h, tool, journal, entries[2]).Launched? && LaunchOf(h, tool, journal, entries[2]).returncode == 0
    requires LaunchOf(h, tool, journal, entries[1]).Launched? && LaunchOf(h, tool, journal, entries[1]).returncode != 0
    requires LaunchOf(h, tool, journal, entries[1]).stderr != ""
    ensures var run := ImportAll(ResultsOf(h, tool, journal), entries);
      && run.imported == [entries[0], entries[2]] && run.failed == [entries[1].sourcePath]
      && run.attempted == 3 && !run.aborted
  {
    var results := ResultsOf(h, tool, journal);
    var s1, s2 := entries[..1], entries[..2];
    assert s1[..0] == [] && s1[0] == entries[0];
    assert Succeeded(results(entries[0]));
    assert ImportAll(results, s1) == ImportRun([entries[0]], [], 1, false);
    assert s2[..1] == s1 && s2[1] == entries[1];
    assert !Succeeded(results(entries[1]));
    assert ImportAll(results, s2) == ImportRun([entries[0]], [entries[1].sourcePath], 2, false);
    assert entries[..2] == s2 && entries[2] == entries[|entries| - 1];
    assert Succeeded(results(entries[2]));
  }

  /** The end-of-run summary: the three path lists, then
      "<succeeded> succeeded, <failed> failed, <skipped> skipped", and
      whether the missing-attachments notice is shown. */
  datatype Report = Report(
    skippedAttachments: seq<string>,
    skippedEntries: seq<string>,
    failedEntries: seq<string>,
    succeeded: nat,
    failed: nat,
    skipped: nat,
    missingAttachmentsNotice: bool
  )

  /** Validation and import together: every raw entry is counted exactly
      once, as succeeded, failed or skipped, unless a launch failure ended
      the run. */
  lemma BatchAccounting(h: Host, tool: Tool, root: string, journal: string, raws: seq<JourneyEntry>)
    ensures var b := ValidateAll(h, root, raws);
      var run := ImportAll(ResultsOf(h, tool, journal), b.valid);
      && run.attempted <= |b.valid|
      && (!run.aborted ==> |run.imported| + |run.failed| + |b.skippedEntries| == |raws|)
  {
    var b := ValidateAll(h, root, raws);
    ValidateAllAccounts(h, root, raws);
    ImportAllAccounts(ResultsOf(h, tool, journal), b.valid);
  }

  class Importer {
    const srcDirectory: string
    const targetJournalName: string
    // the fields of ImportManyResult
    var failedEntryPaths: seq<string>
    var skippedEntryPaths: seq<string>
    var skippedAttachmentPaths: seq<string>
    var attemptedEntryCount: int
    var totalEntryCount: int

    constructor (srcDirectory: string, targetJournalName: string)
      ensures this.srcDirectory == srcDirectory && this.targetJournalName == targetJournalName
      ensures failedEntryPaths == [] && skippedEntryPaths == [] && skippedAttachmentPaths == []
      ensures attemptedEntryCount == 0 && totalEntryCount == 0
    {
      this.srcDirectory := srcDirectory;
      this.targetJournalName := targetJournalName;
      failedEntryPaths, skippedEntryPaths, skippedAttachmentPaths := [], [], [];
      attemptedEntryCount, totalEntryCount := 0, 0;
    }

    /** `self.data = ImportManyResult([], [], [])` */
    method ResetData()
      modifies this
      ensures failedEntryPaths == [] && skippedEntryPaths == [] && skippedAttachmentPaths == []
      ensures attemptedEntryCount == 0 && totalEntryCount == 0
    {
      failedEntryPaths, skippedEntryPaths, skippedAttachmentPaths := [], [], [];
      attemptedEntryCount, totalEntryCount := 0, 0;
    }

    /** The attachment loop of `validate_journey_entry`: the resolved paths
        that exist, in order, and one log line per missing one; each missing
        attachment appends the entry's path to the skipped attachments. */
    method CollectAttachments(h: Host, raw: JourneyEntry) returns (photos: seq<string>, logged: seq<Diagnostic>)
      modifies this
      ensures photos == ExistingAttachments(h, srcDirectory, raw.photos)
      ensures logged == MissingAttachments(h, srcDirectory, raw.photos)
      ensures skippedAttachmentPaths == old(skippedAttachmentPaths) + Repeat(raw.path, |logged|)
      ensures skippedEntryPaths == old(skippedEntryPaths) && failedEntryPaths == old(failedEntryPaths)
      ensures attemptedEntryCount == old(attemptedEntryCount) && totalEntryCount == old(totalEntryCount)
    {
      photos, logged := [], [];
      for i := 0 to |raw.photos|
        invariant photos == ExistingAttachments(h, srcDirectory, raw.photos[..i])
        invariant logged == MissingAttachments(h, srcDirectory, raw.photos[..i])
        invariant skippedAttachmentPaths == old(skippedAttachmentPaths) + Repeat(raw.path, |logged|)
        invariant skippedEntryPaths == old(skippedEntryPaths) && failedEntryPaths == old(failedEntryPaths)
        invariant attemptedEntryCount == old(attemptedEntryCount) && totalEntryCount == old(totalEntryCount)
      {
        assert raw.photos[..i + 1][..i] == raw.photos[..i];
        var absPath := h.resolvePath(srcDirectory, raw.photos[i]);
        if h.isFile(absPath) {
          photos := photos + [absPath];
        } else {
          var kind := DetermineAttachmentType(raw.photos[i]);
          logged := logged + [AttachmentMissing(kind, absPath)];
          skippedAttachmentPaths := skippedAttachmentPaths + [raw.path];
        }
      }
      assert raw.photos[..|raw.photos|] == raw.photos;
    }

    /** The time zone section of `validate_journey_entry`. */
    method CheckTimezone(h: Host, raw: JourneyEntry) returns (timezone: string, logged: seq<Diagnostic>)
      ensures timezone == ResolveTimezone(h, raw.timezone)
      ensures logged == TimezoneDiagnostics(h, raw.timezone)
    {
      timezone, logged := "", [];
      if raw.timezone != "" {
        if h.zoneKnown(raw.timezone) {
          timezone := h.zoneName(raw.timezone);
        } else {
          logged := logged + [TimezoneInvalid(raw.timezone)];
        }
      }
      if timezone == "" {
        timezone := h.localZone;
      }
    }

    /** The timestamp section of `validate_journey_entry`. */
    method CheckTimestamp(h: Host, raw: JourneyEntry, timezone: string) returns (timestamp: string, logged: seq<Diagnostic>)
      ensures timestamp == ResolveTimestamp(h, raw.dateJournal, timezone)
      ensures logged == TimestampDiagnostics(h, raw.dateJournal)
    {
      timestamp, logged := "", [];
      if raw.dateJournal.Some? {
        var formatted := h.formatMillis(raw.dateJournal.value);
        if formatted.Some? {
          timestamp := formatted.value;
        } else {
          logged := logged + [TimestampInvalid(raw.dateJournal.value)];
        }
      }
      if timestamp == "" {
        timestamp := h.formatNow(timezone);
      }
    }

    /** The coordinate section of `validate_journey_entry`. */
    method CheckCoordinates(raw: JourneyEntry) returns (lat: Option<real>, lon: Option<real>, logged: seq<Diagnostic>)
      ensures (lat, lon) == ValidateCoordinates(raw.lat, raw.lon)
      ensures logged == CoordinateDiagnostics(raw.lat, raw.lon)
    {
      lat, lon, logged := None, None, [];
      if raw.lat.Some? && raw.lon.Some? {
        var latValid := LatitudeValid(raw.lat.value);
        var lonValid := LongitudeValid(raw.lon.value);
        if latValid && lonValid {
          lat := Some(raw.lat.value.value);
          lon := Some(raw.lon.value.value);
        } else if raw.lat.value == Finite(MAX_FLOAT) && raw.lon.value == Finite(MAX_FLOAT) {
          logged := logged + [NoLocation];
        } else {
          logged := logged + [CoordinatesInvalid(raw.lat.value, raw.lon.value)];
        }
      }
    }

    /** The text section of `validate_journey_entry`: whether the entry is
        skipped, and what was logged. */
    method CheckText(text: string, photos: seq<string>) returns (skip: bool, logged: seq<Diagnostic>)
      ensures skip == SkipEntry(text, photos)
      ensures logged == TextDiagnostics(text, photos)
    {
      skip, logged := false, [];
      if text == "" {
        logged := logged + [NoText];
      }
      if text == "" && |photos| == 0 {
        logged := logged + [NoTextNoPhotos];
        skip := true;
      }
      if Contains(text, EXPORT_MARKER) {
        logged := logged + [PreviouslyExported];
        skip := true;
      }
    }

    /** `validate_journey_entry`: the entry or None, and what was logged.
        Each missing attachment appends the entry's path to the skipped
        attachments; a skipped entry appends it to the skipped entries. */
    method ValidateJourneyEntry(h: Host, raw: JourneyEntry) returns (entry: Option<ValidatedEntry>, diagnostics: seq<Diagnostic>)
      modifies this
      ensures entry == Validate(h, srcDirectory, raw).entry
      ensures diagnostics == Validate(h, srcDirectory, raw).diagnostics
      ensures skippedAttachmentPaths == old(skippedAttachmentPaths) + Validate(h, srcDirectory, raw).skippedAttachments
      ensures skippedEntryPaths == old(skippedEntryPaths) + (if entry.None? then [raw.path] else [])
      ensures failedEntryPaths == old(failedEntryPaths)
      ensures attemptedEntryCount == old(attemptedEntryCount) && totalEntryCount == old(totalEntryCount)
    {
      var timezone, zoneLogged := CheckTimezone(h, raw);
      var timestamp, timeLogged := CheckTimestamp(h, raw, timezone);
      var photos, photoLogged := CollectAttachments(h, raw);
      var tags := EscapeTags(raw.tags);
      var lat, lon, coordinateLogged := CheckCoordinates(raw);
      var text := ConvertHtmlToMarkdown(h, raw.text);
      var skip, textLogged := CheckText(text, photos);
      diagnostics := zoneLogged + timeLogged + photoLogged + coordinateLogged + textLogged;
      if !skip {
        entry := Some(ValidatedEntry(raw.id, raw.path, text, tags, photos, lat, lon, timestamp, timezone));
      } else {
        skippedEntryPaths := skippedEntryPaths + [raw.path];
        entry := None;
      }
    }

    /** `validate_journey_entries`: the non-None results, in order. */
    method ValidateJourneyEntries(h: Host, raws: seq<JourneyEntry>) returns (valid: seq<ValidatedEntry>, diagnostics: seq<Diagnostic>)
      modifies this
      ensures valid == ValidateAll(h, srcDirectory, raws).valid
      ensures diagnostics == ValidateAll(h, srcDirectory, raws).diagnostics
      ensures skippedEntryPaths == old(skippedEntryPaths) + ValidateAll(h, srcDirectory, raws).skippedEntries
      ensures skippedAttachmentPaths == old(skippedAttachmentPaths) + ValidateAll(h, srcDirectory, raws).skippedAttachments
      ensures failedEntryPaths == old(failedEntryPaths)
      ensures attemptedEntryCount == old(attemptedEntryCount) && totalEntryCount == old(totalEntryCount)
    {
      valid, diagnostics := [], [];
      for i := 0 to |raws|
        invariant valid == ValidateAll(h, srcDirectory, raws[..i]).valid
        invariant diagnostics == ValidateAll(h, srcDirectory, raws[..i]).diagnostics
        invariant skippedEntryPaths == old(skippedEntryPaths) + ValidateAll(h, srcDirectory, raws[..i]).skippedEntries
        invariant skippedAttachmentPaths == old(skippedAttachmentPaths) + ValidateAll(h, srcDirectory, raws[..i]).skippedAttachments
        invariant failedEntryPaths == old(failedEntryPaths)
        invariant attemptedEntryCount == old(attemptedEntryCount) && totalEntryCount == old(totalEntryCount)
      {
        ValidateAllStep(h, srcDirectory, raws, i);
        ghost var earlier := ValidateAll(h, srcDirectory, raws[..i]);
        ghost var v := Validate(h, srcDirectory, raws[i]);
        AppendAssociative(old(skippedEntryPaths), earlier.skippedEntries, if v.entry.None? then [raws[i].path] else []);
        AppendAssociative(old(skippedAttachmentPaths), earlier.skippedAttachments, v.skippedAttachments);
        var entry, logged := ValidateJourneyEntry(h, raws[i]);
        if entry.Some? {
          valid := valid + [entry.value];
        }
        diagnostics := diagnostics + logged;
      }
      assert raws[..|raws|] == raws;
    }

    /** `build_dayone_args` */
    method BuildDayOneArgs(h: Host, entry: ValidatedEntry) returns (args: seq<string>)
      ensures args == DayOneArgs(h, targetJournalName, entry)
    {
      args := ["dayone2", "-j", targetJournalName];
      args := args + ["-d", entry.timestamp];
      args := args + ["-z", entry.timezone];
      if |entry.tags| > 0 {
        args := args + ["-t"] + entry.tags;
      }
      if |entry.photos| > 0 {
        args := args + ["-p"] + entry.photos;
      }
      if Truthy(entry.lat) && Truthy(entry.lon) {
        args := args + ["--coordinate", h.floatToString(entry.lat.value), h.floatToString(entry.lon.value)];
      }
      args := args + ["--", "new"];
    }

    /** `import_one_entry`: run dayone2 with the entry's text on standard
        input and classify what happened. */
    method ImportOneEntry(h: Host, tool: Tool, entry: ValidatedEntry) returns (result: ImportResult)
      ensures result == ImportResultOf(LaunchOf(h, tool, targetJournalName, entry))
    {
      var args := BuildDayOneArgs(h, entry);
      var p := tool(args, entry.text);
      if p.LaunchFailed? {
        result := Aborted;
      } else if p.returncode == 0 {
        var id := ParseIdFromOutput(p.stdout);
        result := Returned(Some(id), None);
      } else {
        result := Returned(None, Some(p.stderr));
      }
    }

    /** `import_journey_entries`: sets the total, then imports one entry at a
        time, counting each attempt, yielding the successes and recording the
        failures' paths. A launch failure ends the loop before its entry is
        counted. */
    method ImportJourneyEntries(h: Host, tool: Tool, entries: seq<ValidatedEntry>) returns (imported: seq<ValidatedEntry>, aborted: bool)
      modifies this
      ensures totalEntryCount == |entries|
      ensures imported == ImportAll(ResultsOf(h, tool, targetJournalName), entries).imported
      ensures aborted == ImportAll(ResultsOf(h, tool, targetJournalName), entries).aborted
      ensures attemptedEntryCount == old(attemptedEntryCount) + ImportAll(ResultsOf(h, tool, targetJournalName), entries).attempted
      ensures failedEntryPaths == old(failedEntryPaths) + ImportAll(ResultsOf(h, tool, targetJournalName), entries).failed
      ensures skippedEntryPaths == old(skippedEntryPaths) && skippedAttachmentPaths == old(skippedAttachmentPaths)
    {
      totalEntryCount := |entries|;
      imported, aborted := [], false;
      var i := 0;
      while i < |entries| && !aborted
        invariant 0 <= i <= |entries| && totalEntryCount == |entries|
        invariant imported == ImportAll(ResultsOf(h, tool, targetJournalName), entries[..i]).imported
        invariant aborted == ImportAll(ResultsOf(h, tool, targetJournalName), entries[..i]).aborted
        invariant attemptedEntryCount == old(attemptedEntryCount) + ImportAll(ResultsOf(h, tool, targetJournalName), entries[..i]).attempted
        invariant failedEntryPaths == old(failedEntryPaths) + ImportAll(ResultsOf(h, tool, targetJournalName), entries[..i]).failed
        invariant skippedEntryPaths == old(skippedEntryPaths) && skippedAttachmentPaths == old(skippedAttachmentPaths)
      {
        assert entries[..i + 1][..i] == entries[..i];
        var entry := entries[i];
        var result := ImportOneEntry(h, tool, entry);
        if result.Aborted? {
          aborted := true;
        } else {
          attemptedEntryCount := attemptedEntryCount + 1;
          if Succeeded(result) {
            imported := imported + [entry];
          } else {
            failedEntryPaths := failedEntryPaths + [entry.sourcePath];
          }
        }
        i := i + 1;
      }
      if aborted {
        AbortedRunStays(ResultsOf(h, tool, targetJournalName), entries, i);
      } else {
        assert entries[..i] == entries;
      }
    }

    /** `print_result`: the counts of the summary line come from the yielded
        entries and the two path lists. */
    method PrintResult(imported: seq<ValidatedEntry>) returns (report: Report)
      ensures report.succeeded == |imported|
      ensures report.failed == |failedEntryPaths| && report.skipped == |skippedEntryPaths|
      ensures report.failedEntries == failedEntryPaths && report.skippedEntries == skippedEntryPaths
      ensures report.skippedAttachments == skippedAttachmentPaths
      ensures report.missingAttachmentsNotice <==> skippedAttachmentPaths != []
    {
      var succeededCount := |imported|;
      var skippedCount := |skippedEntryPaths|;
      var failedCount := |failedEntryPaths|;
      report := Report(skippedAttachmentPaths, skippedEntryPaths, failedEntryPaths,
                       succeededCount, failedCount, skippedCount, skippedAttachmentPaths != []);
    }

    /** `run`, from the loaded raw entries on: reset the batch data, validate
        everything, import the valid entries, report. None when a launch
        failure ended the run before the report. */
    method Run(h: Host, tool: Tool, raws: seq<JourneyEntry>) returns (report: Option<Report>)
      modifies this
      ensures skippedEntryPaths == ValidateAll(h, srcDirectory, raws).skippedEntries
      ensures skippedAttachmentPaths == ValidateAll(h, srcDirectory, raws).skippedAttachments
      ensures totalEntryCount == |ValidateAll(h, srcDirectory, raws).valid|
      ensures var run := ImportAll(ResultsOf(h, tool, targetJournalName), ValidateAll(h, srcDirectory, raws).valid);
        && failedEntryPaths == run.failed
        && attemptedEntryCount == run.attempted
        && (report.None? <==> run.aborted)
        && (report.Some? ==> report.value == Report(skippedAttachmentPaths, skippedEntryPaths, failedEntryPaths,
                                                    |run.imported|, |run.failed|, |skippedEntryPaths|,
                                                    skippedAttachmentPaths != []))
      ensures 0 <= attemptedEntryCount <= totalEntryCount
      ensures report.Some? ==> report.value.succeeded + report.value.failed + report.value.skipped == |raws|
    {
      ResetData();
      var valid, _ := ValidateJourneyEntries(h, raws);
      var imported, aborted := ImportJourneyEntries(h, tool, valid);
      BatchAccounting(h, tool, srcDirectory, targetJournalName, raws);
      if aborted {
        report := None;
      } else {
        var summary := PrintResult(imported);
        report := Some(summary);
      }
    }
  }
}
