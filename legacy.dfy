/** The single-file importer of j2d.py, the predecessor of src/j2d/j2d.py:
    it checks everything while building the dayone2 command line, skips only
    entries with empty text, and keeps three counters and a retry list. */
module LegacyJ2d {
  import opened Platform
  import opened Strings
  import opened Entries
  import V = Validation

  /** What `build_dayone_args` prints as a warning, in the order it prints. */
  datatype Warning =
    | TimezoneInvalid(name: string)
    | TimestampInvalid(millis: int)
    | CoordinatesInvalid(lat: Coord, lon: Coord)
    | PhotoPathInvalid(path: string)

  // ---------------------------------------------------------------------
  // The command line
  // ---------------------------------------------------------------------

  /** `math.isfinite(x) and math.fabs(x) <= bound` */
  predicate WithinBound(c: Coord, bound: real) {
    c.Finite? && -bound <= c.value <= bound
  }

  /** Both coordinates present, finite and in range; no sentinel test. */
  predicate CoordinatesValid(lat: Option<Coord>, lon: Option<Coord>) {
    lat.Some? && lon.Some? && WithinBound(lat.value, 90.0) && WithinBound(lon.value, 180.0)
  }

  function CoordinateArgs(h: Host, lat: Option<Coord>, lon: Option<Coord>): seq<string> {
    if CoordinatesValid(lat, lon) then ["--coordinate", h.floatToString(lat.value.value), h.floatToString(lon.value.value)]
    else []
  }

  function TagArgs(tags: seq<string>): seq<string> {
    if |tags| > 0 then ["-t"] + EscapeTags(tags) else []
  }

  /** "-p" whenever the entry lists photos, then only those that exist. */
  function PhotoArgs(h: Host, root: string, photos: seq<string>): seq<string> {
    if |photos| > 0 then ["-p"] + V.ExistingAttachments(h, root, photos) else []
  }

  /** The command line from its parts: the fixed head with the zone before
      the date, the coordinate, tag and photo groups, and the fixed tail. */
  function Assemble(journal: string, zone: string, timestamp: string,
                    co: seq<string>, tg: seq<string>, ph: seq<string>): seq<string> {
    ["dayone2", "-j", journal, "-z", zone, "-d", timestamp] + co + tg + ph + ["--", "new"]
  }

  /** The dayone2 command line for a raw entry. */
  function LegacyArgs(h: Host, root: string, journal: string, e: JourneyEntry): seq<string> {
    var zone := V.ResolveTimezone(h, e.timezone);
    Assemble(journal, zone, V.ResolveTimestamp(h, e.dateJournal, zone),
             CoordinateArgs(h, e.lat, e.lon), TagArgs(e.tags), PhotoArgs(h, root, e.photos))
  }

  /** One warning per attachment that is not a file, naming the resolved path. */
  function PhotoWarnings(h: Host, root: string, paths: seq<string>): (w: seq<Warning>)
    ensures |w| + |V.ExistingAttachments(h, root, paths)| == |paths|
    ensures forall i :: 0 <= i < |w| ==> w[i].PhotoPathInvalid? && !h.isFile(w[i].path)
  {
    if paths == [] then []
    else
      var earlier := PhotoWarnings(h, root, paths[..|paths| - 1]);
      var p := h.resolvePath(root, paths[|paths| - 1]);
      if h.isFile(p) then earlier else earlier + [PhotoPathInvalid(p)]
  }

  /** The photo warnings name exactly the resolved paths that are not
      files, in order. */
  lemma {:induction false} PhotoWarningsFiltered(h: Host, root: string, paths: seq<string>)
    ensures var w := PhotoWarnings(h, root, paths);
      var missing := V.FilterFiles(h, V.ResolvedPaths(h, root, paths), false);
      |w| == |missing| && forall i :: 0 <= i < |w| ==> w[i] == PhotoPathInvalid(missing[i])
    decreases |paths|
  {
    if paths != [] {
      var init := paths[..|paths| - 1];
      PhotoWarningsFiltered(h, root, init);
      assert V.ResolvedPaths(h, root, paths)[..|paths| - 1] == V.ResolvedPaths(h, root, init);
    }
  }

  function CoordinateWarnings(lat: Option<Coord>, lon: Option<Coord>): seq<Warning> {
    if lat.Some? && lon.Some? && !CoordinatesValid(lat, lon) then [CoordinatesInvalid(lat.value, lon.value)] else []
  }

  /** A warning for a non-empty zone name the host does not know. */
  function TimezoneWarnings(h: Host, name: string): seq<Warning> {
    if name != "" && !h.zoneKnown(name) then [TimezoneInvalid(name)] else []
  }

  /** A warning for a journal time the host cannot format. */
  function TimestampWarnings(h: Host, millis: Option<int>): seq<Warning> {
    if millis.Some? && h.formatMillis(millis.value).None? then [TimestampInvalid(millis.value)] else []
  }

  /** Everything `build_dayone_args` warns about. */
  function ArgsWarnings(h: Host, root: string, e: JourneyEntry): seq<Warning> {
    TimezoneWarnings(h, e.timezone)
      + TimestampWarnings(h, e.dateJournal)
      + CoordinateWarnings(e.lat, e.lon)
      + PhotoWarnings(h, root, e.photos)
  }

  /** The fixed head with the zone before the date, the coordinate group
      exactly when the coordinates are valid, the tag and photo groups, and
      the fixed tail. */
  lemma LegacyArgsLayout(h: Host, root: string, journal: string, e: JourneyEntry)
    ensures var a := LegacyArgs(h, root, journal, e);
      var zone := V.ResolveTimezone(h, e.timezone);
      var c := if CoordinatesValid(e.lat, e.lon) then 3 else 0;
      var t := if |e.tags| > 0 then 1 + |e.tags| else 0;
      var found := V.ExistingAttachments(h, root, e.photos);
      && |a| >= 9
      && a[..7] == ["dayone2", "-j", journal, "-z", zone, "-d", V.ResolveTimestamp(h, e.dateJournal, zone)]
      && a[|a| - 2..] == ["--", "new"]
      && (c == 3 ==> a[7..10] == ["--coordinate", h.floatToString(e.lat.value.value), h.floatToString(e.lon.value.value)])
      && (|e.tags| > 0 ==> a[7 + c] == "-t" && a[8 + c..8 + c + |e.tags|] == EscapeTags(e.tags))
      && (|e.photos| > 0 ==> a[7 + c + t] == "-p" && a[8 + c + t..8 + c + t + |found|] == found)
      && |a| == 9 + c + t + (if |e.photos| > 0 then 1 + |found| else 0)
  {
    var zone := V.ResolveTimezone(h, e.timezone);
    var ts := V.ResolveTimestamp(h, e.dateJournal, zone);
    var co, tg, ph := CoordinateArgs(h, e.lat, e.lon), TagArgs(e.tags), PhotoArgs(h, root, e.photos);
    assert LegacyArgs(h, root, journal, e) == Assemble(journal, zone, ts, co, tg, ph);
    assert |co| == if CoordinatesValid(e.lat, e.lon) then 3 else 0;
    assert |tg| == if |e.tags| > 0 then 1 + |e.tags| else 0;
    assert |ph| == if |e.photos| > 0 then 1 + |V.ExistingAttachments(h, root, e.photos)| else 0;
    AssembleLayout(journal, zone, ts, co, tg, ph);
    assert |e.tags| > 0 ==> tg[1..] == EscapeTags(e.tags);
    assert |e.photos| > 0 ==> ph[1..] == V.ExistingAttachments(h, root, e.photos);
  }

  lemma AssembleLayout(journal: string, zone: string, timestamp: string, co: seq<string>, tg: seq<string>, ph: seq<string>)
    ensures var a := Assemble(journal, zone, timestamp, co, tg, ph);
      && |a| == 9 + |co| + |tg| + |ph|
      && a[..7] == ["dayone2", "-j", journal, "-z", zone, "-d", timestamp]
      && a[|a| - 2..] == ["--", "new"]
      && a[7..7 + |co|] == co
      && a[7 + |co|..7 + |co| + |tg|] == tg
      && a[7 + |co| + |tg|..7 + |co| + |tg| + |ph|] == ph
      && (tg != [] ==> a[7 + |co|] == tg[0] && a[8 + |co|..7 + |co| + |tg|] == tg[1..])
      && (ph != [] ==> a[7 + |co| + |tg|] == ph[0] && a[8 + |co| + |tg|..7 + |co| + |tg| + |ph|] == ph[1..])
  {
    GroupsAt(["dayone2", "-j", journal, "-z", zone, "-d", timestamp], co, tg, ph, ["--", "new"]);
    var a := Assemble(journal, zone, timestamp, co, tg, ph);
    var c, t := |co|, |tg|;
    if tg != [] {
      assert a[7 + c] == a[7 + c..7 + c + t][0];
      assert a[8 + c..7 + c + t] == a[7 + c..7 + c + t][1..];
    }
    if ph != [] {
      assert a[7 + c + t] == a[7 + c + t..7 + c + t + |ph|][0];
      assert a[8 + c + t..7 + c + t + |ph|] == a[7 + c + t..7 + c + t + |ph|][1..];
    }
  }

  /** The eighth argument is "--coordinate" exactly when the coordinates
      are valid; otherwise it starts the tag group, the photo group or the
      tail. */
  lemma CoordinateFlagIffValid(h: Host, root: string, journal: string, e: JourneyEntry)
    ensures var a := LegacyArgs(h, root, journal, e);
      |a| > 7 && (a[7] == "--coordinate" <==> CoordinatesValid(e.lat, e.lon))
  {
    var zone := V.ResolveTimezone(h, e.timezone);
    EighthArgument(journal, zone, V.ResolveTimestamp(h, e.dateJournal, zone),
                   CoordinateArgs(h, e.lat, e.lon), TagArgs(e.tags), PhotoArgs(h, root, e.photos));
  }

  /** Whatever the groups hold, the eighth argument opens the first
      non-empty group, or the tail when all are empty. */
  lemma EighthArgument(journal: string, zone: string, timestamp: string, co: seq<string>, tg: seq<string>, ph: seq<string>)
    requires co == [] || co[0] == "--coordinate"
    requires tg == [] || tg[0] == "-t"
    requires ph == [] || ph[0] == "-p"
    ensures var a := Assemble(journal, zone, timestamp, co, tg, ph);
      |a| > 7 && (a[7] == "--coordinate" <==> co != [])
  {
    AssembleLayout(journal, zone, timestamp, co, tg, ph);
    var a := Assemble(journal, zone, timestamp, co, tg, ph);
    if co != [] {
      assert a[7] == a[7..7 + |co|][0];
    } else if tg != [] {
      assert a[7] == a[7..7 + |tg|][0];
    } else if ph != [] {
      assert a[7] == a[7..7 + |ph|][0];
    } else {
      assert a[7] == a[|a| - 2..][0];
    }
  }

  /** The "no location" value Journey writes is out of range here, so it
      draws a warning and no coordinates. */
  lemma SentinelIsInvalid(h: Host, root: string, e: JourneyEntry)
    requires e.lat == Some(Finite(MAX_FLOAT)) && e.lon == Some(Finite(MAX_FLOAT))
    ensures CoordinateArgs(h, e.lat, e.lon) == []
    ensures CoordinatesInvalid(Finite(MAX_FLOAT), Finite(MAX_FLOAT)) in ArgsWarnings(h, root, e)
  {
    var w := ArgsWarnings(h, root, e);
    var before := TimezoneWarnings(h, e.timezone) + TimestampWarnings(h, e.dateJournal);
    assert w == before + [CoordinatesInvalid(Finite(MAX_FLOAT), Finite(MAX_FLOAT))] + PhotoWarnings(h, root, e.photos);
    assert w[|before|] == CoordinatesInvalid(Finite(MAX_FLOAT), Finite(MAX_FLOAT));
  }

  /** An entry whose photos are all missing still gets "-p", followed
      directly by "--". */
  lemma AllPhotosMissing(h: Host, root: string, journal: string, e: JourneyEntry)
    requires |e.photos| > 0
    requires forall i :: 0 <= i < |e.photos| ==> !h.isFile(h.resolvePath(root, e.photos[i]))
    ensures var a := LegacyArgs(h, root, journal, e);
      a[|a| - 3..] == ["-p", "--", "new"]
  {
    NoneExisting(h, root, e.photos);
    var a := LegacyArgs(h, root, journal, e);
    var prefix := ["dayone2", "-j", journal, "-z", V.ResolveTimezone(h, e.timezone), "-d",
                   V.ResolveTimestamp(h, e.dateJournal, V.ResolveTimezone(h, e.timezone))]
                  + CoordinateArgs(h, e.lat, e.lon) + TagArgs(e.tags);
    assert a == prefix + ["-p", "--", "new"];
  }

  lemma {:induction false} NoneExisting(h: Host, root: string, paths: seq<string>)
    requires forall i :: 0 <= i < |paths| ==> !h.isFile(h.resolvePath(root, paths[i]))
    ensures V.ExistingAttachments(h, root, paths) == []
    decreases |paths|
  {
    if paths != [] {
      var init := paths[..|paths| - 1];
      assert forall i :: 0 <= i < |init| ==> init[i] == paths[i];
      NoneExisting(h, root, init);
    }
  }

  // ---------------------------------------------------------------------
  // One import
  // ---------------------------------------------------------------------

  /** What `import_one_entry` returns, `(id, err)`; Aborted when dayone2
      cannot be launched (the OSError ends the program). */
  datatype LegacyResult = Returned(id: string, err: string) | Aborted

  function LegacyResultOf(launch: Launch): (r: LegacyResult)
    ensures r.Aborted? <==> launch.LaunchFailed?
    ensures r.Returned? && launch.returncode == 0 ==> r.err == "" && r.id == ParseIdFromOutput(launch.stdout)
    ensures r.Returned? && launch.returncode != 0 ==> r.id == "" && r.err == launch.stderr
  {
    if launch.LaunchFailed? then Aborted
    else if launch.returncode == 0 then Returned(ParseIdFromOutput(launch.stdout), "")
    else Returned("", launch.stderr)
  }

  /** On exit status 0 the id is "" exactly when the output has no trailing
      hex token, and otherwise is made of `[A-F0-9]` only. */
  lemma LegacyIdIsTrailingToken(launch: Launch)
    requires launch.Launched? && launch.returncode == 0
    ensures var r := LegacyResultOf(launch);
      && r.err == ""
      && (r.id == "" <==> forall i :: !MatchesAt(launch.stdout, i))
      && forall k :: 0 <= k < |r.id| ==> IsUpperHex(r.id[k])
  {
    ParseIdIsLeftmostMatch(launch.stdout);
  }

  function LaunchOf(h: Host, tool: Tool, root: string, journal: string, e: JourneyEntry): Launch {
    tool(LegacyArgs(h, root, journal, e), e.text)
  }

  /** What `import_one_entry` returns for each entry, with `tool` standing
      for dayone2. The batch below is defined over any such map. */
  function ResultsOf(h: Host, tool: Tool, root: string, journal: string): JourneyEntry -> LegacyResult {
    e => LegacyResultOf(LaunchOf(h, tool, root, journal, e))
  }

  /** `results` gives, for every entry, what importing it with `tool`
      returns; `ResultsOf` is one such map. Stated entry by entry so that a
      proof about a batch need not look inside the command line. */
  ghost predicate Agrees(results: JourneyEntry -> LegacyResult, h: Host, tool: Tool, root: string, journal: string) {
    forall e {:trigger LaunchOf(h, tool, root, journal, e)} :: results(e) == LegacyResultOf(LaunchOf(h, tool, root, journal, e))
  }

  // ---------------------------------------------------------------------
  // The batch
  // ---------------------------------------------------------------------

  /** The statistics and retry list after some entries, and whether a
      launch failure ended the run. */
  datatype Tally = Tally(succeeded: nat, failed: nat, skipped: nat, retry: seq<string>, aborted: bool)

  /** What one entry does to the tally: nothing after a launch failure;
      a skip for empty text; otherwise a success when the error text is
      empty and a failure, remembered for retry, when it is not. */
  function Consume(results: JourneyEntry -> LegacyResult, t: Tally, e: JourneyEntry): Tally {
    if t.aborted then t
    else if |e.text| == 0 then t.(skipped := t.skipped + 1)
    else
      var r := results(e);
      if r.Aborted? then t.(aborted := true)
      else if r.err == "" then t.(succeeded := t.succeeded + 1)
      else t.(failed := t.failed + 1, retry := t.retry + [e.path])
  }

  function LegacyRun(results: JourneyEntry -> LegacyResult, entries: seq<JourneyEntry>): Tally {
    if entries == [] then Tally(0, 0, 0, [], false)
    else Consume(results, LegacyRun(results, entries[..|entries| - 1]), entries[|entries| - 1])
  }

  /** Before a launch failure, consuming an entry adds to the tally exactly
      what consuming it adds to an empty tally. */
  lemma ConsumeAdds(results: JourneyEntry -> LegacyResult, t: Tally, e: JourneyEntry)
    requires !t.aborted
    ensures var d := Consume(results, Tally(0, 0, 0, [], false), e);
      Consume(results, t, e)
        == Tally(t.succeeded + d.succeeded, t.failed + d.failed, t.skipped + d.skipped, t.retry + d.retry, d.aborted)
  {
  }

  /** The run over one more entry, before a launch failure, is the run so
      far plus what that entry adds to an empty tally. */
  lemma RunStep(results: JourneyEntry -> LegacyResult, entries: seq<JourneyEntry>, i: nat)
    requires i < |entries| && !LegacyRun(results, entries[..i]).aborted
    ensures var t := LegacyRun(results, entries[..i]);
      var d := Consume(results, Tally(0, 0, 0, [], false), entries[i]);
      LegacyRun(results, entries[..i + 1])
        == Tally(t.succeeded + d.succeeded, t.failed + d.failed, t.skipped + d.skipped, t.retry + d.retry, d.aborted)
  {
    assert entries[..i + 1][..i] == entries[..i];
    ConsumeAdds(results, LegacyRun(results, entries[..i]), entries[i]);
  }

  /** Each consumed entry moves exactly one counter; all entries are
      consumed unless a launch failure stopped the run; the retry list has
      one path per failure. */
  lemma {:induction false} LegacyRunAccounts(results: JourneyEntry -> LegacyResult, entries: seq<JourneyEntry>)
    ensures var t := LegacyRun(results, entries);
      && |t.retry| == t.failed
      && (!t.aborted ==> t.succeeded + t.failed + t.skipped == |entries|)
      && (t.aborted ==> t.succeeded + t.failed + t.skipped < |entries|)
    decreases |entries|
  {
    if entries != [] {
      LegacyRunAccounts(results, entries[..|entries| - 1]);
    }
  }

  /** Once a launch has failed, later entries change nothing. */
  lemma {:induction false} LegacyRunStays(results: JourneyEntry -> LegacyResult, entries: seq<JourneyEntry>, k: nat)
    requires k <= |entries| && LegacyRun(results, entries[..k]).aborted
    ensures LegacyRun(results, entries) == LegacyRun(results, entries[..k])
    decreases |entries| - k
  {
    if k < |entries| {
      assert entries[..k + 1][..k] == entries[..k];
      LegacyRunStays(results, entries, k + 1);
    } else {
      assert entries[..k] == entries;
    }
  }

  /** Whether an entry with text counts as a failure: it was launched and
      the error text is not empty. */
  predicate Rejected(results: JourneyEntry -> LegacyResult, e: JourneyEntry) {
    |e.text| > 0 && results(e).Returned? && results(e).err != ""
  }

  /** The paths of entries with text that dayone2 rejects, in order (a
      reference definition). */
  function RejectedPaths(results: JourneyEntry -> LegacyResult, entries: seq<JourneyEntry>): seq<string> {
    if entries == [] then []
    else
      var first := if Rejected(results, entries[0]) then [entries[0].path] else [];
      first + RejectedPaths(results, entries[1..])
  }

  lemma {:induction false} RejectedPathsAppend(results: JourneyEntry -> LegacyResult, s: seq<JourneyEntry>, e: JourneyEntry)
    ensures RejectedPaths(results, s + [e])
         == RejectedPaths(results, s) + (if Rejected(results, e) then [e.path] else [])
    decreases |s|
  {
    if s != [] {
      assert (s + [e])[1..] == s[1..] + [e];
      RejectedPathsAppend(results, s[1..], e);
      var first := if Rejected(results, s[0]) then [s[0].path] else [];
      AppendAssociative(first, RejectedPaths(results, s[1..]), if Rejected(results, e) then [e.path] else []);
    } else {
      assert s + [e] == [e];
    }
  }

  /** When every entry with text can be launched, the run is not aborted
      and the retry list is exactly the paths of the rejected entries, in
      order. */
  lemma {:induction false} RetryListIsRejectedPaths(results: JourneyEntry -> LegacyResult, entries: seq<JourneyEntry>)
    requires forall i :: 0 <= i < |entries| && |entries[i].text| > 0 ==> !results(entries[i]).Aborted?
    ensures !LegacyRun(results, entries).aborted
    ensures LegacyRun(results, entries).retry == RejectedPaths(results, entries)
    decreases |entries|
  {
    if entries != [] {
      var init := entries[..|entries| - 1];
      var e := entries[|entries| - 1];
      assert forall i :: 0 <= i < |init| ==> init[i] == entries[i];
      RetryListIsRejectedPaths(results, init);
      RejectedPathsAppend(results, init, e);
      assert init + [e] == entries;
    }
  }

  /** An entry with empty text is skipped without consulting dayone2: the
      outcome is the same whatever dayone2 would have done with it. */
  lemma EmptyTextNeedsNoTool(results1: JourneyEntry -> LegacyResult, results2: JourneyEntry -> LegacyResult,
                             entries: seq<JourneyEntry>, e: JourneyEntry)
    requires |e.text| == 0
    requires LegacyRun(results1, entries) == LegacyRun(results2, entries)
    ensures LegacyRun(results1, entries + [e]) == LegacyRun(results2, entries + [e])
    ensures var t := LegacyRun(results1, entries);
      !t.aborted ==> LegacyRun(results1, entries + [e]) == t.(skipped := t.skipped + 1)
  {
    assert (entries + [e])[..|entries|] == entries;
  }

  /** A non-zero exit that wrote nothing to standard error counts as a
      success, because success is decided by the error text alone. */
  lemma SilentFailureCountsAsSuccess(h: Host, tool: Tool, root: string, journal: string,
                                     entries: seq<JourneyEntry>, e: JourneyEntry)
    requires |e.text| > 0
    requires LaunchOf(h, tool, root, journal, e) == Launched(1, "", "")
    ensures var t := LegacyRun(ResultsOf(h, tool, root, journal), entries);
      !t.aborted ==> LegacyRun(ResultsOf(h, tool, root, journal), entries + [e]) == t.(succeeded := t.succeeded + 1)
  {
    assert (entries + [e])[..|entries|] == entries;
  }

  // ---------------------------------------------------------------------
  // The objects
  // ---------------------------------------------------------------------

  /** `ImporterStatistics`: three counters updated in place. */
  class ImporterStatistics {
    var succeeded: int
    var failed: int
    var skipped: int

    constructor ()
      ensures succeeded == 0 && failed == 0 && skipped == 0
    {
      succeeded, failed, skipped := 0, 0, 0;
    }
  }

  class Importer {
    const srcDirectory: string
    const targetJournalName: string
    var retryList: seq<string>
    const stats: ImporterStatistics

    constructor (srcDirectory: string, targetJournalName: string)
      ensures this.srcDirectory == srcDirectory && this.targetJournalName == targetJournalName
      ensures retryList == [] && fresh(stats)
      ensures stats.succeeded == 0 && stats.failed == 0 && stats.skipped == 0
    {
      this.srcDirectory := srcDirectory;
      this.targetJournalName := targetJournalName;
      retryList := [];
      stats := new ImporterStatistics();
    }

    /** The photo loop of `build_dayone_args`: the resolved paths that are
        files, in order, and a warning for each other one. */
    method CollectPhotos(h: Host, photos: seq<string>) returns (validPaths: seq<string>, warnings: seq<Warning>)
      ensures validPaths == V.ExistingAttachments(h, srcDirectory, photos)
      ensures warnings == PhotoWarnings(h, srcDirectory, photos)
    {
      validPaths, warnings := [], [];
      for i := 0 to |photos|
        invariant validPaths == V.ExistingAttachments(h, srcDirectory, photos[..i])
        invariant warnings == PhotoWarnings(h, srcDirectory, photos[..i])
      {
        assert photos[..i + 1][..i] == photos[..i];
        var absPath := h.resolvePath(srcDirectory, photos[i]);
        if h.isFile(absPath) {
          validPaths := validPaths + [absPath];
        } else {
          warnings := warnings + [PhotoPathInvalid(absPath)];
        }
      }
      assert photos[..|photos|] == photos;
    }

    /** The time zone section of `build_dayone_args`. */
    method CheckTimezone(h: Host, entry: JourneyEntry) returns (timezone: string, warnings: seq<Warning>)
      ensures timezone == V.ResolveTimezone(h, entry.timezone)
      ensures warnings == TimezoneWarnings(h, entry.timezone)
    {
      timezone, warnings := "", [];
      if entry.timezone != "" {
        if h.zoneKnown(entry.timezone) {
          timezone := h.zoneName(entry.timezone);
        } else {
          warnings := warnings + [TimezoneInvalid(entry.timezone)];
        }
      }
      if timezone == "" {
        timezone := h.localZone;
      }
    }

    /** The timestamp section of `build_dayone_args`. */
    method CheckTimestamp(h: Host, entry: JourneyEntry, timezone: string) returns (timestamp: string, warnings: seq<Warning>)
      ensures timestamp == V.ResolveTimestamp(h, entry.dateJournal, timezone)
      ensures warnings == TimestampWarnings(h, entry.dateJournal)
    {
      timestamp, warnings := "", [];
      if entry.dateJournal.Some? {
        var formatted := h.formatMillis(entry.dateJournal.value);
        if formatted.Some? {
          timestamp := formatted.value;
        } else {
          warnings := warnings + [TimestampInvalid(entry.dateJournal.value)];
        }
      }
      if timestamp == "" {
        timestamp := h.formatNow(timezone);
      }
    }

    /** The coordinate section of `build_dayone_args`: the group it adds and
        the warning it prints. */
    method CheckCoordinates(h: Host, entry: JourneyEntry) returns (group: seq<string>, warnings: seq<Warning>)
      ensures group == CoordinateArgs(h, entry.lat, entry.lon)
      ensures warnings == CoordinateWarnings(entry.lat, entry.lon)
    {
      group, warnings := [], [];
      if entry.lat.Some? && entry.lon.Some? {
        var isLatValid := WithinBound(entry.lat.value, 90.0);
        var isLonValid := WithinBound(entry.lon.value, 180.0);
        if isLatValid && isLonValid {
          group := ["--coordinate", h.floatToString(entry.lat.value.value), h.floatToString(entry.lon.value.value)];
        } else {
          warnings := warnings + [CoordinatesInvalid(entry.lat.value, entry.lon.value)];
        }
      }
    }

    /** `build_dayone_args`: the command line and the warnings printed. */
    method BuildDayOneArgs(h: Host, entry: JourneyEntry) returns (args: seq<string>, warnings: seq<Warning>)
      ensures args == LegacyArgs(h, srcDirectory, targetJournalName, entry)
      ensures warnings == ArgsWarnings(h, srcDirectory, entry)
    {
      args := ["dayone2", "-j", targetJournalName];
      var timezone, zoneWarnings := CheckTimezone(h, entry);
      args := args + ["-z", timezone];
      var timestamp, timeWarnings := CheckTimestamp(h, entry, timezone);
      args := args + ["-d", timestamp];
      assert args == ["dayone2", "-j", targetJournalName, "-z", timezone, "-d", timestamp];
      var coordinates, coordinateWarnings := CheckCoordinates(h, entry);
      args := args + coordinates;
      warnings := zoneWarnings + timeWarnings + coordinateWarnings;

      var tagGroup := [];
      if |entry.tags| > 0 {
        var tagNames := EscapeTags(entry.tags);
        tagGroup := ["-t"] + tagNames;
      }
      args := args + tagGroup;

      var photoGroup := [];
      if |entry.photos| > 0 {
        var validPaths, photoWarnings := CollectPhotos(h, entry.photos);
        warnings := warnings + photoWarnings;
        photoGroup := ["-p"] + validPaths;
      } else {
        assert PhotoWarnings(h, srcDirectory, entry.photos) == [];
        assert warnings == warnings + [];
      }
      args := args + photoGroup;

      args := args + ["--", "new"];
      assert args == Assemble(targetJournalName, timezone, timestamp, coordinates, tagGroup, photoGroup);
    }

    /** `import_one_entry`: run dayone2 with the entry's text on standard
        input and turn its result into `(id, err)`. */
    method ImportOneEntry(h: Host, tool: Tool, entry: JourneyEntry) returns (result: LegacyResult)
      ensures result == LegacyResultOf(LaunchOf(h, tool, srcDirectory, targetJournalName, entry))
    {
      var args, _ := BuildDayOneArgs(h, entry);
      var p := tool(args, entry.text);
      if p.LaunchFailed? {
        result := Aborted;
      } else {
        var id, err := "", "";
        if p.returncode == 0 {
          id := ParseIdFromOutput(p.stdout);
        } else {
          err := p.stderr;
        }
        result := Returned(id, err);
      }
    }

    /** One pass of the loop of `import_entries`: skip an entry without
        text, otherwise import it and count the outcome; the path of a
        failed entry goes to the retry list. What changes is what the entry
        adds to an empty tally. */
    method ImportEntry(h: Host, tool: Tool, entry: JourneyEntry, ghost results: JourneyEntry -> LegacyResult)
      returns (aborted: bool)
      modifies this, stats
      requires Agrees(results, h, tool, srcDirectory, targetJournalName)
      ensures var d := Consume(results, Tally(0, 0, 0, [], false), entry);
        && aborted == d.aborted
        && stats.succeeded == old(stats.succeeded) + d.succeeded
        && stats.failed == old(stats.failed) + d.failed
        && stats.skipped == old(stats.skipped) + d.skipped
        && retryList == old(retryList) + d.retry
    {
      aborted := false;
      if |entry.text| == 0 {
        stats.skipped := stats.skipped + 1;
      } else {
        var result := ImportOneEntry(h, tool, entry);
        if result.Aborted? {
          aborted := true;
        } else if result.err == "" {
          stats.succeeded := stats.succeeded + 1;
        } else {
          stats.failed := stats.failed + 1;
          retryList := retryList + [entry.path];
        }
      }
    }

    /** `import_entries`: the entries in order until a launch failure. The
        counters and the retry list grow by the tally of the consumed
        entries; the retry list keeps one path per counted failure. */
    method ImportEntries(h: Host, tool: Tool, entries: seq<JourneyEntry>) returns (aborted: bool)
      modifies this, stats
      ensures var t := LegacyRun(ResultsOf(h, tool, srcDirectory, targetJournalName), entries);
        && aborted == t.aborted
        && stats.succeeded == old(stats.succeeded) + t.succeeded
        && stats.failed == old(stats.failed) + t.failed
        && stats.skipped == old(stats.skipped) + t.skipped
        && retryList == old(retryList) + t.retry
      ensures old(|retryList|) == old(stats.failed) ==> |retryList| == stats.failed
    {
      ghost var results := ResultsOf(h, tool, srcDirectory, targetJournalName);
      assert Agrees(results, h, tool, srcDirectory, targetJournalName);
      aborted := ImportEach(h, tool, entries, results);
      LegacyRunAccounts(results, entries);
    }

    /** The loop of `import_entries`, proved against any result map that
        agrees with importing each entry. */
    method ImportEach(h: Host, tool: Tool, entries: seq<JourneyEntry>, ghost results: JourneyEntry -> LegacyResult)
      returns (aborted: bool)
      modifies this, stats
      requires Agrees(results, h, tool, srcDirectory, targetJournalName)
      ensures var t := LegacyRun(results, entries);
        && aborted == t.aborted
        && stats.succeeded == old(stats.succeeded) + t.succeeded
        && stats.failed == old(stats.failed) + t.failed
        && stats.skipped == old(stats.skipped) + t.skipped
        && retryList == old(retryList) + t.retry
    {
      aborted := false;
      var i := 0;
      ghost var t := Tally(0, 0, 0, [], false);
      while i < |entries| && !aborted
        invariant 0 <= i <= |entries|
        invariant t == LegacyRun(results, entries[..i])
        invariant aborted == t.aborted
        invariant stats.succeeded == old(stats.succeeded) + t.succeeded
        invariant stats.failed == old(stats.failed) + t.failed
        invariant stats.skipped == old(stats.skipped) + t.skipped
        invariant retryList == old(retryList) + t.retry
      {
        ghost var d := Consume(results, Tally(0, 0, 0, [], false), entries[i]);
        RunStep(results, entries, i);
        AppendAssociative(old(retryList), t.retry, d.retry);
        aborted := ImportEntry(h, tool, entries[i], results);
        t := Tally(t.succeeded + d.succeeded, t.failed + d.failed, t.skipped + d.skipped, t.retry + d.retry, d.aborted);
        i := i + 1;
      }
      if aborted {
        LegacyRunStays(results, entries, i);
      } else {
        assert entries[..i] == entries;
      }
    }

    /** `run`, from the loaded entries on: import them, then report
        "<succeeded> succeeded, <failed> failed, <skipped> skipped"; no
        report when a launch failure ended the run. */
    method Run(h: Host, tool: Tool, entries: seq<JourneyEntry>) returns (report: Option<(int, int, int)>)
      modifies this, stats
      ensures report.Some? ==> report.value == (stats.succeeded, stats.failed, stats.skipped)
      ensures report.Some? ==>
                report.value.0 + report.value.1 + report.value.2
                == old(stats.succeeded) + old(stats.failed) + old(stats.skipped) + |entries|
      ensures old(|retryList|) == old(stats.failed) ==> |retryList| == stats.failed
      ensures var t := LegacyRun(ResultsOf(h, tool, srcDirectory, targetJournalName), entries);
        && (report.None? <==> t.aborted)
        && stats.succeeded == old(stats.succeeded) + t.succeeded
        && stats.failed == old(stats.failed) + t.failed
        && stats.skipped == old(stats.skipped) + t.skipped
        && retryList == old(retryList) + t.retry
    {
      var aborted := ImportEntries(h, tool, entries);
      LegacyRunAccounts(ResultsOf(h, tool, srcDirectory, targetJournalName), entries);
      if aborted {
        report := None;
      } else {
        report := Some((stats.succeeded, stats.failed, stats.skipped));
      }
    }
  }
}
