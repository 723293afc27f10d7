# JourneyToDayOne importer, modelled in Dafny

JourneyToDayOne moves a Journey journal into Day One. Journey exports one
JSON file per entry. The importer turns each file into a `JourneyEntry` and
checks and normalises it:

- it resolves the time zone and the timestamp;
- it drops attachments that are missing on disk;
- it escapes whitespace in tags;
- it drops invalid coordinates;
- it converts HTML text to Markdown;
- it skips entries that have nothing to import or that Day One itself exported earlier.

Each remaining entry goes to the `dayone2` command-line tool. The importer
parses the new entry's id from the tool's output and reports how many
entries succeeded, failed and were skipped.

The repository has two versions of the importer, and both are modelled:

- `src/j2d/j2d.py` is the current one. Validation and import are separate
  phases, and the counts are kept in an `ImportManyResult`.
- `j2d.py` is the older single-file version. It builds the command line and
  validates in one function, and keeps its counts in `ImporterStatistics`.

The model is split into these modules:

- `Platform` (platform.dfy): the outside world, as parameters.
  - A `Host` value holds the libraries the importer calls: pytz, tzlocal,
    `datetime` formatting, BeautifulSoup/markdownify, `os.path`, `str(float)`.
  - A `Tool` is the `dayone2` subprocess, a function from the argument list
    and the standard input to a `Launch`. A `Launch` is either a finished
    process or an `OSError` when starting it.
  - Coordinates are `Coord`: a finite real, or NaN or an infinity.
    `MAX_FLOAT` is the exact value of `sys.float_info.max`.
- `Strings` (strings.dfy):
  - tag escaping, with its inverse `Unescape`;
  - the id parser, with a declarative reference `MatchesAt` for the
    pattern `([A-F0-9]+)\s*$`;
  - the attachment kind.
- `Entries` (entries.dfy): the two record types, and how a JSON body becomes
  a `JourneyEntry`. The round trip goes through `EntryToBody`.
- `Validation` (validation.dfy): what `validate_journey_entry` computes, as
  functions.
  - `Validate` gives one entry's outcome: the validated entry or nothing,
    the diagnostics logged, and the paths recorded for missing attachments.
  - `ValidateAll` folds `Validate` over a batch.
- `J2d` (importer.dfy): the current importer.
  - The batch import is specified by `ImportAll` over a per-entry result
    map; `ResultsOf` supplies the concrete map (build the arguments, launch
    the tool, read its result).
  - The class `J2d.Importer` holds the `ImportManyResult` fields and the
    methods, which update them step by step. Each method is proved against
    the functions above.
- `LegacyJ2d` (legacy.dfy): the older importer.
  - `LegacyArgs` builds its command line, and `LegacyRun` tallies a batch.
  - The classes `ImporterStatistics` and `Importer` hold its mutable
    counters and retry list.

Tag escaping substitutes `\s+` with a backslash followed by the match
(src/j2d/j2d.py:246, j2d.py:146), so each run of whitespace gets one
backslash in front of it; `EscapeTag` does that.

## Model

| member | source | states |
|---|---|---|
| Strings.EscapeTag | src/j2d/j2d.py:244-247 | The escaped tag is longer than the raw tag by exactly the number of maximal whitespace runs: one backslash per run. |
| Strings.EscapeTagRoundTrip | src/j2d/j2d.py:244-247 | Deleting the backslash in front of each whitespace run gives back the raw tag, so escaping loses nothing. |
| Strings.EscapeTagWithoutSpace | src/j2d/j2d.py:244-247 | A tag without whitespace is passed through unchanged. |
| Strings.EscapeTags | src/j2d/j2d.py:179-182 | The escaped list has one tag per raw tag, in order: element i is `EscapeTag` of raw tag i, and it unescapes back to that raw tag. |
| Strings.ParseIdFromOutput | src/j2d/j2d.py:324-332 | The parsed id consists only of the characters 0-9 and A-F. |
| Strings.ParseIdIsLeftmostMatch | src/j2d/j2d.py:324-332 | The id is group 1 of the leftmost match of `([A-F0-9]+)\s*$`. Every match ends at the last non-whitespace character. The id is empty exactly when the pattern matches nowhere. |
| Strings.ParseIdOfTrailingToken | src/j2d/j2d.py:324-332 | Output ending in a hex token and optional whitespace, after a non-hex character, yields exactly that token. |
| Strings.ParseIdExample | src/j2d/j2d.py:326-330 | The example line "Created new entry with uuid: CB17A357BED34F6D838410CA96C7D9D1" yields the uuid. |
| Strings.ParseIdWithoutTrailingToken | src/j2d/j2d.py:331-332 | Output whose last non-whitespace character is not a hex digit yields "". |
| Strings.DetermineAttachmentType | src/j2d/j2d.py:112-128 | The kind is "video" iff the path ends in "mp4", "audio" iff it ends in "mp3" but not "mp4", and "photo" otherwise. |
| Entries.ExtractEntryFromBody | src/j2d/j2d.py:96-110 | Extraction fails with a missing key iff a key is missing, and names the first missing key in the keyword order. On success every field is the body's value under its key and the path is the file's. The legacy importer (j2d.py:77-80) uses the same key order and shares this function. |
| Entries.ExtractEntryToBody | src/j2d/j2d.py:96-110 | Extracting from the body written out from an entry gives back that entry. |
| Entries.MissingTextReported | src/j2d/j2d.py:98-101 | A body with "id" and "date_journal" but no "text" fails with the missing key "text". |
| Validation.ResolveTimezone | src/j2d/j2d.py:143-150 | A recognised zone keeps its canonical name. An empty or unknown zone falls back to the local zone, so the zone is never empty when the local zone has a name. |
| Validation.TimezoneDiagnostics | src/j2d/j2d.py:143-150 | A warning is logged iff the zone is non-empty and unknown, and it carries the raw zone. |
| Validation.ResolveTimestamp | src/j2d/j2d.py:152-162 | A formattable journal time is used as it is. A missing or unformattable time falls back to "now" in the resolved zone. |
| Validation.TimestampDiagnostics | src/j2d/j2d.py:152-162 | A warning is logged iff a journal time is present but cannot be formatted. |
| Validation.ValidateCoordinates | src/j2d/j2d.py:184-211 | Both coordinates are kept, or neither. They are kept iff both are present, finite, within ±90/±180 and not `sys.float_info.max`, and then they are the raw values. |
| Validation.ExistingAttachments | src/j2d/j2d.py:164-177 | Only resolved paths that are files are kept, and there are no more of them than raw paths. `AttachmentsFiltered` states that every such path is kept, in order. |
| Validation.MissingAttachments | src/j2d/j2d.py:164-177 | Every warning is a missing-attachment warning for a resolved path that is not a file. `AttachmentsFiltered` states that every such path is reported, in order. |
| Validation.AttachmentsPartitioned | src/j2d/j2d.py:164-177 | Kept attachments are a subsequence of the resolved paths, in order. Every resolved path that is a file is kept, and every other one is reported missing. Kept plus missing equals the number of raw paths. |
| Validation.AttachmentsFiltered | src/j2d/j2d.py:164-177 | The kept attachments are exactly the resolved paths that are files, in order. The paths named by the missing warnings are exactly the other resolved paths, in order. |
| Validation.AllAttachmentsKept | src/j2d/j2d.py:164-177 | When every resolved path is a file, all are kept in order and nothing is reported missing. |
| Validation.ConvertHtmlToMarkdown | src/j2d/j2d.py:249-256 | Text without an HTML element is returned unchanged. |
| Validation.ValidateSound | src/j2d/j2d.py:138-242 | An entry is skipped iff its converted text is empty with no kept attachment, or contains "dayone-moment:". Its path is recorded once per missing attachment. A kept entry is well formed: coordinates both or neither and in range, text or attachments, no export marker. It carries the id, path, converted text, escaped tags, kept attachments and validated coordinates. Its zone is `ResolveTimezone` of the raw zone, and its timestamp is `ResolveTimestamp` of the journal time in that zone; both are non-empty whenever the host supplies a local zone and a "now". |
| Validation.PreviouslyExportedSkipped | src/j2d/j2d.py:222-226 | Text containing "dayone-moment:" makes the entry skipped, with a previously-exported warning. |
| Validation.AttachmentOnlyEntryKept | src/j2d/j2d.py:213-221 | An entry with empty text but a kept attachment is still imported, and a no-text warning is logged. |
| Validation.OutOfRangeCoordinatesDropped | src/j2d/j2d.py:184-211 | Latitude 100, longitude 50 are dropped with an invalid-coordinates warning, not the no-location note. |
| Validation.SentinelMeansNoLocation | src/j2d/j2d.py:200-205 | Both coordinates equal to `sys.float_info.max` mean "no location": dropped, with only the no-location note. |
| Validation.ValidateAllAccounts | src/j2d/j2d.py:130-136 | Every raw entry is either validated or skipped, and every validated entry is well formed. When the host has a local zone and always formats "now", every validated entry has a non-empty zone and timestamp. |
| Validation.SkippedAttachmentsCount | src/j2d/j2d.py:164-177 | The skipped-attachment list of a batch has one item per missing attachment of every entry. |
| J2d.ImportResultOf | src/j2d/j2d.py:292-309 | A launch failure aborts. Exit code 0 gives the id parsed from stdout and no error. Any other code gives stderr as the error and no id. |
| J2d.SuccessIsEmptyError | src/j2d/j2d.py:262-264 | An entry counts as imported iff the tool exited with 0 or wrote nothing to stderr. |
| J2d.DayOneArgsLayout | src/j2d/j2d.py:311-322 | The command line is dayone2 -j journal -d timestamp -z zone, then "-t" and the tags, "-p" and the attachments and "--coordinate lat lon", each only when present, then "-- new". Its length follows from those groups. |
| J2d.ZeroCoordinateDropped | src/j2d/j2d.py:319-320 | A latitude or longitude of 0.0 is falsy, so no coordinate group is passed. |
| J2d.ImportAllAccounts | src/j2d/j2d.py:258-290 | Imported plus failed equals attempted. Without an abort every entry is attempted. An abort happens at the first entry whose launch fails, and no earlier entry's launch failed. |
| J2d.AbortedRunStays | src/j2d/j2d.py:297-303 | Once a launch fails, later entries change nothing: the batch stops there. |
| J2d.ImportAllWithoutLaunchFailure | src/j2d/j2d.py:258-290 | When no launch fails, the imported entries are exactly those that succeeded, and the failed paths are exactly those of the others, both in order. All entries are attempted. |
| J2d.OneOfThreeFails | src/j2d/j2d.py:258-290 | With three entries where only the middle one exits non-zero with an error, the first and third are imported and the middle one's path is the only failure. |
| J2d.BatchAccounting | src/j2d/j2d.py:72-77 | Over a whole run, no more entries are attempted than were validated. Without an abort, imported + failed + skipped equals the number of raw entries. |
| J2d.Importer.constructor | src/j2d/j2d.py:67-70 | Records the source directory and journal name, with empty accounting. |
| J2d.Importer.ResetData | src/j2d/j2d.py:73 | Starts a run with empty path lists and zero counts. |
| J2d.Importer.CollectAttachments | src/j2d/j2d.py:164-177 | Returns the kept attachments and the missing-attachment warnings, appends the entry's path once per missing one, and leaves the other fields unchanged. |
| J2d.Importer.CheckTimezone | src/j2d/j2d.py:143-150 | Computes `ResolveTimezone` and its diagnostics. |
| J2d.Importer.CheckTimestamp | src/j2d/j2d.py:152-162 | Computes `ResolveTimestamp` and its diagnostics. |
| J2d.Importer.CheckCoordinates | src/j2d/j2d.py:184-211 | Computes `ValidateCoordinates` and the matching warning or no-location note. |
| J2d.Importer.CheckText | src/j2d/j2d.py:213-226 | Decides the skip rule and logs the no-text, nothing-to-import and previously-exported warnings in source order. |
| J2d.Importer.ValidateJourneyEntry | src/j2d/j2d.py:138-242 | Returns `Validate`'s entry and diagnostics. Appends the missing-attachment paths, and the entry's path when skipped. Changes nothing else. |
| J2d.Importer.ValidateJourneyEntries | src/j2d/j2d.py:130-136 | The valid entries, diagnostics and skipped lists grow exactly as `ValidateAll` says, in source order. |
| J2d.Importer.BuildDayOneArgs | src/j2d/j2d.py:311-322 | Builds exactly the command line that `DayOneArgsLayout` describes. |
| J2d.Importer.ImportOneEntry | src/j2d/j2d.py:292-309 | Returns `ImportResultOf` of launching the tool with the built arguments and the entry's text as input. |
| J2d.Importer.ImportJourneyEntries | src/j2d/j2d.py:258-290 | Sets the total to the number of entries. Returns the imported entries, and grows the attempted count and failed paths, exactly as `ImportAll` says. Leaves the skipped lists alone. |
| J2d.Importer.PrintResult | src/j2d/j2d.py:341-360 | Reports succeeded, failed and skipped as the lengths of the imported list and the recorded lists. Warns about missing attachments iff any were recorded. |
| J2d.Importer.Run | src/j2d/j2d.py:72-77 | After a run the accounting equals validation followed by `ImportAll`, and there is a report iff no launch failed. The report holds the skipped-attachment, skipped-entry and failed-entry lists, the counts of imported, failed and skipped entries, and the missing-attachments notice exactly when an attachment was skipped. attempted ≤ total, and the reported counts add up to the number of raw entries. |
| LegacyJ2d.PhotoWarnings | j2d.py:149-157 | Every warning names a resolved photo path that is not a file, and warnings plus kept photos equal the photos given. `PhotoWarningsFiltered` states that every such path is warned about, in order. |
| LegacyJ2d.PhotoWarningsFiltered | j2d.py:149-157 | The warnings are exactly one `PhotoPathInvalid` per resolved photo path that is not a file, in the order of the photos. |
| LegacyJ2d.LegacyArgsLayout | j2d.py:111-161 | The command line is dayone2 -j journal -z zone -d timestamp, then "--coordinate lat lon" when valid, "-t" and the escaped tags when any, "-p" and the existing photos when any were listed, then "-- new". Its length follows from those groups. |
| LegacyJ2d.CoordinateFlagIffValid | j2d.py:137-143 | The eighth argument is "--coordinate" iff both coordinates are present, finite and within ±90/±180. |
| LegacyJ2d.SentinelIsInvalid | j2d.py:137-143 | The older importer has no "no location" case: `sys.float_info.max` coordinates get no coordinate group and an invalid-coordinates warning. |
| LegacyJ2d.AllPhotosMissing | j2d.py:149-157 | When photos are listed but none exists, a bare "-p" still comes right before "-- new". |
| LegacyJ2d.LegacyResultOf | j2d.py:96-109 | A launch failure aborts. Exit code 0 gives the parsed id and an empty error. Any other code gives an empty id and stderr as the error. |
| LegacyJ2d.LegacyIdIsTrailingToken | j2d.py:102-106 | On exit code 0 the error is empty. The id is hex only, and empty exactly when the output does not end in a hex token. |
| LegacyJ2d.ConsumeAdds | j2d.py:83-94 | Before an abort, one entry adds to the counters and the retry list exactly what it adds to a fresh tally. |
| LegacyJ2d.LegacyRunAccounts | j2d.py:82-94 | The retry list has one path per failure. Without an abort, succeeded + failed + skipped equals the number of entries; with one it is smaller. |
| LegacyJ2d.LegacyRunStays | j2d.py:96-101 | Once a launch fails, later entries change nothing: the exception ends the loop. |
| LegacyJ2d.RetryListIsRejectedPaths | j2d.py:87-93 | When no launch fails, the retry list is, in order, the paths of the non-empty entries the tool rejected with a non-empty error. |
| LegacyJ2d.EmptyTextNeedsNoTool | j2d.py:84-86 | An entry with empty text is counted as skipped whatever the tool would do. |
| LegacyJ2d.SilentFailureCountsAsSuccess | j2d.py:87-89 | A non-zero exit with empty stderr counts as succeeded, because only the error string is checked. |
| LegacyJ2d.ImporterStatistics.constructor | j2d.py:31-35 | All three counters start at zero. |
| LegacyJ2d.Importer.constructor | j2d.py:50-54 | Records the directory and journal name, an empty retry list and fresh zeroed statistics. |
| LegacyJ2d.Importer.CollectPhotos | j2d.py:149-157 | Returns the existing resolved photo paths and one warning per missing one. |
| LegacyJ2d.Importer.CheckTimezone | j2d.py:114-122 | Returns the resolved zone. Warns iff the raw zone is non-empty and unknown (`TimezoneWarnings`, the same warning `ArgsWarnings` collects). |
| LegacyJ2d.Importer.CheckTimestamp | j2d.py:124-135 | Returns the resolved timestamp. Warns iff a journal time is present but cannot be formatted (`TimestampWarnings`, the same warning `ArgsWarnings` collects). |
| LegacyJ2d.Importer.CheckCoordinates | j2d.py:137-143 | Returns the coordinate group when both are valid. Warns iff both are present and not valid. |
| LegacyJ2d.Importer.BuildDayOneArgs | j2d.py:111-161 | Returns exactly `LegacyArgs` (see `LegacyArgsLayout`) and the warnings in source order: zone, timestamp, coordinates, photos. |
| LegacyJ2d.Importer.ImportOneEntry | j2d.py:96-109 | Returns `LegacyResultOf` of launching the tool with the built arguments and the entry's text. |
| LegacyJ2d.Importer.ImportEntry | j2d.py:83-94 | One loop iteration, against any result map that agrees with launching the tool: skipped +1 for empty text, succeeded +1 for an empty error, failed +1 plus the path on the retry list otherwise, and an abort on a launch failure. |
| LegacyJ2d.Importer.ImportEach | j2d.py:82-94 | The loop over the entries: the counters and retry list grow by exactly `LegacyRun` over a result map that agrees with launching the tool. |
| LegacyJ2d.Importer.ImportEntries | j2d.py:82-94 | The counters and retry list grow by exactly `LegacyRun` of the entries. The retry list keeps one path per failure. |
| LegacyJ2d.Importer.Run | j2d.py:56-59 | The printed counts are the statistics. Each counter grows by exactly the tally `LegacyRun` gives for its kind, the retry list is extended by the tally's failed paths in order, and together the counters grow by the number of entries. The retry list keeps one path per failure. There is no report iff a launch failed. |

## Left out

- Finding and reading the export files (`load_journey_entries`, `iter_journey_files`, `load_entry`, and `json.loads`): the model starts from the parsed JSON body or the loaded entries.
- Malformed JSON values: Python would build an entry of any shape. `ExtractEntryFromBody` also rejects a value of the wrong type (`WrongType`), which the source does not check.
- Log and print text, log levels, and the word, tag and attachment counts in the "Entry added" line: diagnostics and warnings keep only their kind, subject and order, and `print(args)` in the older importer is not modelled.
- `print_paths` and the `print_stats` text: `PrintResult` and `LegacyJ2d.Importer.Run` return the counts and lists they would print.
- pytz, tzlocal, `datetime`, markdownify/BeautifulSoup, `os.path` and `str(float)` are opaque functions of the `Host` parameter. The division of `date_journal` by 1000 and the 12-hour format are inside `formatMillis`.
- Validation.ResolveTimezone: an unknown local zone, or a zone that pytz rejects in the "now" fallback, raises in the source. The model instead returns whatever the host gives.
- `Importer.__init__` sets `self.data = None` (src/j2d/j2d.py:70), so calling a validation or import method before `run` raises `AttributeError` in the source. The model's constructor starts with empty lists and zero counts instead, and every method can be called.
- The clock: `Host.formatNow` depends only on the zone, so every "now" fallback in one run is the same instant. The source reads the clock again for each entry (src/j2d/j2d.py:161-162, j2d.py:133-134).
- The `dayone2` subprocess is a deterministic `Tool`: the same arguments and input give the same `Launch`.
- Laziness of the generators: `print_result` forces the import generator, which forces validation with `list()`. So all entries are validated before any is imported, and the model computes the phases in that order.
- Float semantics: coordinates are exact reals plus one non-finite case, and comparisons against 90, 180 and `sys.float_info.max` are exact.
- `report_missing_attachments`: it is never called, and it only writes a file.
- `ImportOneResult`: it is declared but never used.
- `parse_args`, `__main__.py` and `__init__.py`: command-line handling and packaging.
- An `OSError` from starting the tool ends the program. The model stops the batch and returns no report; the exception itself is not modelled.
