/** The importer's pure string helpers: tag escaping, entry-id extraction
    from dayone2's output and the attachment-kind guess. */
module Strings {

  /** Python's `\s` on str: the ASCII whitespace characters (tab, line feed,
      vertical tab, form feed, carriage return, space), the separators
      U+001C..U+001F, and the Unicode spaces that `str.isspace()` accepts. */
  predicate IsSpace(c: char) {
    c == ' ' || ('\t' <= c <= '\r') || ('\U{1C}' <= c <= '\U{1F}')
    || c == '\U{85}' || c == '\U{A0}' || c == '\U{1680}'
    || ('\U{2000}' <= c <= '\U{200A}') || c == '\U{2028}' || c == '\U{2029}'
    || c == '\U{202F}' || c == '\U{205F}' || c == '\U{3000}'
  }

  /** The regex class `[A-F0-9]`. */
  predicate IsUpperHex(c: char) {
    ('0' <= c <= '9') || ('A' <= c <= 'F')
  }

  lemma HexIsNotSpace(c: char)
    requires IsUpperHex(c)
    ensures !IsSpace(c)
  {
  }

  predicate EndsWith(s: string, suffix: string) {
    |suffix| <= |s| && s[|s| - |suffix|..] == suffix
  }

  predicate StartsWith(s: string, prefix: string) {
    |prefix| <= |s| && s[..|prefix|] == prefix
  }

  /** `s.find(needle) != -1` */
  predicate Contains(s: string, needle: string)
    decreases |s|
  {
    StartsWith(s, needle) || (s != [] && Contains(s[1..], needle))
  }

  // ---------------------------------------------------------------------
  // Tag escaping: re.sub(r"\s+", r"\\\g<0>", raw)
  // ---------------------------------------------------------------------

  /** Number of maximal whitespace runs that start in `s`, when the character
      before `s` was whitespace exactly if `inRun`. */
  function RunStarts(s: string, inRun: bool): nat
  {
    if s == [] then 0
    else (if IsSpace(s[0]) && !inRun then 1 else 0) + RunStarts(s[1..], IsSpace(s[0]))
  }

  /** The substitution scanned left to right: a backslash goes in front of
      the first character of every maximal whitespace run, nowhere else. */
  function EscapeFrom(s: string, inRun: bool): (r: string)
    ensures |r| == |s| + RunStarts(s, inRun)
    ensures r != [] && !inRun ==> !IsSpace(r[0])
  {
    if s == [] then []
    else
      var head := if IsSpace(s[0]) && !inRun then ['\\', s[0]] else [s[0]];
      head + EscapeFrom(s[1..], IsSpace(s[0]))
  }

  /** `Importer.escape_tag` */
  function EscapeTag(raw: string): (tag: string)
    ensures |tag| == |raw| + RunStarts(raw, false)
  {
    EscapeFrom(raw, false)
  }

  /** Deletes the backslash in front of each whitespace run: the inverse of
      `EscapeFrom`. */
  function Unescape(t: string, inRun: bool): string
    decreases |t|
  {
    if t == [] then []
    else if |t| >= 2 && t[0] == '\\' && IsSpace(t[1]) && !inRun then [t[1]] + Unescape(t[2..], true)
    else [t[0]] + Unescape(t[1..], IsSpace(t[0]))
  }

  lemma {:induction false} UnescapeEscapeFrom(s: string, inRun: bool)
    ensures Unescape(EscapeFrom(s, inRun), inRun) == s
    decreases |s|
  {
    if s != [] {
      var rest := EscapeFrom(s[1..], IsSpace(s[0]));
      UnescapeEscapeFrom(s[1..], IsSpace(s[0]));
      if IsSpace(s[0]) && !inRun {
        assert EscapeFrom(s, inRun) == ['\\', s[0]] + rest;
        assert (['\\', s[0]] + rest)[2..] == rest;
      } else {
        assert EscapeFrom(s, inRun) == [s[0]] + rest;
        assert ([s[0]] + rest)[1..] == rest;
      }
    }
  }

  /** Removing the inserted backslashes gives back the raw tag. */
  lemma EscapeTagRoundTrip(raw: string)
    ensures Unescape(EscapeTag(raw), false) == raw
  {
    UnescapeEscapeFrom(raw, false);
  }

  lemma {:induction false} NoRunsWithoutSpace(s: string, inRun: bool)
    requires forall i :: 0 <= i < |s| ==> !IsSpace(s[i])
    ensures EscapeFrom(s, inRun) == s && RunStarts(s, inRun) == 0
    decreases |s|
  {
    if s != [] {
      NoRunsWithoutSpace(s[1..], false);
    }
  }

  /** A tag without whitespace is passed through unchanged. */
  lemma EscapeTagWithoutSpace(raw: string)
    requires forall i :: 0 <= i < |raw| ==> !IsSpace(raw[i])
    ensures EscapeTag(raw) == raw
  {
    NoRunsWithoutSpace(raw, false);
  }

  /** `list(map(escape_tag, tags))` */
  function EscapeTags(tags: seq<string>): (escaped: seq<string>)
    ensures |escaped| == |tags|
    ensures forall i :: 0 <= i < |tags| ==> escaped[i] == EscapeTag(tags[i])
    ensures forall i :: 0 <= i < |tags| ==> Unescape(escaped[i], false) == tags[i]
  {
    var escaped := seq(|tags|, i requires 0 <= i < |tags| => EscapeTag(tags[i]));
    assert forall i :: 0 <= i < |tags| ==> escaped[i] == EscapeTag(tags[i]);
    forall i | 0 <= i < |tags| ensures Unescape(escaped[i], false) == tags[i] {
      EscapeTagRoundTrip(tags[i]);
    }
    escaped
  }

  // ---------------------------------------------------------------------
  // Entry id: re.search(r"([A-F0-9]+)\s*$", output)
  // ---------------------------------------------------------------------

  predicate HexBetween(s: string, i: int, j: int)
    requires 0 <= i <= j <= |s|
  {
    forall k :: i <= k < j ==> IsUpperHex(s[k])
  }

  predicate SpaceFrom(s: string, j: int)
    requires 0 <= j <= |s|
  {
    forall k :: j <= k < |s| ==> IsSpace(s[k])
  }

  /** The regular expression, read literally: a non-empty run of `[A-F0-9]`
      starting at `i`, then only whitespace up to the end of the output. */
  ghost predicate MatchesAt(s: string, i: int) {
    0 <= i < |s| && exists j :: i < j <= |s| && HexBetween(s, i, j) && SpaceFrom(s, j)
  }

  /** Index just past the last non-whitespace character of `s[..k]`, given
      that `s[k..]` is all whitespace. */
  function TrimEnd(s: string, k: nat): (e: nat)
    requires k <= |s| && SpaceFrom(s, k)
    ensures e <= k && SpaceFrom(s, e) && (e == 0 || !IsSpace(s[e - 1]))
  {
    if k == 0 || !IsSpace(s[k - 1]) then k else TrimEnd(s, k - 1)
  }

  /** Start of the maximal `[A-F0-9]` run that ends at `e`. */
  function HexRunStart(s: string, e: nat): (b: nat)
    requires e <= |s|
    ensures b <= e && HexBetween(s, b, e) && (b == 0 || !IsUpperHex(s[b - 1]))
  {
    if e == 0 || !IsUpperHex(s[e - 1]) then e else HexRunStart(s, e - 1)
  }

  /** `Importer.parse_id_from_output`: the group of the match, or "". */
  function ParseIdFromOutput(output: string): (id: string)
    ensures forall k :: 0 <= k < |id| ==> IsUpperHex(id[k])
  {
    var e := TrimEnd(output, |output|);
    var b := HexRunStart(output, e);
    output[b..e]
  }

  /** The id the function returns is the group of the leftmost match: the
      match starts at `b`, nothing to the left of `b` matches, and the group
      can only end at `e`. */
  lemma ParseIdIsLeftmostMatch(s: string)
    ensures var e := TrimEnd(s, |s|); var b := HexRunStart(s, e);
      && (b < e <==> MatchesAt(s, b))
      && (forall i :: 0 <= i < b ==> !MatchesAt(s, i))
      && (b == e ==> forall i :: !MatchesAt(s, i))
      && (forall i, j :: 0 <= i < j <= |s| && HexBetween(s, i, j) && SpaceFrom(s, j) ==> b <= i && j == e)
      && ParseIdFromOutput(s) == s[b..e]
      && (ParseIdFromOutput(s) == "" <==> forall i :: !MatchesAt(s, i))
  {
    var e := TrimEnd(s, |s|);
    var b := HexRunStart(s, e);
    forall i, j | 0 <= i < j <= |s| && HexBetween(s, i, j) && SpaceFrom(s, j)
      ensures b <= i && j == e
    {
      HexIsNotSpace(s[j - 1]);
    }
    if b < e {
      assert HexBetween(s, b, e) && SpaceFrom(s, e);
      assert MatchesAt(s, b);
    }
    forall i | MatchesAt(s, i) ensures b <= i && b < e {
      var j :| i < j <= |s| && HexBetween(s, i, j) && SpaceFrom(s, j);
      assert b <= i && j == e;
    }
  }

  /** An output that ends with a hex token (after a non-hex character) and
      whitespace yields exactly that token. */
  lemma ParseIdOfTrailingToken(prefix: string, token: string, trailing: string)
    requires token != [] && forall k :: 0 <= k < |token| ==> IsUpperHex(token[k])
    requires forall k :: 0 <= k < |trailing| ==> IsSpace(trailing[k])
    requires prefix == [] || !IsUpperHex(prefix[|prefix| - 1])
    ensures ParseIdFromOutput(prefix + token + trailing) == token
  {
    var s := prefix + token + trailing;
    var m := |prefix| + |token|;
    assert HexBetween(s, |prefix|, m);
    assert SpaceFrom(s, m);
    ParseIdIsLeftmostMatch(s);
    assert s[|prefix|..m] == token;
  }

  /** The example from the source comment: dayone2 reports
      "Created new entry with uuid: " followed by the new id. */
  lemma ParseIdExample(prefix: string, token: string)
    requires prefix == "Created new entry with uuid: "
    requires token == "CB17A357BED34F6D838410CA96C7D9D1"
    ensures ParseIdFromOutput(prefix + token) == token
  {
    assert forall k :: 0 <= k < |token| ==> IsUpperHex(token[k]);
    assert prefix + token + "" == prefix + token;
    ParseIdOfTrailingToken(prefix, token, "");
  }

  /** Output whose last non-whitespace character is not `[A-F0-9]` yields "". */
  lemma ParseIdWithoutTrailingToken(s: string, k: nat)
    requires k < |s| && !IsUpperHex(s[k]) && !IsSpace(s[k]) && SpaceFrom(s, k + 1)
    ensures ParseIdFromOutput(s) == ""
  {
    ParseIdIsLeftmostMatch(s);
  }

  // ---------------------------------------------------------------------
  // Attachment kind
  // ---------------------------------------------------------------------

  /** `Importer.determine_attachment_type`: a guess from the path's suffix. */
  function DetermineAttachmentType(path: string): (kind: string)
    ensures kind == "photo" || kind == "video" || kind == "audio"
    ensures kind == "video" <==> EndsWith(path, "mp4")
    ensures kind == "audio" <==> EndsWith(path, "mp3") && !EndsWith(path, "mp4")
    ensures kind == "photo" <==> !EndsWith(path, "mp4") && !EndsWith(path, "mp3")
  {
    if EndsWith(path, "mp4") then "video"
    else if EndsWith(path, "mp3") then "audio"
    else "photo"
  }
}
