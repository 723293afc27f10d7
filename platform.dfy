/** What the importer borrows from the machine it runs on: time zone lookup,
    the clock and date formatting, HTML conversion, the file system, float
    printing and the dayone2 subprocess. Each capability is a field of `Host`
    (or the `Tool` arrow), so the model states everything relative to an
    arbitrary, fixed host. */
module Platform {

  datatype Option<+T> = None | Some(value: T)

  /** A Python float as read from an export file: a finite value, or one of
      inf, -inf and nan (for which `math.isfinite` is false and every
      comparison with a finite value is false). */
  datatype Coord = Finite(value: real) | NonFinite

  /** `sys.float_info.max`, written out exactly: the largest finite double,
      (2 - 2^-52) * 2^1023. Journey writes it to both coordinates of an entry
      that has no location. */
  const MAX_FLOAT: real := 179769313486231570814527423731704356798070567525844996598917476803157260780028538760589558632766878171540458953514382464234321326889464182768467546703537516986049910576551282076245490090389328944075868508455133942304583236903222948165808559332123348274797826204144723168738177180919299881250404026184124858368.0

  datatype Host = Host(
    /** `pytz.timezone(name)` returns instead of raising UnknownTimeZoneError */
    zoneKnown: string -> bool,
    /** `pytz.timezone(name).zone`, the canonical name of a known zone */
    zoneName: string -> string,
    /** `tzlocal.get_localzone().zone` */
    localZone: string,
    /** `datetime.fromtimestamp(ms / 1000).strftime("%Y-%m-%d %I:%M:%S %p")`,
        formatted in the host's own zone; None when it raises OverflowError,
        ValueError or OSError */
    formatMillis: int -> Option<string>,
    /** `datetime.now(pytz.timezone(zone)).strftime(...)` at the moment of the call */
    formatNow: string -> string,
    /** BeautifulSoup finds at least one HTML element in the text */
    hasMarkup: string -> bool,
    /** `markdownify(text)` */
    markdownify: string -> string,
    /** `os.path.abspath(os.path.join(root, path))` */
    resolvePath: (string, string) -> string,
    /** `os.path.exists(p) and os.path.isfile(p)` */
    isFile: string -> bool,
    /** `str(x)` of a finite float */
    floatToString: real -> string
  )

  /** What `subprocess.run(args, input=text, ...)` produced: a finished
      process, or the OSError raised when dayone2 cannot be started. */
  datatype Launch = Launched(returncode: int, stdout: string, stderr: string) | LaunchFailed

  /** The dayone2 executable: command line and standard input to its result. */
  type Tool = (seq<string>, string) -> Launch

  /** `[x] * n` */
  function Repeat<T>(x: T, n: nat): (r: seq<T>)
    ensures |r| == n && forall i :: 0 <= i < n ==> r[i] == x
  {
    if n == 0 then [] else Repeat(x, n - 1) + [x]
  }

  /** Regrouping a concatenation: the step a loop needs when it appends to
      a list that already extends an earlier one. */
  lemma AppendAssociative<T>(a: seq<T>, b: seq<T>, c: seq<T>)
    ensures a + (b + c) == a + b + c
  {
  }

  /** Where each of five concatenated groups sits. */
  lemma GroupsAt<T>(a: seq<T>, b: seq<T>, c: seq<T>, d: seq<T>, e: seq<T>)
    ensures var s := a + b + c + d + e;
      && |s| == |a| + |b| + |c| + |d| + |e|
      && s[..|a|] == a
      && s[|a|..|a| + |b|] == b
      && s[|a| + |b|..|a| + |b| + |c|] == c
      && s[|a| + |b| + |c|..|a| + |b| + |c| + |d|] == d
      && s[|s| - |e|..] == e
      && s[|a|..] == b + c + d + e
  {
    var s := a + b + c + d + e;
    assert s == a + (b + c + d + e);
  }
}
