/**
 * The application logger of utils/logger.js: the level filter, the line format, the file each
 * level is written to, and the level chosen for request and performance entries. The console
 * and the log directory are fields of the logger: the lines printed so far, and each file's
 * content.
 *
 * The clock (`new Date().toISOString()`), the process id and `JSON.stringify` of the meta
 * object are inputs.
 */
module Logger {
  import opened Wrappers
  import opened JsString
  import opened JsNumber

  datatype Level = Error | Warn | Info | Debug

  /** `LOG_LEVELS[level]`. */
  function Rank(l: Level): nat {
    match l
    case Error => 0
    case Warn => 1
    case Info => 2
    case Debug => 3
  }

  /** The name a level is logged under. */
  function Name(l: Level): string {
    match l
    case Error => "ERROR"
    case Warn => "WARN"
    case Info => "INFO"
    case Debug => "DEBUG"
  }

  /** `LOG_LEVELS[name]`: the level of one of the four names, `None` (undefined) otherwise. */
  function LevelNamed(name: string): (r: Option<Level>)
    ensures r.Some? ==> Name(r.value) == name
    ensures r.None? ==> forall l: Level :: Name(l) != name
  {
    if name == "ERROR" then Some(Error)
    else if name == "WARN" then Some(Warn)
    else if name == "INFO" then Some(Info)
    else if name == "DEBUG" then Some(Debug)
    else None
  }

  /** `CURRENT_LEVEL`: the `LOG_LEVEL` environment variable, 'INFO' when unset or empty. */
  function CurrentLevel(env: Option<string>): string {
    if env.Some? && env.value != "" then env.value else "INFO"
  }

  /** The test in `log`: `LOG_LEVELS[level] <= LOG_LEVELS[CURRENT_LEVEL]`. A comparison with
      `undefined` is false, so a `CURRENT_LEVEL` that is not one of the four names lets
      nothing through. */
  predicate Enabled(l: Level, current: string) {
    match LevelNamed(current)
    case Some(c) => Rank(l) <= Rank(c)
    case None => false
  }

  /** A message is emitted exactly when its level is at or above the configured one; errors
      always are, under a valid configuration, and an unrecognised configuration (say a
      lower-case 'debug') silences every level. */
  lemma EnabledIff(l: Level, env: Option<string>)
    ensures LevelNamed(CurrentLevel(env)).Some? ==>
      (Enabled(l, CurrentLevel(env)) <==> Rank(l) <= Rank(LevelNamed(CurrentLevel(env)).value))
    ensures LevelNamed(CurrentLevel(env)).Some? ==> Enabled(Error, CurrentLevel(env))
    ensures LevelNamed(CurrentLevel(env)).None? ==> !Enabled(l, CurrentLevel(env))
    ensures env.None? ==> (Enabled(l, CurrentLevel(env)) <==> l != Debug)
  {
  }

  /** Raising the configured level never hides a message that was shown. */
  lemma EnabledMonotone(l: Level, c1: Level, c2: Level)
    requires Rank(c1) <= Rank(c2) && Enabled(l, Name(c1))
    ensures Enabled(l, Name(c2))
  {
  }

  /** The start of `formatMessage`'s header, up to the pid: `[timestamp] [LEVEL] [PID:`. */
  function PidPrefix(ts: string, l: Level): (p: string)
    ensures |p| == |ts| + |Name(l)| + 11
  {
    "[" + ts + "] [" + Name(l) + "] [PID:"
  }

  /** `formatMessage`'s header: `[timestamp] [LEVEL] [PID:pid] `. */
  function Header(ts: string, l: Level, pid: nat): string {
    PidPrefix(ts, l) + NatToString(pid) + "] "
  }

  /** `formatMessage(level, message, meta)`: the header, the message, and a space and the
      meta's JSON only when the meta object has keys (`meta` is `None` otherwise). The line
      reads, in order: the bracketed timestamp, the bracketed level name, the bracketed pid,
      the message, and the meta suffix, which ends the line. */
  function FormatMessage(ts: string, l: Level, pid: nat, message: string, meta: Option<string>): (r: string)
    ensures StartsWith(r, PidPrefix(ts, l))
    ensures var p, h := |PidPrefix(ts, l)|, |Header(ts, l, pid)|;
      && p + 2 < h && h + |message| <= |r|
      && r[p..h - 2] == NatToString(pid)
      && r[h - 2..h] == "] "
      && r[h..h + |message|] == message
      && (meta.None? ==> |r| == h + |message|)
      && (meta.Some? ==> r[h + |message|..] == " " + meta.value)
  {
    var tail := if meta.Some? then " " + meta.value else "";
    LineParts(PidPrefix(ts, l), NatToString(pid), message, tail);
    PidPrefix(ts, l) + NatToString(pid) + "] " + message + tail
  }

  /** Where each part of a formatted line lies. */
  lemma LineParts(p: string, d: string, message: string, tail: string)
    ensures var r := p + d + "] " + message + tail;
      var h := |p| + |d| + 2;
      && r[..|p|] == p && r[|p|..h - 2] == d && r[h - 2..h] == "] "
      && r[h..h + |message|] == message && r[h + |message|..] == tail
  {
  }

  /** A timestamp without ']' (as ISO timestamps are) is recovered from a line as the text
      before its first ']'. */
  lemma FormatTimestamp(ts: string, l: Level, pid: nat, message: string, meta: Option<string>)
    requires ']' !in ts
    ensures IndexOf(FormatMessage(ts, l, pid, message, meta), "]") == Some(|ts| + 1)
    ensures FormatMessage(ts, l, pid, message, meta)[1..|ts| + 1] == ts
  {
    var r := FormatMessage(ts, l, pid, message, meta);
    var p := "[" + ts + "] [";
    assert r[..|p|] == p;
    forall i | 0 <= i < |ts| + 1
      ensures r[i] != ']'
    {
      assert r[i] == p[i];
      if i > 0 {
        assert p[i] == ts[i - 1];
      }
    }
    assert r[|ts| + 1] == p[|ts| + 1] == ']';
    FirstIndex(r, ']', |ts| + 1);
    assert r[1..|ts| + 1] == p[1..|ts| + 1];
  }

  /** The first occurrence of a character is where `indexOf` finds it. */
  lemma FirstIndex(r: string, c: char, k: nat)
    requires k < |r| && r[k] == c
    requires forall i :: 0 <= i < k ==> r[i] != c
    ensures IndexOf(r, [c]) == Some(k)
  {
    assert OccursAt(r, [c], k) by {
      assert r[k..k + 1] == [r[k]];
    }
    forall i | 0 <= i < k
      ensures !OccursAt(r, [c], i)
    {
      assert r[i..i + 1] == [r[i]];
    }
    IndexOfFirst(r, [c], k);
  }

  /** The file of a level in `writeToFile`: the lower-cased level name followed by '.log'. */
  function LogFileName(l: Level): (f: string)
    ensures |f| > 4 && f[|f| - 4..] == ".log"
    ensures f[..|f| - 4] == Lower(Name(l))
  {
    Lower(Name(l)) + ".log"
  }

  /** Each level has a file of its own. */
  lemma LogFilesDistinct(l1: Level, l2: Level)
    requires l1 != l2
    ensures LogFileName(l1) != LogFileName(l2)
  {
    var f1, f2 := LogFileName(l1), LogFileName(l2);
    assert f1[0] == LowerChar(Name(l1)[0]);
    assert f2[0] == LowerChar(Name(l2)[0]);
  }

  const RESET := "\U{1B}[0m"

  /** `COLORS[level]`. */
  function Color(l: Level): string {
    match l
    case Error => "\U{1B}[31m"
    case Warn => "\U{1B}[33m"
    case Info => "\U{1B}[36m"
    case Debug => "\U{1B}[90m"
  }

  /** `logRequest`: warn for an error status (400 and above), info otherwise. */
  function RequestLevel(statusCode: int): (l: Level)
    ensures l == Warn <==> statusCode >= 400
    ensures l != Warn ==> l == Info
  {
    if statusCode >= 400 then Warn else Info
  }

  /** `logPerformance`: warn above one second, debug otherwise. */
  function PerformanceLevel(duration: int): (l: Level)
    ensures l == Warn <==> duration > 1000
    ensures l != Warn ==> l == Debug
  {
    if duration > 1000 then Warn else Debug
  }

  /** The logger: the configured level, the console output and the log files by name. */
  class Logger {
    const current: string
    var console: seq<string>
    var files: map<string, string>

    /** `new Logger()` under the environment's `LOG_LEVEL`. */
    constructor (env: Option<string>, files: map<string, string>)
      ensures current == CurrentLevel(env) && console == [] && this.files == files
    {
      current := CurrentLevel(env);
      console := [];
      this.files := files;
    }

    /** `log(level, message, meta)`: when the level is enabled, one coloured line on the
        console and the same line, with a newline, appended to the level's file; otherwise
        nothing. */
    method Log(l: Level, message: string, meta: Option<string>, ts: string, pid: nat)
      modifies this
      ensures Enabled(l, current) ==>
        var line := FormatMessage(ts, l, pid, message, meta);
        var f := LogFileName(l);
        && console == old(console) + [Color(l) + line + RESET]
        && files == old(files)[f := (if f in old(files) then old(files)[f] else "") + line + "\n"]
      ensures !Enabled(l, current) ==> console == old(console) && files == old(files)
    {
      if Enabled(l, current) {
        var line := FormatMessage(ts, l, pid, message, meta);
        console := console + [Color(l) + line + RESET];
        var f := LogFileName(l);
        var before := if f in files then files[f] else "";
        files := files[f := before + line + "\n"];
      }
    }

    /** `logRequest(req, res, responseTime)`: an 'API请求' entry at `RequestLevel`. */
    method LogRequest(statusCode: int, meta: string, ts: string, pid: nat)
      modifies this
      ensures var l := RequestLevel(statusCode);
        Enabled(l, current) ==>
          var line := FormatMessage(ts, l, pid, "API请求", Some(meta));
          var f := LogFileName(l);
          && console == old(console) + [Color(l) + line + RESET]
          && files == old(files)[f := (if f in old(files) then old(files)[f] else "") + line + "\n"]
      ensures !Enabled(RequestLevel(statusCode), current) ==> console == old(console) && files == old(files)
    {
      Log(RequestLevel(statusCode), "API请求", Some(meta), ts, pid);
    }

    /** `logPerformance(operation, duration, meta)`: an entry at `PerformanceLevel`. */
    method LogPerformance(duration: int, meta: string, ts: string, pid: nat)
      modifies this
      ensures var l := PerformanceLevel(duration);
        var message := if l == Warn then "性能警告" else "性能监控";
        Enabled(l, current) ==>
          var line := FormatMessage(ts, l, pid, message, Some(meta));
          var f := LogFileName(l);
          && console == old(console) + [Color(l) + line + RESET]
          && files == old(files)[f := (if f in old(files) then old(files)[f] else "") + line + "\n"]
      ensures !Enabled(PerformanceLevel(duration), current) ==> console == old(console) && files == old(files)
    {
      if duration > 1000 {
        Log(Warn, "性能警告", Some(meta), ts, pid);
      } else {
        Log(Debug, "性能监控", Some(meta), ts, pid);
      }
    }
  }
}
