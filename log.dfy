/** `util.Log`: named loggers over `java.util.logging`, whose names are
    normalised to 8 characters, the "cause" text the loggers compose for a
    Throwable, and `setLogLevel` by level name. */
module Log {
  import opened Lang

  // ------------------------------------------------------------------------
  // Logger names
  // ------------------------------------------------------------------------

  function Spaces(n: nat): (s: string)
    ensures |s| == n && forall i :: 0 <= i < n ==> s[i] == ' '
  {
    if n == 0 then [] else [' '] + Spaces(n - 1)
  }

  /** `String.format("%8s", name)`: right-justified in a field of 8, never cut. */
  function Justified(name: string): string
  {
    if |name| >= 8 then name else Spaces(8 - |name|) + name
  }

  /** `String.format("%8s", name).substring(0, 8)`: short names padded on the
      left with spaces, long names cut to their first 8 characters. */
  function NormalisedName(name: string): (r: string)
    ensures |r| == 8
    ensures |name| <= 8 ==> r[8 - |name|..] == name && forall i :: 0 <= i < 8 - |name| ==> r[i] == ' '
    ensures |name| >= 8 ==> r == name[..8]
  {
    var j := Justified(name);
    assert |name| < 8 ==> j[8 - |name|..] == name;
    j[..8]
  }

  /** The checks and the normalisation of `getLogger(name, dumpstack)`. */
  function LoggerName(name: Option<string>): (r: Result<string>)
    ensures r.Ok? <==> name.Some? && name.value != ""
    ensures name.None? ==> r == Throws(Thrown(IllegalArgument, "name is null"))
    ensures name == Some("") ==> r == Throws(Thrown(IllegalArgument, "name is blank"))
    ensures r.Ok? ==> r.value == NormalisedName(name.value)
  {
    if name.None? then Throws(Thrown(IllegalArgument, "name is null"))
    else if name.value == "" then Throws(Thrown(IllegalArgument, "name is blank"))
    else Ok(NormalisedName(name.value))
  }

  /** A normalised name is its own normalisation, so asking again by the
      effective name reaches the same logger. */
  lemma NormalisedIdempotent(name: string)
    ensures NormalisedName(NormalisedName(name)) == NormalisedName(name)
  {
    var n := NormalisedName(name);
    assert n[..8] == n;
  }

  /** Names that agree in their first 8 characters share a logger. */
  lemma LongNamesCollide(a: string, b: string)
    requires |a| >= 8 && |b| >= 8 && a[..8] == b[..8]
    ensures NormalisedName(a) == NormalisedName(b)
  {
  }

  /** The spaces in front of a short name can be taken off again: a name of at
      most 8 characters that does not start with a space is recovered. */
  lemma ShortNameRecovered(name: string)
    requires 1 <= |name| <= 8 && name[0] != ' '
    ensures TrimLeft(NormalisedName(name)) == name
  {
    var n := NormalisedName(name);
    TrimLeftSpaces(n, 8 - |name|);
  }

  function TrimLeft(s: string): (r: string)
  {
    if s != [] && s[0] == ' ' then TrimLeft(s[1..]) else s
  }

  lemma {:induction false} TrimLeftSpaces(s: string, k: nat)
    requires k < |s| && s[k] != ' ' && forall i :: 0 <= i < k ==> s[i] == ' '
    ensures TrimLeft(s) == s[k..]
  {
    if k > 0 {
      TrimLeftSpaces(s[1..], k - 1);
      assert s[1..][k - 1..] == s[k..];
    }
  }

  // ------------------------------------------------------------------------
  // Levels
  // ------------------------------------------------------------------------

  /** The `java.util.logging.Level`s `setLogLevel` accepts. */
  datatype Level = ALL | CONFIG | INFO | OFF | SEVERE | WARNING | FINE | FINER | FINEST

  /** `Level.getName()`. */
  function LevelName(l: Level): string
  {
    match l
    case ALL => "ALL"
    case CONFIG => "CONFIG"
    case INFO => "INFO"
    case OFF => "OFF"
    case SEVERE => "SEVERE"
    case WARNING => "WARNING"
    case FINE => "FINE"
    case FINER => "FINER"
    case FINEST => "FINEST"
  }

  /** `Character.toUpperCase` on the characters whose upper case is an ASCII
      letter: a-z, dotless i and long s. */
  function ToUpper(c: char): char
  {
    if 'a' <= c <= 'z' then (c as int - 32) as char
    else if c == '\U{0131}' then 'I'
    else if c == '\U{017F}' then 'S'
    else c
  }

  /** `Character.toLowerCase` on the characters whose lower case is an ASCII
      letter: A-Z, dotted capital I and the Kelvin sign. */
  function ToLower(c: char): char
  {
    if 'A' <= c <= 'Z' then (c as int + 32) as char
    else if c == '\U{0130}' then 'i'
    else if c == '\U{212A}' then 'k'
    else c
  }

  /** `String.equalsIgnoreCase` char by char: equal, equal in upper case, or
      equal in the lower case of the upper case. Exact when t is ASCII. */
  predicate CharEqualsIgnoreCase(c: char, d: char)
  {
    c == d || ToUpper(c) == ToUpper(d) || ToLower(ToUpper(c)) == ToLower(ToUpper(d))
  }

  predicate EqualsIgnoreCase(s: string, t: string)
  {
    |s| == |t| && forall i :: 0 <= i < |s| ==> CharEqualsIgnoreCase(s[i], t[i])
  }

  function Lower(s: string): (r: string)
    ensures |r| == |s| && forall i :: 0 <= i < |s| ==> r[i] == ToLower(s[i])
  {
    if s == [] then [] else [ToLower(s[0])] + Lower(s[1..])
  }

  /** The level `setLogLevel` chooses for a name, trying ALL, CONFIG, INFO, OFF,
      SEVERE, WARNING, FINE, FINER and FINEST in turn. */
  function ParseLevel(levelname: Option<string>): (r: Result<Level>)
    ensures r.Ok? ==> levelname.Some? && EqualsIgnoreCase(levelname.value, LevelName(r.value))
    ensures r.Ok? <==> levelname.Some? && exists l :: EqualsIgnoreCase(levelname.value, LevelName(l))
    ensures r.Throws? ==> r.error.kind == IllegalArgument
  {
    if levelname.None? then Throws(Thrown(IllegalArgument, "levelname is null"))
    else
      var s := levelname.value;
      if s == "" then Throws(Thrown(IllegalArgument, "levelname is blank"))
      else if EqualsIgnoreCase(s, LevelName(ALL)) then Ok(ALL)
      else if EqualsIgnoreCase(s, LevelName(CONFIG)) then Ok(CONFIG)
      else if EqualsIgnoreCase(s, LevelName(INFO)) then Ok(INFO)
      else if EqualsIgnoreCase(s, LevelName(OFF)) then Ok(OFF)
      else if EqualsIgnoreCase(s, LevelName(SEVERE)) then Ok(SEVERE)
      else if EqualsIgnoreCase(s, LevelName(WARNING)) then Ok(WARNING)
      else if EqualsIgnoreCase(s, LevelName(FINE)) then Ok(FINE)
      else if EqualsIgnoreCase(s, LevelName(FINER)) then Ok(FINER)
      else if EqualsIgnoreCase(s, LevelName(FINEST)) then Ok(FINEST)
      else
        NoLevelMatches(s);
        Throws(Thrown(IllegalArgument, "Log#setLogLevel: unrecognized log level: " + s))
  }

  lemma NoLevelMatches(s: string)
    requires !EqualsIgnoreCase(s, LevelName(ALL)) && !EqualsIgnoreCase(s, LevelName(CONFIG)) && !EqualsIgnoreCase(s, LevelName(INFO))
    requires !EqualsIgnoreCase(s, LevelName(OFF)) && !EqualsIgnoreCase(s, LevelName(SEVERE)) && !EqualsIgnoreCase(s, LevelName(WARNING))
    requires !EqualsIgnoreCase(s, LevelName(FINE)) && !EqualsIgnoreCase(s, LevelName(FINER)) && !EqualsIgnoreCase(s, LevelName(FINEST))
    ensures forall l :: !EqualsIgnoreCase(s, LevelName(l))
  {
  }

  /** A name that matches a level's name ignoring case selects that level. */
  lemma ParseLevelMatching(s: string, l: Level)
    requires EqualsIgnoreCase(s, LevelName(l))
    ensures ParseLevel(Some(s)) == Ok(l)
  {
    var r := ParseLevel(Some(s));
    assert r.Ok?;
    MatchUnique(s, r.value, l);
  }

  /** Every level is found by its own name and by its name in lower case. */
  lemma ParseLevelName(l: Level)
    ensures ParseLevel(Some(LevelName(l))) == Ok(l)
    ensures ParseLevel(Some(Lower(LevelName(l)))) == Ok(l)
  {
    var n := LevelName(l);
    assert EqualsIgnoreCase(n, n);
    ParseLevelMatching(n, l);
    LowerMatches(l);
    ParseLevelMatching(Lower(n), l);
  }

  /** A level's name in lower case matches the name ignoring case. */
  lemma LowerMatches(l: Level)
    ensures EqualsIgnoreCase(Lower(LevelName(l)), LevelName(l))
  {
    var n := LevelName(l);
    LevelNameUpper(l);
    forall i | 0 <= i < |n|
      ensures CharEqualsIgnoreCase(Lower(n)[i], n[i])
    {
      LowerLetterMatches(n[i]);
    }
  }

  lemma LowerLetterMatches(x: char)
    requires 'A' <= x <= 'Z'
    ensures CharEqualsIgnoreCase(ToLower(x), x)
  {
    assert ToUpper(ToLower(x)) == x;
  }

  /** Level names are written in upper-case ASCII letters. */
  lemma LevelNameUpper(l: Level)
    ensures forall i :: 0 <= i < |LevelName(l)| ==> 'A' <= LevelName(l)[i] <= 'Z'
  {
  }

  /** No string matches the names of two levels: names of one length start
      with different letters. */
  lemma MatchUnique(s: string, l: Level, m: Level)
    requires EqualsIgnoreCase(s, LevelName(l)) && EqualsIgnoreCase(s, LevelName(m))
    ensures l == m
  {
    var x, y := LevelName(l)[0], LevelName(m)[0];
    assert CharEqualsIgnoreCase(s[0], x) && CharEqualsIgnoreCase(s[0], y);
    FoldAgrees(s[0], x);
    FoldAgrees(s[0], y);
  }

  /** A character that matches an upper-case ASCII letter ignoring case folds
      to that letter's lower case. */
  lemma FoldAgrees(c: char, x: char)
    requires 'A' <= x <= 'Z' && CharEqualsIgnoreCase(c, x)
    ensures ToLower(ToUpper(c)) == (x as int + 32) as char
  {
  }

  // ------------------------------------------------------------------------
  // The loggers
  // ------------------------------------------------------------------------

  /** A `java.util.logging.Logger`: the level set on it and how many handlers
      have been added to it. */
  class StdLogger {
    const name: string
    var level: Option<Level>
    var handlers: nat

    constructor (name: string)
      ensures this.name == name && level == None && handlers == 0
    {
      this.name := name;
      level := None;
      handlers := 0;
    }
  }

  /** The JDK's registry behind `java.util.logging.Logger.getLogger(name)`:
      one logger object per name, shared by everybody who asks for it. */
  class Registry {
    var loggers: map<string, StdLogger>

    constructor ()
      ensures loggers == map[]
    {
      loggers := map[];
    }

    predicate Valid()
      reads this, loggers.Values
    {
      forall n :: n in loggers ==> loggers[n].name == n
    }

    /** The logger of a name, created with no level and no handler when absent. */
    method Lookup(name: string) returns (std: StdLogger)
      requires Valid()
      modifies this
      ensures Valid()
      ensures name in loggers && std == loggers[name]
      ensures name in old(loggers) ==> loggers == old(loggers)
      ensures name !in old(loggers) ==> fresh(std) && std.level == None && std.handlers == 0
      ensures name !in old(loggers) ==> loggers == old(loggers)[name := std]
    {
      if name in loggers {
        std := loggers[name];
      } else {
        std := new StdLogger(name);
        loggers := loggers[name := std];
      }
    }
  }

  /** `Log.Logger`: a JDK logger and whether throwables' stacks are dumped. */
  class Logger {
    const stdlog: StdLogger
    const dumpstack: bool

    constructor (stdlog: StdLogger, dumpstack: bool)
      ensures this.stdlog == stdlog && this.dumpstack == dumpstack
    {
      this.stdlog := stdlog;
      this.dumpstack := dumpstack;
    }

    /** `setLevel(level)`: sets the JDK logger's level and returns this logger. */
    method SetLevel(level: Level) returns (self: Logger)
      modifies stdlog
      ensures self == this && stdlog.level == Some(level) && stdlog.handlers == old(stdlog.handlers)
    {
      stdlog.level := Some(level);
      self := this;
    }
  }

  /** `getLogger(name, dumpstack)` as written: every call adds one more handler
      to the JDK logger of the normalised name, creating that logger first
      when the registry has none of that name. */
  method GetLogger(reg: Registry, name: Option<string>, dumpstack: bool) returns (r: Result<Logger>)
    requires reg.Valid()
    modifies reg, reg.loggers.Values
    ensures reg.Valid()
    ensures r.Ok? <==> LoggerName(name).Ok?
    ensures LoggerName(name).Throws? ==> r == Throws(LoggerName(name).error) && reg.loggers == old(reg.loggers)
    ensures LoggerName(name).Throws? ==> forall n :: n in reg.loggers ==> unchanged(reg.loggers[n])
    ensures LoggerName(name).Ok? ==> r.Ok? && fresh(r.value) && Served(reg, LoggerName(name).value, r.value, dumpstack)
    ensures LoggerName(name).Ok? ==> var lname := LoggerName(name).value;
      && (lname in old(reg.loggers) ==> reg.loggers == old(reg.loggers))
      && (lname !in old(reg.loggers) ==> fresh(r.value.stdlog) && reg.loggers == old(reg.loggers)[lname := r.value.stdlog])
      && r.value.stdlog.handlers == (if lname in old(reg.loggers) then old(reg.loggers[lname].handlers) else 0) + 1
      && r.value.stdlog.level == (if lname in old(reg.loggers) then old(reg.loggers[lname].level) else None)
      && forall n :: n in old(reg.loggers) && n != lname ==> unchanged(old(reg.loggers[n]))
  {
    var checked := LoggerName(name);
    if checked.Throws? {
      return Throws(checked.error);
    }
    var lname := checked.value;
    var std := reg.Lookup(lname);
    std.handlers := std.handlers + 1;
    var logger := new Logger(std, dumpstack);
    return Ok(logger);
  }

  /** The logger handed out for a name wraps the registry's JDK logger of that name. */
  ghost predicate Served(reg: Registry, lname: string, logger: Logger, dumpstack: bool)
    reads reg
  {
    lname in reg.loggers && logger.stdlog == reg.loggers[lname] && logger.dumpstack == dumpstack
  }

  /** `getLogger(name)`: `getLogger(name, true)`. */
  method GetLoggerDumping(reg: Registry, name: Option<string>) returns (r: Result<Logger>)
    requires reg.Valid()
    modifies reg, reg.loggers.Values
    ensures reg.Valid()
    ensures r.Ok? <==> LoggerName(name).Ok?
    ensures LoggerName(name).Throws? ==> r == Throws(LoggerName(name).error) && reg.loggers == old(reg.loggers)
    ensures LoggerName(name).Ok? ==> r.Ok? && fresh(r.value) && Served(reg, LoggerName(name).value, r.value, true)
  {
    r := GetLogger(reg, name, true);
  }

  /** Asking twice for "testlog" leaves its JDK logger with two handlers, so every
      record it accepts is published twice. */
  method RequestedTwice() returns (handlers: nat)
    ensures handlers == 2
  {
    var reg := new Registry();
    var first := GetLogger(reg, Some("testlog"), true);
    var second := GetLogger(reg, Some("testlog"), true);
    handlers := second.value.stdlog.handlers;
  }

  /** Every JDK logger in the registry has exactly one handler. */
  predicate OneHandlerEach(reg: Registry)
    reads reg, reg.loggers.Values
  {
    forall n :: n in reg.loggers ==> reg.loggers[n].handlers == 1
  }

  /** `getLogger(name, dumpstack)` as its note intends: the handler is added
      only when the JDK logger is first created. */
  method IntendedGetLogger(reg: Registry, name: Option<string>, dumpstack: bool) returns (r: Result<Logger>)
    requires reg.Valid() && OneHandlerEach(reg)
    modifies reg
    ensures reg.Valid() && OneHandlerEach(reg)
    ensures r.Ok? <==> LoggerName(name).Ok?
    ensures LoggerName(name).Throws? ==> r == Throws(LoggerName(name).error) && reg.loggers == old(reg.loggers)
    ensures LoggerName(name).Ok? ==> r.Ok? && fresh(r.value) && Served(reg, LoggerName(name).value, r.value, dumpstack)
    ensures LoggerName(name).Ok? ==> var lname := LoggerName(name).value;
      && (lname in old(reg.loggers) ==> reg.loggers == old(reg.loggers))
      && (lname !in old(reg.loggers) ==> fresh(r.value.stdlog) && reg.loggers == old(reg.loggers)[lname := r.value.stdlog])
  {
    var checked := LoggerName(name);
    if checked.Throws? {
      return Throws(checked.error);
    }
    var lname := checked.value;
    var known := lname in reg.loggers;
    var std := reg.Lookup(lname);
    if !known {
      std.handlers := std.handlers + 1;
    }
    var logger := new Logger(std, dumpstack);
    return Ok(logger);
  }

  /** With the intended lookup, asking twice for "testlog" leaves one handler. */
  method IntendedRequestedTwice() returns (handlers: nat)
    ensures handlers == 1
  {
    var reg := new Registry();
    var first := IntendedGetLogger(reg, Some("testlog"), true);
    var second := IntendedGetLogger(reg, Some("testlog"), true);
    handlers := second.value.stdlog.handlers;
  }

  /** `setLogLevel(log, levelname)`: the level of that name, or an
      IllegalArgumentException and no change. */
  method SetLogLevel(log: Logger?, levelname: Option<string>) returns (r: Result<()>)
    modifies if log == null then {} else {log.stdlog}
    ensures ParseLevel(levelname).Throws? ==> r == Throws(ParseLevel(levelname).error)
    ensures ParseLevel(levelname).Ok? && log == null ==> r == Throws(Jdk(NullPointer))
    ensures r.Ok? <==> ParseLevel(levelname).Ok? && log != null
    ensures log != null && r.Ok? ==> log.stdlog.level == Some(ParseLevel(levelname).value)
    ensures log != null && r.Throws? ==> log.stdlog.level == old(log.stdlog.level)
    ensures log != null ==> log.stdlog.handlers == old(log.stdlog.handlers)
  {
    var level := ParseLevel(levelname);
    if level.Throws? {
      return Throws(level.error);
    }
    if log == null {
      return Throws(Jdk(NullPointer));
    }
    var _ := log.SetLevel(level.value);
    return Ok(());
  }

  // ------------------------------------------------------------------------
  // Messages about a Throwable
  // ------------------------------------------------------------------------

  /** `"- cause: T"` when t has no message or an empty one, else `"- cause: T - m"`. */
  function CauseText(t: Throwable): (r: string)
    ensures (t.message.None? || t.message.value == "") <==> r == "- cause: " + SimpleName(t.kind)
    ensures |r| >= 9 && r[..9] == "- cause: "
  {
    if t.message.None? || t.message.value == "" then "- cause: " + SimpleName(t.kind)
    else "- cause: " + SimpleName(t.kind) + " - " + t.message.value
  }

  /** The message of t as the cause text shows it: none and empty read the same. */
  function ShownMessage(t: Throwable): string
  {
    if t.message.None? then "" else t.message.value
  }

  /** The cause text determines the shown message of a throwable of a given class. */
  lemma CauseTextInjective(t: Throwable, u: Throwable)
    requires t.kind == u.kind && CauseText(t) == CauseText(u)
    ensures ShownMessage(t) == ShownMessage(u)
  {
    var p := "- cause: " + SimpleName(t.kind);
    if ShownMessage(t) != "" && ShownMessage(u) != "" {
      assert CauseText(t)[|p| + 3..] == ShownMessage(t);
      assert CauseText(u)[|p| + 3..] == ShownMessage(u);
    }
  }

  /** What `error`, `warning` and `info` hand to the JDK logger for `(msg, t)`:
      the level and the text `"%s %s"` of msg and the cause text. A null t fails
      at `t.getClass()`. */
  datatype Record = Record(level: Level, text: string)

  function CauseRecord(level: Level, msg: string, t: Option<Throwable>): (r: Result<Record>)
    ensures r.Ok? <==> t.Some?
    ensures r.Ok? ==> r.value.level == level && r.value.text == msg + " " + CauseText(t.value)
    ensures r.Throws? ==> r.error == Jdk(NullPointer)
  {
    if t.None? then Throws(Jdk(NullPointer)) else Ok(Record(level, msg + " " + CauseText(t.value)))
  }

  /** `Logger.error(msg, t)`: a SEVERE record. */
  function ErrorRecord(msg: string, t: Option<Throwable>): (r: Result<Record>)
    ensures t.None? ==> r == Throws(Jdk(NullPointer))
    ensures t.Some? ==> r.Ok? && r.value.level == SEVERE && r.value.text == msg + " " + CauseText(t.value)
  {
    CauseRecord(SEVERE, msg, t)
  }

  /** `Logger.warning(msg, t)`: a WARNING record. */
  function WarningRecord(msg: string, t: Option<Throwable>): (r: Result<Record>)
    ensures t.None? ==> r == Throws(Jdk(NullPointer))
    ensures t.Some? ==> r.Ok? && r.value.level == WARNING && r.value.text == msg + " " + CauseText(t.value)
  {
    CauseRecord(WARNING, msg, t)
  }

  /** `Logger.info(msg, t)`: an INFO record. */
  function InfoRecord(msg: string, t: Option<Throwable>): (r: Result<Record>)
    ensures t.None? ==> r == Throws(Jdk(NullPointer))
    ensures t.Some? ==> r.Ok? && r.value.level == INFO && r.value.text == msg + " " + CauseText(t.value)
  {
    CauseRecord(INFO, msg, t)
  }

  /** The driver's expectations: `getLogger(null)` and `getLogger("")` both
      throw, and the records it then logs for them carry the checks' messages. */
  lemma DriverRejectsNames()
    ensures LoggerName(None).Throws? && LoggerName(Some("")).Throws?
    ensures WarningRecord("oops", Some(LoggerName(None).error))
              == Ok(Record(WARNING, "oops - cause: IllegalArgumentException - name is null"))
    ensures ErrorRecord("oops", Some(LoggerName(Some("")).error))
              == Ok(Record(SEVERE, "oops - cause: IllegalArgumentException - name is blank"))
  {
    OopsLine("name is null");
    OopsLine("name is blank");
    NullLine();
    BlankLine();
  }

  lemma NullLine()
    ensures "oops - cause: IllegalArgumentException - " + "name is null"
         == "oops - cause: IllegalArgumentException - name is null"
  {
  }

  lemma BlankLine()
    ensures "oops - cause: IllegalArgumentException - " + "name is blank"
         == "oops - cause: IllegalArgumentException - name is blank"
  {
  }

  lemma OopsLine(m: string)
    ensures "oops" + " " + ("- cause: " + "IllegalArgumentException" + " - " + m)
         == "oops - cause: IllegalArgumentException - " + m
  {
    Regroup("oops", " ", "- cause: ", "IllegalArgumentException", " - ", m);
    OopsPrefix();
  }

  lemma OopsPrefix()
    ensures "oops" + " " + "- cause: " + "IllegalArgumentException" + " - " == "oops - cause: IllegalArgumentException - "
  {
    assert "oops" + " " + "- cause: " == "oops - cause: ";
    assert "oops - cause: " + "IllegalArgumentException" == "oops - cause: IllegalArgumentException";
    assert "oops - cause: IllegalArgumentException" + " - " == "oops - cause: IllegalArgumentException - ";
  }

  lemma Regroup(a: string, b: string, c: string, d: string, e: string, m: string)
    ensures a + b + (c + d + e + m) == (a + b + c + d + e) + m
  {
  }
}
