/** The command-line handling both `Main` classes share: `parseArgs` walks
    the arguments with an index, skipping `--` directives, letting each `-`
    flag consume the next argument as its value through `parseArg`, and
    refusing anything else; and the outcomes of `main`. */
module CommandLine {
  import opened Lang
  import Assert
  import opened Contexts

  /** `arg.startsWith("--")`: a directive, skipped. */
  predicate IsDirective(arg: string)
  {
    |arg| >= 2 && arg[0] == '-' && arg[1] == '-'
  }

  /** `arg.startsWith("-")`: a flag (or a directive). */
  predicate IsFlag(arg: string)
  {
    |arg| >= 1 && arg[0] == '-'
  }

  /** The checks `parseArg` makes of a flag and its value before storing
      anything, each throwing `IllegalStateException`; the result is the
      flag's name, `arg.substring(1)`. `charAt(0)` of an empty flag throws. */
  function CheckedName(arg: string, argv: Option<string>): (r: Result<string>)
    ensures r.Ok? <==> |arg| >= 2 && arg[0] == '-' && argv.Some? && argv.value != ""
    ensures r.Ok? ==> arg == "-" + r.value
    ensures r.Throws? && |arg| > 0 ==> r.error.kind == IllegalState
  {
    if |arg| == 0 then Throws(Jdk(StringIndexOutOfBounds))
    else
      var dash := Assert.IsTrue(arg[0] == '-', "option flag must begin with '-'", IllegalState);
      var named := Assert.IsTrue(|arg| > 1, "option flag must be at least 2 chars", IllegalState);
      var value := Assert.NotNullInfo(argv, "option value", IllegalState);
      if dash.Throws? then Throws(dash.error)
      else if named.Throws? then Throws(named.error)
      else if value.Throws? then Throws(value.error)
      else
        var filled := Assert.IsTrue(value.value != "", "option value must not be empty", IllegalState);
        if filled.Throws? then Throws(filled.error)
        else Ok(arg[1..])
  }

  /** `parseArgs` from index i on, with the options stored so far in clargs
      and `parseArg` given as a function of the map, the flag and its value. */
  function ParseFrom<K(==)>(args: seq<string>, i: nat, clargs: map<K, string>,
                            parseArg: (map<K, string>, string, string) -> Result<map<K, string>>): Result<map<K, string>>
    decreases |args| - i
  {
    if i >= |args| then Ok(clargs)
    else if IsDirective(args[i]) then ParseFrom(args, i + 1, clargs, parseArg)
    else if IsFlag(args[i]) then
      if i + 1 >= |args| then Throws(Jdk(ArrayIndexOutOfBounds))
      else
        var stored := parseArg(clargs, args[i], args[i + 1]);
        if stored.Throws? then stored else ParseFrom(args, i + 2, stored.value, parseArg)
    else Throws(Jdk(Usage))
  }

  /** `parseArgs(args)`: the for loop, whose index a flag advances twice. */
  method ParseArgs<K(==)>(args: seq<string>, parseArg: (map<K, string>, string, string) -> Result<map<K, string>>)
    returns (r: Result<map<K, string>>)
    ensures r == ParseFrom(args, 0, map[], parseArg)
  {
    var clargs: map<K, string> := map[];
    var i := 0;
    while i < |args|
      invariant i <= |args|
      invariant ParseFrom(args, i, clargs, parseArg) == ParseFrom(args, 0, map[], parseArg)
      decreases |args| - i
    {
      var arg := args[i];
      if IsDirective(arg) {
        // a directive
      } else if IsFlag(arg) {
        if i + 1 >= |args| {
          return Throws(Jdk(ArrayIndexOutOfBounds));
        }
        var stored := parseArg(clargs, arg, args[i + 1]);
        if stored.Throws? {
          return stored;
        }
        clargs := stored.value;
        i := i + 1;
      } else {
        return Throws(Jdk(Usage));
      }
      i := i + 1;
    }
    return Ok(clargs);
  }

  /** Parsing the arguments after a prefix is parsing them on their own. */
  lemma {:induction false} ParseShift<K>(xs: seq<string>, ys: seq<string>, j: nat, clargs: map<K, string>,
                                             parseArg: (map<K, string>, string, string) -> Result<map<K, string>>)
    ensures ParseFrom(xs + ys, |xs| + j, clargs, parseArg) == ParseFrom(ys, j, clargs, parseArg)
    decreases |ys| - j
  {
    if j < |ys| {
      assert (xs + ys)[|xs| + j] == ys[j];
      if IsDirective(ys[j]) {
        ParseShift(xs, ys, j + 1, clargs, parseArg);
      } else if IsFlag(ys[j]) && j + 1 < |ys| {
        assert (xs + ys)[|xs| + j + 1] == ys[j + 1];
        var stored := parseArg(clargs, ys[j], ys[j + 1]);
        if stored.Ok? {
          ParseShift(xs, ys, j + 2, stored.value, parseArg);
        }
      }
    }
  }

  /** Arguments that parse cleanly leave the options they set to whatever
      follows them: parsing `xs + ys` is parsing ys over the options of xs. */
  lemma {:induction false} ParseAppend<K>(xs: seq<string>, ys: seq<string>, i: nat, clargs: map<K, string>,
                                              parseArg: (map<K, string>, string, string) -> Result<map<K, string>>)
    requires i <= |xs| && ParseFrom(xs, i, clargs, parseArg).Ok?
    ensures ParseFrom(xs + ys, i, clargs, parseArg) == ParseFrom(ys, 0, ParseFrom(xs, i, clargs, parseArg).value, parseArg)
    decreases |xs| - i
  {
    if i == |xs| {
      ParseShift(xs, ys, 0, clargs, parseArg);
    } else {
      assert (xs + ys)[i] == xs[i];
      if IsDirective(xs[i]) {
        ParseAppend(xs, ys, i + 1, clargs, parseArg);
      } else {
        assert (xs + ys)[i + 1] == xs[i + 1];
        ParseAppend(xs, ys, i + 2, parseArg(clargs, xs[i], xs[i + 1]).value, parseArg);
      }
    }
  }

  // ------------------------------------------------------------------------
  // Outcomes of `main`
  // ------------------------------------------------------------------------

  /** How `main` ends: `exit(status, info)`, an exception escaping it, or
      the main thread waiting for ever. */
  datatype Outcome = Exit(status: int, info: string) | Uncaught(error: Throwable) | Waits

  /** `DEFAULT_CONF_PATH`. */
  const DEFAULT_CONF_PATH := "./server.conf"

  /** What `usage()` throws: it is not implemented. */
  const USAGE_ERROR := Thrown(Runtime, "NOT IMPLEMENTED")

  /** The info of the exit after a failed configuration load. */
  const LOAD_FAILED := "startup failed - configuration file load"

  /** `handleFault()`: no fault is ever handled. */
  function HandleFault(f: Fault): (handled: bool)
    ensures !handled
  {
    false
  }

  /** The main thread's wait loop once the server thread has ended with the
      fault slot holding `slot`, as written. `early` says that the server's
      `onError` interrupted the main thread before its first
      `Thread.interrupted()` test: the test then clears the interrupt, the
      later `join()` returns at once, and the loop spins without ever
      looking at the slot. Otherwise the interrupt ends a `join()` and an
      unhandled fault exits with -5 and the fault's info. */
  function AwaitAsWritten(slot: Option<Fault>, early: bool): (o: Outcome)
    ensures o.Exit? <==> slot.Some? && !early
    ensures o.Exit? ==> o == Exit(-5, slot.value.info)
  {
    if slot.None? || early then Waits
    else if !HandleFault(slot.value) then Exit(-5, slot.value.info)
    else Waits
  }

  /** The wait loop as evidently intended: an interrupt seen by the test is
      treated like one that ends a `join()`. */
  function AwaitIntended(slot: Option<Fault>, early: bool): Outcome
  {
    if slot.None? then Waits
    else if !HandleFault(slot.value) then Exit(-5, slot.value.info)
    else Waits
  }

  /** As written, a fault reported before the main thread's first test is
      lost: the main thread waits for ever. */
  lemma EarlyFaultLost(f: Fault)
    ensures AwaitAsWritten(Some(f), true) == Waits
    ensures AwaitIntended(Some(f), true) == Exit(-5, f.info)
  {
  }

  /** As intended, every reported fault ends `main` with status -5 and the
      fault's info, however the interrupt is timed. */
  lemma AwaitIntendedExits(slot: Option<Fault>, early: bool)
    ensures AwaitIntended(slot, early).Exit? <==> slot.Some?
    ensures slot.Some? ==> AwaitIntended(slot, early) == Exit(-5, slot.value.info)
    ensures AwaitIntended(slot, early) == AwaitIntended(slot, !early)
  {
  }
}
