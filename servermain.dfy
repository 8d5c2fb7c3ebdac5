/** `ove.x0FF5E3DB.Main`: the same start-up as `ove.x0ff5e7db.Main` over a
    `Server`, with options stored under their flag names without the dash.
    The configuration path is looked up under "-conf", a key no flag can
    store, so the default path is always used. */
module ServerMain {
  import opened Lang
  import Assert
  import opened Contexts
  import opened Network
  import opened Servers
  import opened CommandLine
  import Config

  /** `parseArg(clargs, arg, argv)`: check the map, the flag and the value,
      then store the value under the flag's name, whatever it is. */
  function ParseArg(clargs: Option<map<string, string>>, arg: string, argv: Option<string>): (r: Result<map<string, string>>)
    ensures r.Ok? <==> clargs.Some? && CheckedName(arg, argv).Ok?
    ensures r.Ok? ==> r.value == clargs.value[arg[1..] := argv.value]
    ensures clargs.None? ==> r == Throws(Thrown(IllegalState, "null reference:{" + "clargs" + "}"))
  {
    var m := Assert.NotNullInfo(clargs, "clargs", IllegalState);
    if m.Throws? then Throws(Thrown(IllegalState, "null reference:{" + "clargs" + "}"))
    else
      var name := CheckedName(arg, argv);
      if name.Throws? then Throws(name.error) else Ok(m.value[name.value := argv.value])
  }

  /** `parseArg` as `parseArgs` calls it: the map it has just created and a
      value read from `args`. */
  const PARSE_ARG: (map<string, string>, string, string) -> Result<map<string, string>> :=
    (clargs, arg, argv) => ParseArg(Some(clargs), arg, Some(argv))

  /** The configuration path as `main` looks it up: under "-conf". */
  function ConfPathAsWritten(clargs: map<string, string>): string
  {
    if "-conf" in clargs then clargs["-conf"] else DEFAULT_CONF_PATH
  }

  /** The lookup evidently intended: under "conf", where `-conf` stores it. */
  function ConfPathIntended(clargs: map<string, string>): string
  {
    if "conf" in clargs then clargs["conf"] else DEFAULT_CONF_PATH
  }

  /** No stored key starts with '-': a flag "--x" that would store "-x" is a
      directive and is skipped. */
  lemma {:induction false} KeysUndashed(args: seq<string>, i: nat, clargs: map<string, string>)
    requires forall k :: k in clargs ==> !IsFlag(k)
    ensures ParseFrom(args, i, clargs, PARSE_ARG).Ok? ==> forall k :: k in ParseFrom(args, i, clargs, PARSE_ARG).value ==> !IsFlag(k)
    decreases |args| - i
  {
    if i < |args| {
      if IsDirective(args[i]) {
        KeysUndashed(args, i + 1, clargs);
      } else if IsFlag(args[i]) && i + 1 < |args| {
        var stored := PARSE_ARG(clargs, args[i], args[i + 1]);
        if stored.Ok? {
          assert !IsFlag(args[i][1..]);
          KeysUndashed(args, i + 2, stored.value);
        }
      }
    }
  }

  /** As written, the configuration always comes from the default path. */
  lemma ConfLookupMisses(args: seq<string>)
    requires ParseFrom(args, 0, map[], PARSE_ARG).Ok?
    ensures ConfPathAsWritten(ParseFrom(args, 0, map[], PARSE_ARG).value) == DEFAULT_CONF_PATH
  {
    KeysUndashed(args, 0, map[]);
    assert IsFlag("-conf");
  }

  /** The arguments `-conf my.conf` store "my.conf" under "conf", which the
      lookup as written misses and the intended one finds. */
  lemma ConfFlagIgnored()
    ensures ParseFrom(["-conf", "my.conf"], 0, map[], PARSE_ARG) == Ok(map["conf" := "my.conf"])
    ensures ConfPathAsWritten(map["conf" := "my.conf"]) == DEFAULT_CONF_PATH
    ensures ConfPathIntended(map["conf" := "my.conf"]) == "my.conf"
  {
    assert "-conf"[1..] == "conf";
    assert ["-conf", "my.conf"][2..] == [];
  }

  /** With the intended lookup, a `-conf` flag set after arguments that
      parse cleanly names the configuration file; the last one wins. */
  lemma ConfFlagHonoured(xs: seq<string>, v: string)
    requires ParseFrom(xs, 0, map[], PARSE_ARG).Ok? && v != ""
    ensures ParseFrom(xs + ["-conf", v], 0, map[], PARSE_ARG) == Ok(ParseFrom(xs, 0, map[], PARSE_ARG).value["conf" := v])
    ensures ConfPathIntended(ParseFrom(xs + ["-conf", v], 0, map[], PARSE_ARG).value) == v
  {
    ParseAppend(xs, ["-conf", v], 0, map[], PARSE_ARG);
    var m := ParseFrom(xs, 0, map[], PARSE_ARG).value;
    assert "-conf"[1..] == "conf";
    assert ["-conf", v][2..] == [];
    assert ParseFrom(["-conf", v], 2, m["conf" := v], PARSE_ARG) == Ok(m["conf" := v]);
  }

  /** How `main` ends, given the arguments, the configuration files, the
      environment of the network interface's start-up, a failure to start
      its executor, the server thread's id tag and whether the server's
      fault interrupts the main thread before its first test. */
  function MainOutcome(args: seq<string>, files: map<string, map<string, string>>, env: InitEnv,
                       execFails: Option<Throwable>, thread: string, early: bool): Outcome
  {
    var parsed := ParseFrom(args, 0, map[], PARSE_ARG);
    if parsed.Throws? then Uncaught(if parsed.error == Jdk(Usage) then USAGE_ERROR else parsed.error)
    else
      var conf := Config.Load(files, ConfPathAsWritten(parsed.value));
      if conf.Throws? then Exit(-2, LOAD_FAILED)
      else AwaitAsWritten(FirstFault(ServerSteps(conf.value, env, execFails), thread), early)
  }

  /** `main` exits only with -2 (the default configuration file is missing)
      or -5 (a fault); with the file present and the interrupt not too
      early it exits -5 exactly when the server faults, and otherwise waits
      while the server runs. */
  lemma MainExits(args: seq<string>, files: map<string, map<string, string>>, env: InitEnv,
                  execFails: Option<Throwable>, thread: string, early: bool)
    ensures MainOutcome(args, files, env, execFails, thread, early).Exit? ==>
              MainOutcome(args, files, env, execFails, thread, early).status in {-2, -5}
    ensures ParseFrom(args, 0, map[], PARSE_ARG).Ok? ==>
              (MainOutcome(args, files, env, execFails, thread, early) == Exit(-2, LOAD_FAILED) <==> DEFAULT_CONF_PATH !in files)
    ensures ParseFrom(args, 0, map[], PARSE_ARG).Ok? && DEFAULT_CONF_PATH in files && !early ==>
              var c := Config.Configuration(files[DEFAULT_CONF_PATH]);
              && (MainOutcome(args, files, env, execFails, thread, early) == Waits <==> InitOutcome(c, env).Ok? && execFails.None?)
              && (InitOutcome(c, env).Throws? ==>
                    MainOutcome(args, files, env, execFails, thread, early) == Exit(-5, "failed to initialize netcomp"))
  {
    var parsed := ParseFrom(args, 0, map[], PARSE_ARG);
    if parsed.Ok? {
      ConfLookupMisses(args);
      if DEFAULT_CONF_PATH in files {
        ServerRunFault(Config.Configuration(files[DEFAULT_CONF_PATH]), env, execFails, thread);
      }
    }
  }

  /** `main(args)`. */
  method Start(args: seq<string>, files: map<string, map<string, string>>, env: InitEnv,
              execFails: Option<Throwable>, thread: string, early: bool) returns (outcome: Outcome)
    ensures outcome == MainOutcome(args, files, env, execFails, thread, early)
  {
    var parsed := ParseArgs(args, PARSE_ARG);
    if parsed.Throws? {
      if parsed.error == Jdk(Usage) {
        // `usage()` throws before `exit(-1, ...)`
        return Uncaught(USAGE_ERROR);
      }
      return Uncaught(parsed.error);
    }
    var conf := Config.Load(files, ConfPathAsWritten(parsed.value));
    if conf.Throws? {
      return Exit(-2, LOAD_FAILED);
    }
    var supervisor := new Supervisor();
    var context := new Context<Resource>.ServerContext(conf.value, supervisor);
    // `new Server(context)`: the context is not null, so `exit(-3, ...)` is not reached
    var server := new Server(context);
    var _ := server.Run(env, execFails, thread);
    return AwaitAsWritten(supervisor.fault, early);
  }
}
