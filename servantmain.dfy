/** `ove.x0ff5e7db.Main`: parse the command line into `Option` keys, load
    the configuration, build the root context and a `Servant` over it, run
    the servant, and exit when it reports a fault. */
module ServantMain {
  import opened Lang
  import opened Contexts
  import opened Network
  import opened Servers
  import opened Servants
  import opened CommandLine
  import Config

  /** `Main.Option`: the one option, `conf`. */
  datatype OptionName = Conf

  /** `Option.valueOf(name)`: only "conf" names an option. */
  function OptionValueOf(name: string): (r: Result<OptionName>)
    ensures r.Ok? <==> name == "conf"
    ensures r.Throws? ==> r.error == Thrown(IllegalArgument, "No enum constant ove.x0ff5e7db.Main.Option." + name)
  {
    if name == "conf" then Ok(Conf) else Throws(Thrown(IllegalArgument, "No enum constant ove.x0ff5e7db.Main.Option." + name))
  }

  /** `parseArg(clargs, arg, argv)`: check the flag and the value, then store
      the value under the option the flag names. */
  function ParseArg(clargs: map<OptionName, string>, arg: string, argv: Option<string>): (r: Result<map<OptionName, string>>)
    ensures r.Ok? <==> arg == "-conf" && argv.Some? && argv.value != ""
    ensures r.Ok? ==> r.value == clargs[Conf := argv.value]
    ensures CheckedName(arg, argv).Throws? ==> r == Throws(CheckedName(arg, argv).error)
  {
    var name := CheckedName(arg, argv);
    if name.Throws? then Throws(name.error)
    else
      var opt := OptionValueOf(name.value);
      if opt.Throws? then Throws(opt.error) else Ok(clargs[opt.value := argv.value])
  }

  /** `parseArg` as `parseArgs` calls it, with a value read from `args`. */
  const PARSE_ARG: (map<OptionName, string>, string, string) -> Result<map<OptionName, string>> :=
    (clargs, arg, argv) => ParseArg(clargs, arg, Some(argv))

  /** The configuration path: the `conf` option, else the default. */
  function ConfPath(clargs: map<OptionName, string>): string
  {
    if Conf in clargs then clargs[Conf] else DEFAULT_CONF_PATH
  }

  /** A `-conf` flag set after arguments that parse cleanly names the
      configuration file; a repeated flag keeps its last value. */
  lemma ConfFlagSets(xs: seq<string>, v: string)
    requires ParseFrom(xs, 0, map[], PARSE_ARG).Ok? && v != ""
    ensures ParseFrom(xs + ["-conf", v], 0, map[], PARSE_ARG) == Ok(ParseFrom(xs, 0, map[], PARSE_ARG).value[Conf := v])
    ensures ConfPath(ParseFrom(xs + ["-conf", v], 0, map[], PARSE_ARG).value) == v
  {
    ParseAppend(xs, ["-conf", v], 0, map[], PARSE_ARG);
    var m := ParseFrom(xs, 0, map[], PARSE_ARG).value;
    assert ["-conf", v][2..] == [];
    assert ParseFrom(["-conf", v], 2, m[Conf := v], PARSE_ARG) == Ok(m[Conf := v]);
  }

  /** Without a `-conf` argument the configuration comes from the default path. */
  lemma {:induction false} NoConfFlag(args: seq<string>, i: nat, clargs: map<OptionName, string>)
    requires forall j :: i <= j < |args| ==> args[j] != "-conf"
    requires Conf !in clargs
    ensures ParseFrom(args, i, clargs, PARSE_ARG).Ok? ==> ConfPath(ParseFrom(args, i, clargs, PARSE_ARG).value) == DEFAULT_CONF_PATH
    decreases |args| - i
  {
    if i < |args| {
      if IsDirective(args[i]) {
        NoConfFlag(args, i + 1, clargs);
      } else if IsFlag(args[i]) && i + 1 < |args| {
        var stored := ParseArg(clargs, args[i], Some(args[i + 1]));
        assert stored.Throws?;
      }
    }
  }

  /** How `main` ends, given the arguments, the configuration files, the
      environment of the network interface's start-up, a failure to start
      its executor, the server thread's id tag and whether the servant's
      fault interrupts the main thread before its first test. */
  function MainOutcome(args: seq<string>, files: map<string, map<string, string>>, env: InitEnv,
                       execFails: Option<Throwable>, thread: string, early: bool): Outcome
  {
    var parsed := ParseFrom(args, 0, map[], PARSE_ARG);
    if parsed.Throws? then Uncaught(if parsed.error == Jdk(Usage) then USAGE_ERROR else parsed.error)
    else
      var conf := Config.Load(files, ConfPath(parsed.value));
      if conf.Throws? then Exit(-2, LOAD_FAILED)
      else AwaitAsWritten(FirstFault(ServantSteps(conf.value, env, execFails), thread), early)
  }

  /** `main` exits only with -2 (configuration) or -5 (a fault): a usage
      error escapes from `usage()`, and constructing the servant cannot fail.
      Once the configuration loads, the servant's fault (assembling's or
      bootup's) ends `main` with -5 unless the interrupt came too early. */
  lemma MainExits(args: seq<string>, files: map<string, map<string, string>>, env: InitEnv,
                  execFails: Option<Throwable>, thread: string, early: bool)
    ensures MainOutcome(args, files, env, execFails, thread, early).Exit? ==>
              MainOutcome(args, files, env, execFails, thread, early).status in {-2, -5}
    ensures MainOutcome(args, files, env, execFails, thread, early) != Waits <==>
              (!early || ParseFrom(args, 0, map[], PARSE_ARG).Throws?
               || Config.Load(files, ConfPath(ParseFrom(args, 0, map[], PARSE_ARG).value)).Throws?)
    ensures ParseFrom(args, 0, map[], PARSE_ARG).Ok? && ConfPath(ParseFrom(args, 0, map[], PARSE_ARG).value) in files && !early ==>
              var c := Config.Configuration(files[ConfPath(ParseFrom(args, 0, map[], PARSE_ARG).value)]);
              MainOutcome(args, files, env, execFails, thread, early)
              == Exit(-5, if InitOutcome(c, env).Throws? then "failed to initialize netcomp" else thread)
  {
    var parsed := ParseFrom(args, 0, map[], PARSE_ARG);
    if parsed.Ok? && ConfPath(parsed.value) in files {
      ServantRunFault(Config.Configuration(files[ConfPath(parsed.value)]), env, execFails, thread);
    }
  }

  /** `main(args)`. */
  method Start(args: seq<string>, files: map<string, map<string, string>>, env: InitEnv,
              execFails: Option<Throwable>, thread: string, early: bool) returns (outcome: Outcome)
    ensures outcome == MainOutcome(args, files, env, execFails, thread, early)
  {
    var parsed := ParseArgs(args, PARSE_ARG);
    if parsed.Throws? {
      if parsed.error == Jdk(Usage) {
        // `usage()` throws before `exit(-1, ...)`
        return Uncaught(USAGE_ERROR);
      }
      return Uncaught(parsed.error);
    }
    var conf := Config.Load(files, ConfPath(parsed.value));
    if conf.Throws? {
      return Exit(-2, LOAD_FAILED);
    }
    var supervisor := new Supervisor();
    var context := new Context<Resource>.ServerContext(conf.value, supervisor);
    // `new Servant(context)`: the context is not null, so `exit(-3, ...)` is not reached
    var servant := new Servant(context);
    var _ := servant.Run(env, execFails, thread);
    return AwaitAsWritten(supervisor.fault, early);
  }
}
