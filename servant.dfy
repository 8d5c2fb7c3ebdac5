/** `Servant`: the variant of `Server` whose `run` goes through three steps,
    assembling the components, booting up and serving. Booting up is not
    implemented and always throws, so every run reports exactly one fault and
    serving is never reached. */
module Servants {
  import opened Lang
  import opened Contexts
  import opened Network
  import opened Servers
  import Config

  /** The step `serve()` is: starting the network interface's executor,
      whose failure (if any) is `execFails`, returns a fault noted "servant". */
  function ServeStep(execFails: Option<Throwable>): Result<Option<Fault>>
  {
    Ok(if execFails.Some? then Some(Fault(execFails.value, "servant")) else None)
  }

  /** The steps of `Servant.run`: assemble, bootup, serve. */
  function ServantSteps(c: Config.Configuration, env: InitEnv, execFails: Option<Throwable>): seq<Result<Option<Fault>>>
  {
    [Ok(ComponentsFault(c, env)), Throws(BOOTUP_ERROR), ServeStep(execFails)]
  }

  /** `Servant.run` always reports a fault: assembling's when it fails, else
      the one `bootup` throws; what serving would do never matters. */
  lemma ServantRunFault(c: Config.Configuration, env: InitEnv, execFails: Option<Throwable>, thread: string)
    ensures FirstFault(ServantSteps(c, env, execFails), thread)
            == Some(if ComponentsFault(c, env).Some? then ComponentsFault(c, env).value else Fault(BOOTUP_ERROR, thread))
  {
    var a, b := Ok(ComponentsFault(c, env)), Throws(BOOTUP_ERROR);
    FirstFaultTwo(a, b, thread);
    FirstFaultIgnoresRest([a, b], [ServeStep(execFails)], thread);
    assert [a, b] + [ServeStep(execFails)] == ServantSteps(c, env, execFails);
  }

  /** `Servant`: its context (a `Context.Tree` over the one it is given) and
      the network interface it assembles. */
  class Servant {
    const context: Context<Resource>
    var netcomp: NetworkInterface?

    ghost predicate Valid()
    {
      context.Valid()
    }

    constructor (parent: Context<Resource>)
      requires parent.Valid()
      ensures Valid() && fresh(context) && context.parent == parent && context.bindings == map[]
      ensures context.config == parent.config && context.supervisor == parent.supervisor
      ensures netcomp == null
    {
      context := new Context<Resource>.Tree(parent);
      netcomp := null;
    }

    /** `assemble()`: build the network interface over this context and
        initialize it; bind it under "network.interface" only when that
        succeeds. */
    method Assemble(env: InitEnv) returns (fault: Option<Fault>)
      requires Valid()
      modifies this`netcomp, context
      ensures netcomp != null && fresh(netcomp) && fresh(netcomp.context) && netcomp.context.parent == context
      ensures fault == ComponentsFault(context.config, env)
      ensures fault.Some? ==> context.bindings == old(context.bindings)
      ensures fault.None? ==>
                && context.bindings == old(context.bindings)[Config.Id(Config.NetworkInterface) := Some(NetComp)]
                && context.Get(Config.Id(Config.NetworkInterface)) == Some(NetComp)
    {
      netcomp := new NetworkInterface(context);
      var r := netcomp.Initialize(env);
      if r.Throws? {
        return Some(Fault(r.error, "failed to initialize netcomp"));
      }
      var _ := context.Bind(Config.Id(Config.NetworkInterface), Some(NetComp));
      return None;
    }

    /** `bootup()`: not implemented, it always throws. */
    method Bootup() returns (r: Result<Option<Fault>>)
      ensures r == Throws(BOOTUP_ERROR)
    {
      return Throws(BOOTUP_ERROR);
    }

    /** `serve()`: start the network interface's executor; a failure is
        returned as a fault. */
    method Serve(execFails: Option<Throwable>) returns (fault: Option<Fault>)
      ensures ServeStep(execFails) == Ok(fault)
      ensures fault.Some? <==> execFails.Some?
    {
      if execFails.Some? {
        return Some(Fault(execFails.value, "servant"));
      }
      return None;
    }

    /** `run()`: assemble, bootup, serve; the first fault is reported to the
        context and ends the run. */
    method Run(env: InitEnv, execFails: Option<Throwable>, thread: string) returns (started: bool)
      requires Valid()
      modifies this`netcomp, context, context.supervisor
      ensures !started
      ensures context.supervisor.fault == FirstFault(ServantSteps(context.config, env, execFails), thread)
      ensures context.supervisor.interrupted
      ensures context.supervisor.reports == old(context.supervisor.reports) + 1
    {
      ServantRunFault(context.config, env, execFails, thread);
      var fault := Assemble(env);
      if fault.Some? {
        context.OnError(fault.value);
        return false;
      }
      var booted := Bootup();
      if booted.Throws? {
        context.OnError(Fault(booted.error, thread));
        return false;
      }
      // `bootup` never returns normally, so `serve` is not reached
      assert false;
    }
  }
}
