/** `Server`: the component that builds the network interface under its own
    context and starts it, and the `run` sequencing shared with `Servant`:
    steps run in order, the first one that faults is reported to the context
    once and ends `run`. */
module Servers {
  import opened Lang
  import opened Contexts
  import opened Network
  import Config

  // ------------------------------------------------------------------------
  // Step sequencing of `run`
  // ------------------------------------------------------------------------

  /** What `run` reports for one step: the fault the step returned, or the
      throwable it threw wrapped in a fault whose note is the thread id. */
  function Reported(step: Result<Option<Fault>>, thread: string): Option<Fault>
  {
    match step
    case Ok(f) => f
    case Throws(t) => Some(Fault(t, thread))
  }

  /** The fault `run` reports for steps taken in order: that of the first
      step that faults, none when every step passes. */
  function FirstFault(steps: seq<Result<Option<Fault>>>, thread: string): (r: Option<Fault>)
    ensures r.Some? ==> exists i :: 0 <= i < |steps| && Reported(steps[i], thread) == r
    ensures r.None? ==> forall i :: 0 <= i < |steps| ==> Reported(steps[i], thread).None?
  {
    if steps == [] then None
    else if Reported(steps[0], thread).Some? then Reported(steps[0], thread)
    else FirstFault(steps[1..], thread)
  }

  /** No fault is reported exactly when every step passes; a reported fault
      is that of a step all of whose predecessors passed. */
  lemma {:induction false} FirstFaultIsFirst(steps: seq<Result<Option<Fault>>>, thread: string)
    ensures FirstFault(steps, thread).None? <==> forall i :: 0 <= i < |steps| ==> Reported(steps[i], thread).None?
    ensures FirstFault(steps, thread).Some? ==>
              exists i :: 0 <= i < |steps| && Reported(steps[i], thread) == FirstFault(steps, thread)
                          && forall j :: 0 <= j < i ==> Reported(steps[j], thread).None?
  {
    if steps != [] && Reported(steps[0], thread).None? {
      FirstFaultIsFirst(steps[1..], thread);
      assert forall i :: 1 <= i < |steps| ==> steps[i] == steps[1..][i - 1];
      if FirstFault(steps, thread).Some? {
        var i :| 0 <= i < |steps[1..]| && Reported(steps[1..][i], thread) == FirstFault(steps, thread)
                 && forall j :: 0 <= j < i ==> Reported(steps[1..][j], thread).None?;
        assert Reported(steps[i + 1], thread) == FirstFault(steps, thread);
        assert forall j :: 0 <= j < i + 1 ==> Reported(steps[j], thread).None? by {
          forall j | 0 <= j < i + 1 ensures Reported(steps[j], thread).None? {
            if j > 0 {
              assert steps[j] == steps[1..][j - 1];
            }
          }
        }
      }
    }
  }

  /** Steps after the first that faults do not matter. */
  lemma {:induction false} FirstFaultIgnoresRest(steps: seq<Result<Option<Fault>>>, rest: seq<Result<Option<Fault>>>, thread: string)
    requires FirstFault(steps, thread).Some?
    ensures FirstFault(steps + rest, thread) == FirstFault(steps, thread)
  {
    assert steps != [];
    assert (steps + rest)[0] == steps[0];
    if Reported(steps[0], thread).None? {
      assert (steps + rest)[1..] == steps[1..] + rest;
      FirstFaultIgnoresRest(steps[1..], rest, thread);
    }
  }

  /** The fault `initializeComponents` (and `Servant.assemble`) returns for
      a configuration and an environment: a failed `initialize` is wrapped
      with the note "failed to initialize netcomp". */
  function ComponentsFault(c: Config.Configuration, env: InitEnv): Option<Fault>
  {
    var outcome := InitOutcome(c, env);
    if outcome.Throws? then Some(Fault(outcome.error, "failed to initialize netcomp")) else None
  }

  /** The steps of `Server.run`: initializing the components, then starting
      the network interface's executor, whose failure (if any) is `execFails`. */
  function ServerSteps(c: Config.Configuration, env: InitEnv, execFails: Option<Throwable>): seq<Result<Option<Fault>>>
  {
    [Ok(ComponentsFault(c, env)), if execFails.Some? then Throws(execFails.value) else Ok(None)]
  }

  /** `Server.run` reports a fault iff the components fail to initialize or
      the executor fails to start, the components' fault taking precedence. */
  lemma ServerRunFault(c: Config.Configuration, env: InitEnv, execFails: Option<Throwable>, thread: string)
    ensures FirstFault(ServerSteps(c, env, execFails), thread).None? <==> InitOutcome(c, env).Ok? && execFails.None?
    ensures InitOutcome(c, env).Throws? ==>
              FirstFault(ServerSteps(c, env, execFails), thread)
              == Some(Fault(InitOutcome(c, env).error, "failed to initialize netcomp"))
    ensures InitOutcome(c, env).Ok? && execFails.Some? ==>
              FirstFault(ServerSteps(c, env, execFails), thread) == Some(Fault(execFails.value, thread))
  {
    FirstFaultTwo(ServerSteps(c, env, execFails)[0], ServerSteps(c, env, execFails)[1], thread);
  }

  /** Two steps: the first one's fault, else the second one's. */
  lemma FirstFaultTwo(a: Result<Option<Fault>>, b: Result<Option<Fault>>, thread: string)
    ensures FirstFault([a, b], thread) == if Reported(a, thread).Some? then Reported(a, thread) else Reported(b, thread)
  {
    assert [a, b][1..] == [b] && [b][1..] == [];
    assert FirstFault([b], thread) == Reported(b, thread);
  }

  /** The error `bootup` always throws. */
  const BOOTUP_ERROR := Thrown(Runtime, "Server#bootup is not implemented!")

  // ------------------------------------------------------------------------
  // Component.Base
  // ------------------------------------------------------------------------

  /** `Server.Component.Base`: a settable context and a no-op `initialize`. */
  class ComponentBase {
    var context: Context?<Resource>

    constructor ()
      ensures context == null
    {
      context := null;
    }

    /** `setContext(context)`. */
    method SetContext(c: Context?<Resource>)
      modifies this`context
      ensures context == c
    {
      context := c;
    }

    /** `initialize()`: the component itself. */
    method Initialize() returns (r: Result<ComponentBase>)
      ensures r.Ok? && r.value == this
    {
      return Ok(this);
    }
  }

  // ------------------------------------------------------------------------
  // Server
  // ------------------------------------------------------------------------

  /** `Server`: its context (a `Context.Tree` over the one it is given) and
      the network interface it builds. */
  class Server {
    const context: Context<Resource>
    var netcomp: NetworkInterface?

    ghost predicate Valid()
    {
      context.Valid()
    }

    constructor (parent: Context<Resource>)
      requires parent.Valid()
      ensures Valid() && fresh(context) && context.parent == parent && context.bindings == map[]
      ensures context.config == parent.config && context.supervisor == parent.supervisor
      ensures netcomp == null
    {
      context := new Context<Resource>.Tree(parent);
      netcomp := null;
    }

    /** `new Server(context)`: a null context fails the `notNull` check. */
    static method Create(parent: Context?<Resource>) returns (r: Result<Server>)
      requires parent != null ==> parent.Valid()
      ensures parent == null ==> r == Throws(Thrown(IllegalArgument, "null reference:{" + "context" + "}"))
      ensures parent != null ==>
                && r.Ok? && fresh(r.value) && r.value.Valid() && r.value.netcomp == null
                && fresh(r.value.context) && r.value.context.parent == parent && r.value.context.bindings == map[]
                && r.value.context.config == parent.config && r.value.context.supervisor == parent.supervisor
    {
      if parent == null {
        return Throws(Thrown(IllegalArgument, "null reference:{" + "context" + "}"));
      }
      var s := new Server(parent);
      return Ok(s);
    }

    /** `initializeComponents()`: build the network interface over this
        context and initialize it; bind it under "network.interface" only
        when that succeeds. */
    method InitializeComponents(env: InitEnv) returns (fault: Option<Fault>)
      requires Valid()
      modifies this`netcomp, context
      ensures netcomp != null && fresh(netcomp) && fresh(netcomp.context) && netcomp.context.parent == context
      ensures fault == ComponentsFault(context.config, env)
      ensures fault.Some? ==> context.bindings == old(context.bindings)
      ensures fault.None? ==>
                && context.bindings == old(context.bindings)[Config.Id(Config.NetworkInterface) := Some(NetComp)]
                && context.Get(Config.Id(Config.NetworkInterface)) == Some(NetComp)
    {
      netcomp := new NetworkInterface(context);
      var r := netcomp.Initialize(env);
      if r.Throws? {
        return Some(Fault(r.error, "failed to initialize netcomp"));
      }
      var _ := context.Bind(Config.Id(Config.NetworkInterface), Some(NetComp));
      return None;
    }

    /** `bootup()`: not implemented, it always throws. */
    method Bootup() returns (r: Result<()>)
      ensures r == Throws(BOOTUP_ERROR)
    {
      return Throws(BOOTUP_ERROR);
    }

    /** `run()`: initialize the components, then start the network
        interface's executor; the first fault is reported to the context
        and ends the run. */
    method Run(env: InitEnv, execFails: Option<Throwable>, thread: string) returns (started: bool)
      requires Valid()
      modifies this`netcomp, context, context.supervisor
      ensures started <==> FirstFault(ServerSteps(context.config, env, execFails), thread).None?
      ensures started ==>
                && context.supervisor.fault == old(context.supervisor.fault)
                && context.supervisor.reports == old(context.supervisor.reports)
      ensures !started ==>
                && context.supervisor.fault == FirstFault(ServerSteps(context.config, env, execFails), thread)
                && context.supervisor.interrupted
                && context.supervisor.reports == old(context.supervisor.reports) + 1
    {
      ServerRunFault(context.config, env, execFails, thread);
      var fault := InitializeComponents(env);
      if fault.Some? {
        context.OnError(fault.value);
        return false;
      }
      if execFails.Some? {
        context.OnError(Fault(execFails.value, thread));
        return false;
      }
      return true;
    }
  }
}
