/** `Servant.Context` / `Server.Context`: the root context `Main` builds
    (a flat map, the configuration and the fault slot of the main thread) and
    the hierarchical `Context.Tree` every component wraps around its parent's
    context. */
module Contexts {
  import opened Lang
  import opened Config

  /** `Servant.Fault` / `Server.Fault`: the trapped throwable and a note. */
  datatype Fault = Fault(t: Throwable, info: string)

  /** The main thread as the root context sees it: `Main`'s one-element
      `fault` array and the thread's interrupt status. */
  class Supervisor {
    var fault: Option<Fault>
    var interrupted: bool
    /** How many faults have reached the root context. */
    ghost var reports: nat

    constructor ()
      ensures fault == None && !interrupted && reports == 0
    {
      fault := None;
      interrupted := false;
      reports := 0;
    }
  }

  /** A context: its own bindings (a Java `HashMap`, whose values may be null)
      and either no parent (the root context of `Main.newServerContext`, which
      holds the configuration and reports to the supervisor) or a parent it
      delegates to (`Context.Tree`). */
  class Context<V> {
    var bindings: map<string, Option<V>>
    const parent: Context?<V>
    const config: Configuration
    const supervisor: Supervisor
    ghost const depth: nat
    ghost const ancestors: set<Context<V>>

    ghost predicate Valid()
      decreases depth
    {
      && (forall a :: a in ancestors ==> a.depth < depth)
      && (parent == null ==> ancestors == {})
      && (parent != null ==>
            && ancestors == {parent} + parent.ancestors
            && supervisor == parent.supervisor
            && config == parent.config
            && parent.Valid())
    }

    /** `newServerContext(owner, config, fault)`: the root context. */
    constructor ServerContext(config: Configuration, supervisor: Supervisor)
      ensures Valid() && parent == null && bindings == map[]
      ensures this.config == config && this.supervisor == supervisor
    {
      bindings := map[];
      parent := null;
      this.config := config;
      this.supervisor := supervisor;
      depth := 0;
      ancestors := {};
    }

    /** `new Context.Tree(parent)`. */
    constructor Tree(parent: Context<V>)
      requires parent.Valid()
      ensures Valid() && this.parent == parent && bindings == map[]
      ensures supervisor == parent.supervisor && config == parent.config && Root() == parent.Root()
    {
      bindings := map[];
      this.parent := parent;
      config := parent.config;
      supervisor := parent.supervisor;
      depth := parent.depth + 1;
      ancestors := {parent} + parent.ancestors;
    }

    /** The root of the chain of parents. */
    ghost function Root(): (root: Context<V>)
      requires Valid()
      decreases depth
      ensures root.parent == null && root.supervisor == supervisor && root.config == config
      ensures root == this || root in ancestors
    {
      if parent == null then this else parent.Root()
    }

    /** `map.get(k)`: the local value, null when absent. */
    function Local(k: string): Option<V>
      reads this
    {
      if k in bindings then bindings[k] else None
    }

    /** `get(k)`: a non-null local value, else the parent's value for k; the
        root context looks in its own map only. */
    function Get(k: string): (r: Option<V>)
      requires Valid()
      reads this, ancestors
      decreases depth
      ensures Local(k).Some? ==> r == Local(k)
      ensures r.Some? ==> r == Local(k) || exists a :: a in ancestors && a.Local(k) == r
      ensures r.None? ==> Local(k).None? && forall a :: a in ancestors ==> a.Local(k).None?
      ensures Local(k).None? && parent != null ==> r == parent.Get(k)
    {
      if Local(k).Some? then Local(k)
      else if parent == null then None
      else parent.Get(k)
    }

    /** The contexts from this one up to the root, each followed by its parent. */
    ghost function Chain(): (c: seq<Context<V>>)
      requires Valid()
      decreases depth
      ensures |c| > 0 && c[0] == this && c[|c| - 1].parent == null
      ensures forall i :: 0 <= i < |c| - 1 ==> c[i].parent == c[i + 1]
    {
      if parent == null then [this] else [this] + parent.Chain()
    }

    /** `get(k)` answers with the nearest context along the chain to the root
        that holds a non-null value for k, and null when none does. */
    lemma {:induction false} GetNearest(k: string)
      requires Valid()
      decreases depth
      ensures Get(k).None? <==> forall i :: 0 <= i < |Chain()| ==> Chain()[i].Local(k).None?
      ensures Get(k).Some? ==>
                exists i :: 0 <= i < |Chain()| && Chain()[i].Local(k) == Get(k)
                            && forall j :: 0 <= j < i ==> Chain()[j].Local(k).None?
    {
      GetMissing(k);
      if Get(k).Some? {
        GetFound(k);
      }
    }

    /** The lookup misses exactly when no context on the chain holds the key. */
    lemma {:induction false} GetMissing(k: string)
      requires Valid()
      decreases depth
      ensures Get(k).None? <==> forall i :: 0 <= i < |Chain()| ==> Chain()[i].Local(k).None?
    {
      var c := Chain();
      if Local(k).Some? {
        assert Chain()[0].Local(k).Some?;
      } else if parent != null {
        parent.GetMissing(k);
        var pc := parent.Chain();
        assert c == [this] + pc;
        if parent.Get(k).None? {
          forall i | 0 <= i < |c| ensures c[i].Local(k).None? {
            if i > 0 {
              assert c[i] == pc[i - 1];
              assert parent.Chain()[i - 1].Local(k).None?;
            } else {
              assert c[0] == this;
            }
          }
        } else {
          var i :| 0 <= i < |pc| && pc[i].Local(k).Some?;
          assert c[i + 1] == pc[i];
        }
      }
    }

    /** A hit comes from the first context on the chain that holds the key. */
    lemma {:induction false} GetFound(k: string)
      requires Valid() && Get(k).Some?
      decreases depth
      ensures exists i :: 0 <= i < |Chain()| && Chain()[i].Local(k) == Get(k)
                          && forall j :: 0 <= j < i ==> Chain()[j].Local(k).None?
    {
      var c := Chain();
      if Local(k).Some? {
        assert c[0].Local(k) == Get(k);
      } else {
        parent.GetFound(k);
        var pc := parent.Chain();
        assert c == [this] + pc;
        var i :| 0 <= i < |pc| && pc[i].Local(k) == parent.Get(k)
                 && forall j :: 0 <= j < i ==> pc[j].Local(k).None?;
        assert c[i + 1] == pc[i];
        forall j | 0 <= j < i + 1 ensures c[j].Local(k).None? {
          if j > 0 {
            assert c[j] == pc[j - 1];
          }
        }
      }
    }

    /** `bind(k, v)`: stores v under k in this context's own map and returns the
        previous local value. */
    method Bind(k: string, v: Option<V>) returns (prev: Option<V>)
      requires Valid()
      modifies this
      ensures prev == old(Local(k))
      ensures bindings == old(bindings)[k := v]
      ensures v.Some? ==> Get(k) == v
      ensures v.None? && parent != null ==> Get(k) == parent.Get(k)
      ensures forall j :: j != k ==> Get(j) == old(Get(j))
      ensures parent != null ==> forall j :: parent.Get(j) == old(parent.Get(j))
    {
      prev := Local(k);
      bindings := bindings[k := v];
    }

    /** `getProperty(prop)`: the root's configuration answers. */
    function GetProperty(prop: Option<Property>): (r: Result<string>)
      requires Valid()
      decreases depth
      ensures r == Root().config.Get(prop)
    {
      if parent == null then config.Get(prop) else parent.GetProperty(prop)
    }

    /** `onError(f)`: passed up the chain; the root stores f in the fault slot
        (the last report wins) and interrupts the main thread. */
    method OnError(f: Fault)
      requires Valid()
      modifies supervisor
      decreases depth
      ensures supervisor.fault == Some(f) && supervisor.interrupted
      ensures supervisor.reports == old(supervisor.reports) + 1
    {
      if parent == null {
        supervisor.fault := Some(f);
        supervisor.interrupted := true;
        supervisor.reports := supervisor.reports + 1;
      } else {
        parent.OnError(f);
      }
    }
  }

  /** A key bound to null in a child falls through to the parent, and a
      non-null binding shadows it. */
  method ShadowingExample(config: Configuration, supervisor: Supervisor) returns (hidden: Option<int>, shown: Option<int>)
    ensures hidden == Some(1) && shown == Some(2)
  {
    var root := new Context<int>.ServerContext(config, supervisor);
    var _ := root.Bind("k", Some(1));
    var child := new Context<int>.Tree(root);
    var _ := child.Bind("k", None);
    hidden := child.Get("k");
    var _ := child.Bind("k", Some(2));
    shown := child.Get("k");
  }
}
