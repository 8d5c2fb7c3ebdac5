/** `NetworkInterface`: the server's network front end. `initialize` opens the
    listening socket and three selectors and binds them, with the handlers, in
    the component's own context; `run` is a reactor that polls the write, read
    and accept selectors in turn and hands each selected key to the handler
    attached to it.

    Sockets and selectors are not opened here: every JDK call that can fail is
    a flag of the environment the caller passes in, selector readiness is a
    sequence of ready keys per pass, and channels are plain numbers. */
module Network {
  import opened Lang
  import opened JavaInt
  import opened Decimal
  import opened Contexts
  import Config
  import Assert

  // ------------------------------------------------------------------------
  // Entities
  // ------------------------------------------------------------------------

  /** The three selectors of the reactor. */
  datatype SelectorRole = WriteSelector | ReadSelector | AcceptSelector

  /** The order in which `run` polls the selectors in every pass. */
  const ORDER: seq<SelectorRole> := [WriteSelector, ReadSelector, AcceptSelector]

  /** The position of a selector in `ORDER`. */
  function Rank(role: SelectorRole): (n: nat)
    ensures n < |ORDER| && ORDER[n] == role
  {
    match role
    case WriteSelector => 0
    case ReadSelector => 1
    case AcceptSelector => 2
  }

  /** The context binding a selector is stored under. */
  function SelectorBinding(role: SelectorRole): Config.CtxBinding
  {
    match role
    case WriteSelector => Config.WriteSelector
    case ReadSelector => Config.ReadSelector
    case AcceptSelector => Config.AcceptSelector
  }

  /** `AcceptHandler`, `RequestHandler` and `ResponseHandler`. */
  datatype HandlerKind = AcceptHandler | RequestHandler | ResponseHandler

  /** The context binding a handler is stored under. */
  function HandlerBinding(h: HandlerKind): Config.CtxBinding
  {
    match h
    case AcceptHandler => Config.AcceptHandler
    case RequestHandler => Config.RequestHandler
    case ResponseHandler => Config.ResponseHandler
  }

  /** The values the server's contexts hold: the listening channel, the
      selectors, the handlers and the network component itself. */
  datatype Resource =
    | ServerChannel(port: i32)
    | SelectorOf(role: SelectorRole)
    | HandlerOf(kind: HandlerKind)
    | NetComp

  type ChannelId = nat

  /** The listening channel; accepted channels get ids from the environment. */
  const SERVER_CHANNEL: ChannelId := 0

  /** `SelectionKey.OP_ACCEPT` and `SelectionKey.OP_READ`. */
  datatype Interest = OpAccept | OpRead

  /** `channel.register(selector, ops, attachment)`; a null attachment is `None`. */
  datatype Registration = Registration(channel: ChannelId, interest: Interest, attachment: Option<HandlerKind>)

  /** A selected key: its channel, its attachment and its ready operations. */
  datatype Key = Key(channel: ChannelId, attachment: Option<HandlerKind>, acceptable: bool, readable: bool)

  /** A selector: the channels registered with it and its selected-key set, in
      the order its iterator returns them. */
  datatype SelectorState = SelectorState(registered: seq<Registration>, selected: seq<Key>)

  /** Everything a pass of the reactor reads or changes: the opened selectors,
      the handlers bound in the context, and the channels closed so far. */
  datatype Reactor = Reactor(selectors: map<SelectorRole, SelectorState>, handlers: set<HandlerKind>, closed: set<ChannelId>)

  /** The listening socket: not opened, opened, or bound to a port. */
  datatype Socket = Unopened | Open | Bound(port: i32)

  // ------------------------------------------------------------------------
  // Handlers
  // ------------------------------------------------------------------------

  /** What a handler did: a channel it registered with the read selector, a
      channel it closed, and how it returned. */
  datatype Handled = Handled(register: Option<Registration>, close: Option<ChannelId>, outcome: Result<()>)

  /** `AcceptHandler.handle(key)`: accepts the pending connection (`accepted`,
      `None` when `accept()` returns null; its I/O failures are folded in here)
      and registers it, non-blocking, with the read selector for reads,
      attaching the request handler found in the context (`reqhdlr`, null
      when none is bound). */
  function AcceptHandle(key: Key, accepted: Option<ChannelId>, reqhdlr: Option<HandlerKind>, readOpen: bool): (h: Handled)
    ensures h.outcome.Ok? <==> key.acceptable && accepted.Some? && readOpen
    ensures h.register.Some? <==> h.outcome.Ok?
    ensures h.register.Some? ==> h.register.value == Registration(accepted.value, OpRead, reqhdlr)
    ensures h.close.None?
    ensures !key.acceptable ==> h.outcome == Throws(Thrown(IllegalArgument, "its not true that \"" + "key should be acceptable" + "\""))
    ensures key.acceptable && h.outcome.Throws? ==> h.outcome.error == Jdk(NullPointer)
  {
    var check := Assert.IsTrue(key.acceptable, "key should be acceptable", IllegalArgument);
    if check.Throws? then Handled(None, None, Throws(check.error))
    // `accept()` found no pending connection: `configureBlocking` on null
    else if accepted.None? then Handled(None, None, Throws(Jdk(NullPointer)))
    // no read selector is bound: `register` on a null selector
    else if !readOpen then Handled(None, None, Throws(Jdk(NullPointer)))
    else Handled(Some(Registration(accepted.value, OpRead, reqhdlr)), None, Ok(()))
  }

  /** `RequestHandler.handle(key)`: closes the key's channel, then fails. */
  function RequestHandle(key: Key): (h: Handled)
    ensures h.outcome.Throws? && h.register.None?
    ensures h.close.Some? <==> key.readable
    ensures h.close.Some? ==> h.close.value == key.channel
    ensures !key.readable ==> h.outcome.error == Thrown(IllegalArgument, "its not true that \"" + "key should be readable" + "\"")
    ensures key.readable ==> h.outcome.error == Thrown(Runtime, "Handler#handle NOT IMPLEMENTED")
  {
    var check := Assert.IsTrue(key.readable, "key should be readable", IllegalArgument);
    if check.Throws? then Handled(None, None, Throws(check.error))
    else Handled(None, Some(key.channel), Throws(Thrown(Runtime, "Handler#handle NOT IMPLEMENTED")))
  }

  /** `ResponseHandler.handle(key)`: always fails, touching nothing. */
  function ResponseHandle(key: Key): (h: Handled)
    ensures h == Handled(None, None, Throws(Thrown(Runtime, "Handler#handle NOT IMPLEMENTED")))
  {
    Handled(None, None, Throws(Thrown(Runtime, "Handler#handle NOT IMPLEMENTED")))
  }

  /** `((Handler) k.attachment()).handle(k)` in reactor state st. */
  function Handle(st: Reactor, key: Key, accepted: Option<ChannelId>): (h: Handled)
    ensures key.attachment.None? ==> h == Handled(None, None, Throws(Jdk(NullPointer)))
    ensures h.register.Some? ==> key.attachment == Some(AcceptHandler) && ReadSelector in st.selectors
    ensures h.register.Some? ==> h.register.value.interest == OpRead
    ensures h.outcome.Ok? ==> key.attachment == Some(AcceptHandler)
  {
    match key.attachment
    case None => Handled(None, None, Throws(Jdk(NullPointer)))
    case Some(AcceptHandler) =>
      var reqhdlr := if RequestHandler in st.handlers then Some(RequestHandler) else None;
      AcceptHandle(key, accepted, reqhdlr, ReadSelector in st.selectors)
    case Some(RequestHandler) => RequestHandle(key)
    case Some(ResponseHandler) => ResponseHandle(key)
  }

  /** The effects of a handler on the reactor: a registration goes to the read
      selector, a close to the closed channels. */
  function Apply(st: Reactor, h: Handled): (r: Reactor)
    ensures r.selectors.Keys == st.selectors.Keys && r.handlers == st.handlers
    ensures forall role :: role in st.selectors ==> r.selectors[role].selected == st.selectors[role].selected
    ensures forall role :: role in st.selectors && role != ReadSelector ==> r.selectors[role] == st.selectors[role]
  {
    var selectors :=
      if h.register.Some? && ReadSelector in st.selectors then
        var rsel := st.selectors[ReadSelector];
        st.selectors[ReadSelector := rsel.(registered := rsel.registered + [h.register.value])]
      else st.selectors;
    var closed := if h.close.Some? then st.closed + {h.close.value} else st.closed;
    Reactor(selectors, st.handlers, closed)
  }

  // ------------------------------------------------------------------------
  // One pass of the reactor, as values
  // ------------------------------------------------------------------------

  /** What `selectNow()` does on a selector in one pass: it either fails or
      reports the keys whose channels became ready. */
  datatype Readiness = Ready(keys: seq<Key>) | SelectFails

  /** The world during one pass: each selector's readiness, and the connection
      an `accept()` in this pass would return. */
  datatype PassEnv = PassEnv(write: Readiness, read: Readiness, accept: Readiness, accepted: Option<ChannelId>)

  function ReadinessOf(env: PassEnv, role: SelectorRole): Readiness
  {
    match role
    case WriteSelector => env.write
    case ReadSelector => env.read
    case AcceptSelector => env.accept
  }

  /** A handler run: the selector whose key it was, the key, and how it returned. */
  datatype Dispatched = Dispatched(role: SelectorRole, key: Key, outcome: Result<()>)

  /** The outcome of visiting one selector: the new state, whether the
      dispatch completed without an exception, and the handlers run. */
  datatype Visited = Visited(after: Reactor, completed: bool, ran: seq<Dispatched>)

  /** The keys among ks whose channel is not closed, in their order. */
  function Live(ks: seq<Key>, closed: set<ChannelId>): (r: seq<Key>)
    ensures forall k :: k in r <==> k in ks && k.channel !in closed
    ensures |r| <= |ks|
    decreases |ks|
  {
    if ks == [] then []
    else if ks[0].channel in closed then Live(ks[1..], closed)
    else [ks[0]] + Live(ks[1..], closed)
  }

  /** The registrations among gs whose channel is not closed, in their order. */
  function LiveRegistrations(gs: seq<Registration>, closed: set<ChannelId>): (r: seq<Registration>)
    ensures forall g :: g in r <==> g in gs && g.channel !in closed
    ensures |r| <= |gs|
    decreases |gs|
  {
    if gs == [] then []
    else if gs[0].channel in closed then LiveRegistrations(gs[1..], closed)
    else [gs[0]] + LiveRegistrations(gs[1..], closed)
  }

  /** Filtering twice by the same closed channels filters once. */
  lemma {:induction false} LiveIdempotent(ks: seq<Key>, gs: seq<Registration>, closed: set<ChannelId>)
    ensures Live(Live(ks, closed), closed) == Live(ks, closed)
    ensures LiveRegistrations(LiveRegistrations(gs, closed), closed) == LiveRegistrations(gs, closed)
    decreases |ks| + |gs|
  {
    if ks != [] {
      LiveIdempotent(ks[1..], gs, closed);
      if ks[0].channel !in closed {
        assert ([ks[0]] + Live(ks[1..], closed))[1..] == Live(ks[1..], closed);
      }
    }
    if gs != [] {
      LiveIdempotent([], gs[1..], closed);
      if gs[0].channel !in closed {
        assert ([gs[0]] + LiveRegistrations(gs[1..], closed))[1..] == LiveRegistrations(gs[1..], closed);
      }
    }
  }

  /** The cancelled-key step of `selectNow()`: closing a channel cancels its
      keys, so the selector drops them from its selected-key set and
      deregisters the channel. */
  function Purge(sel: SelectorState, closed: set<ChannelId>): (r: SelectorState)
    ensures forall k :: k in r.selected <==> k in sel.selected && k.channel !in closed
    ensures forall g :: g in r.registered <==> g in sel.registered && g.channel !in closed
  {
    SelectorState(LiveRegistrations(sel.registered, closed), Live(sel.selected, closed))
  }

  /** A selector purged once has nothing left to purge. */
  lemma PurgeIdempotent(sel: SelectorState, closed: set<ChannelId>)
    ensures Purge(Purge(sel, closed), closed) == Purge(sel, closed)
  {
    LiveIdempotent(sel.selected, sel.registered, closed);
  }

  /** The reactor once the selector has dropped its cancelled keys. */
  function Purged(st: Reactor, role: SelectorRole): Reactor
    requires role in st.selectors
  {
    st.(selectors := st.selectors[role := Purge(st.selectors[role], st.closed)])
  }

  /** The selector is open and `selectNow()` on it does not throw. */
  predicate Polled(st: Reactor, env: PassEnv, role: SelectorRole)
  {
    role in st.selectors && ReadinessOf(env, role).Ready?
  }

  /** The keys `selectNow()` finds ready: a closed channel is no longer
      registered, so it is never among them. */
  function Fresh(st: Reactor, env: PassEnv, role: SelectorRole): seq<Key>
    requires Polled(st, env, role)
  {
    Live(ReadinessOf(env, role).keys, st.closed)
  }

  /** The selector is open and `selectNow()` returns a positive count. */
  predicate Active(st: Reactor, env: PassEnv, role: SelectorRole)
  {
    Polled(st, env, role) && |Fresh(st, env, role)| > 0
  }

  /** The selected-key set once `selectNow()` has dropped the cancelled keys
      and added the fresh ones. */
  function Selected(st: Reactor, env: PassEnv, role: SelectorRole): (sel: seq<Key>)
    requires Active(st, env, role)
    ensures |sel| > 0
    ensures forall k :: k in sel ==> k.channel !in st.closed
    ensures forall k :: k in sel <==> (k in st.selectors[role].selected && k.channel !in st.closed)
                                      || k in Fresh(st, env, role)
  {
    Purged(st, role).selectors[role].selected + Fresh(st, env, role)
  }

  /** The reactor once `selectNow()` has run on an active selector. */
  function Selecting(st: Reactor, env: PassEnv, role: SelectorRole): Reactor
    requires Active(st, env, role)
  {
    var p := Purged(st, role);
    p.(selectors := p.selectors[role := p.selectors[role].(selected := Selected(st, env, role))])
  }

  /** The state once the handler of the first selected key returned and the key was removed. */
  function Removed(st: Reactor, role: SelectorRole): Reactor
    requires role in st.selectors && |st.selectors[role].selected| > 0
  {
    var sel := st.selectors[role];
    st.(selectors := st.selectors[role := sel.(selected := sel.selected[1..])])
  }

  /** One iteration of the loop over the selectors. A selector that is null or
      fails in `selectNow()` (the exception is caught) is skipped; one that
      selects nothing is skipped once its cancelled keys are dropped.
      Otherwise the first selected key goes to its handler; if the handler
      throws, the key stays selected and the exception is caught. If it
      returns, the key is removed, and the fail-fast iterator then throws
      `ConcurrentModificationException` (also caught) unless that was the only
      selected key. Only a dispatch that ends without exception completes. */
  function Visit(st: Reactor, role: SelectorRole, env: PassEnv): (v: Visited)
    ensures v.after.selectors.Keys == st.selectors.Keys && v.after.handlers == st.handlers
    ensures st.closed <= v.after.closed
    ensures !Polled(st, env, role) ==> v == Visited(st, false, [])
    ensures Polled(st, env, role) && !Active(st, env, role) ==> v == Visited(Purged(st, role), false, [])
    ensures v.ran != [] <==> Active(st, env, role)
    ensures forall d :: d in v.ran ==> d.role == role
    ensures Active(st, env, role) ==>
              && |v.ran| == 1 && v.ran[0].key == Selected(st, env, role)[0]
              && v.ran[0].outcome == Handle(st, v.ran[0].key, env.accepted).outcome
    ensures Active(st, env, role) && v.ran[0].outcome.Ok? ==>
              v.after.selectors[role].selected == Selected(st, env, role)[1..]
    ensures Active(st, env, role) && v.ran[0].outcome.Throws? ==>
              v.after.selectors[role].selected == Selected(st, env, role)
    ensures v.completed <==>
              Active(st, env, role) && v.ran[0].outcome.Ok? && |Selected(st, env, role)| == 1
  {
    if !Polled(st, env, role) then Visited(st, false, [])
    else if !Active(st, env, role) then Visited(Purged(st, role), false, [])
    else
      var st1 := Selecting(st, env, role);
      var k := Selected(st, env, role)[0];
      var h := Handle(st1, k, env.accepted);
      var st2 := Apply(st1, h);
      if h.outcome.Throws? then Visited(st2, false, [Dispatched(role, k, h.outcome)])
      else Visited(Removed(st2, role), |Selected(st, env, role)| == 1, [Dispatched(role, k, h.outcome)])
  }

  /** `Visit` of an active selector, step by step. */
  lemma VisitActive(st: Reactor, role: SelectorRole, env: PassEnv)
    requires Active(st, env, role)
    ensures var st1 := Selecting(st, env, role);
            var k := Selected(st, env, role)[0];
            var h := Handle(st1, k, env.accepted);
            Visit(st, role, env) == if h.outcome.Throws? then Visited(Apply(st1, h), false, [Dispatched(role, k, h.outcome)])
                                    else Visited(Removed(Apply(st1, h), role), |Selected(st, env, role)| == 1, [Dispatched(role, k, h.outcome)])
  {
  }

  /** A visit changes no selector but its own and the read selector, where a
      handler may register a channel; its own selector loses exactly the
      registrations of closed channels unless it is the read selector. */
  lemma VisitFrame(st: Reactor, role: SelectorRole, env: PassEnv, r: SelectorRole)
    requires r in st.selectors
    ensures r != role && r != ReadSelector ==> Visit(st, role, env).after.selectors[r] == st.selectors[r]
    ensures r == role && Polled(st, env, role) && role != ReadSelector ==>
              Visit(st, role, env).after.selectors[r].registered == Purge(st.selectors[r], st.closed).registered
  {
    if Active(st, env, role) && r != ReadSelector {
      ActiveVisitFrame(st, role, env, r);
    }
  }

  lemma ActiveVisitFrame(st: Reactor, role: SelectorRole, env: PassEnv, r: SelectorRole)
    requires Active(st, env, role) && r in st.selectors && r != ReadSelector
    ensures r != role ==> Visit(st, role, env).after.selectors[r] == st.selectors[r]
    ensures r == role ==> Visit(st, role, env).after.selectors[r].registered == Purge(st.selectors[r], st.closed).registered
  {
    VisitActive(st, role, env);
    var st1 := Selecting(st, env, role);
    var st2 := Apply(st1, Handle(st1, Selected(st, env, role)[0], env.accepted));
    assert st2.selectors[r] == st1.selectors[r];
  }

  /** A visit never runs a handler for a channel closed before it, and the
      request handler leaves a readable key's channel closed. */
  lemma VisitSkipsClosed(st: Reactor, role: SelectorRole, env: PassEnv)
    ensures forall d :: d in Visit(st, role, env).ran ==> d.key.channel !in st.closed
    ensures forall d :: d in Visit(st, role, env).ran && d.key.attachment == Some(RequestHandler) && d.key.readable ==>
              d.key.channel in Visit(st, role, env).after.closed
  {
    if Active(st, env, role) {
      VisitActive(st, role, env);
      var k := Selected(st, env, role)[0];
      assert k in Purged(st, role).selectors[role].selected || k in Fresh(st, env, role);
      var st1 := Selecting(st, env, role);
      var h := Handle(st1, k, env.accepted);
      if k.attachment == Some(RequestHandler) && k.readable {
        assert h == RequestHandle(k);
        assert k.channel in Apply(st1, h).closed;
      }
    }
  }

  /** The outcome of a pass: the new state, whether it was idle (no selector
      completed), and the handlers run, in order. */
  datatype PassResult = PassResult(after: Reactor, idle: bool, ran: seq<Dispatched>)

  /** Visiting the selectors of `roles` in turn from state st. */
  function PassOver(st: Reactor, env: PassEnv, roles: seq<SelectorRole>): (p: PassResult)
    ensures p.after.selectors.Keys == st.selectors.Keys && p.after.handlers == st.handlers
    ensures st.closed <= p.after.closed
    decreases |roles|
  {
    if roles == [] then PassResult(st, true, [])
    else
      var prev := PassOver(st, env, roles[..|roles| - 1]);
      var v := Visit(prev.after, roles[|roles| - 1], env);
      PassResult(v.after, prev.idle && !v.completed, prev.ran + v.ran)
  }

  /** Visiting one more selector of `ORDER`. */
  lemma PassOverStep(st: Reactor, env: PassEnv, j: nat)
    requires j < |ORDER|
    ensures var p := PassOver(st, env, ORDER[..j]);
            var v := Visit(p.after, ORDER[j], env);
            PassOver(st, env, ORDER[..j + 1]) == PassResult(v.after, p.idle && !v.completed, p.ran + v.ran)
  {
    assert ORDER[..j + 1][..j] == ORDER[..j];
  }

  /** One pass of `run`'s outer loop. */
  function PassSpec(st: Reactor, env: PassEnv): PassResult
  {
    PassOver(st, env, ORDER)
  }

  /** A run of passes: the final state and, for each pass, whether `run`
      slept after it. */
  function RunSpec(st: Reactor, passes: seq<PassEnv>): (r: (Reactor, seq<bool>))
    ensures |r.1| == |passes|
    ensures st.closed <= r.0.closed
    decreases |passes|
  {
    if passes == [] then (st, [])
    else
      var prev := RunSpec(st, passes[..|passes| - 1]);
      var p := PassSpec(prev.0, passes[|passes| - 1]);
      (p.after, prev.1 + [p.idle])
  }

  // ------------------------------------------------------------------------
  // Properties of a pass
  // ------------------------------------------------------------------------

  /** Within `roles`, the selectors are visited in the order listed: the
      handlers run belong to selectors of strictly increasing rank. */
  lemma {:induction false} PassOverOrdered(st: Reactor, env: PassEnv, roles: seq<SelectorRole>)
    requires forall i, j :: 0 <= i < j < |roles| ==> Rank(roles[i]) < Rank(roles[j])
    ensures forall d :: d in PassOver(st, env, roles).ran ==> d.role in roles
    ensures forall i, j :: 0 <= i < j < |PassOver(st, env, roles).ran| ==>
              Rank(PassOver(st, env, roles).ran[i].role) < Rank(PassOver(st, env, roles).ran[j].role)
    decreases |roles|
  {
    if roles != [] {
      var init := roles[..|roles| - 1];
      var last := roles[|roles| - 1];
      var prev := PassOver(st, env, init);
      PassOverOrdered(st, env, init);
      var v := Visit(prev.after, last, env);
      assert PassOver(st, env, roles).ran == prev.ran + v.ran;
      forall d | d in prev.ran ensures d.role in roles && Rank(d.role) < Rank(last) {
        var k :| 0 <= k < |init| && init[k] == d.role;
        assert roles[k] == d.role;
      }
    }
  }

  /** Every pass runs the write selector's handler (if any) before the read
      selector's, and that before the accept selector's. */
  lemma PassOrder(st: Reactor, env: PassEnv)
    ensures forall i, j :: 0 <= i < j < |PassSpec(st, env).ran| ==>
              Rank(PassSpec(st, env).ran[i].role) < Rank(PassSpec(st, env).ran[j].role)
  {
    PassOverOrdered(st, env, ORDER);
  }

  /** Every handler run in a pass over `roles` belongs to one of them. */
  lemma {:induction false} PassOverRoles(st: Reactor, env: PassEnv, roles: seq<SelectorRole>)
    ensures forall d :: d in PassOver(st, env, roles).ran ==> d.role in roles
    decreases |roles|
  {
    if roles != [] {
      var init := roles[..|roles| - 1];
      PassOverRoles(st, env, init);
      assert roles == init + [roles[|roles| - 1]];
      assert PassOver(st, env, roles).ran == PassOver(st, env, init).ran + Visit(PassOver(st, env, init).after, roles[|roles| - 1], env).ran;
    }
  }

  /** An exception in one selector does not stop the pass: among distinct
      selectors, the k-th runs one handler exactly when it is active in the
      state the pass reaches it in. */
  lemma {:induction false} PassOverVisitsActive(st: Reactor, env: PassEnv, roles: seq<SelectorRole>, k: nat)
    requires k < |roles| && forall i, j :: 0 <= i < j < |roles| ==> roles[i] != roles[j]
    ensures Active(PassOver(st, env, roles[..k]).after, env, roles[k]) <==>
              exists d :: d in PassOver(st, env, roles).ran && d.role == roles[k]
    decreases |roles|
  {
    if k == |roles| - 1 {
      PassOverVisitsLast(st, env, roles);
    } else {
      var init := roles[..|roles| - 1];
      var prev := PassOver(st, env, init);
      var v := Visit(prev.after, roles[|roles| - 1], env);
      var ran := PassOver(st, env, roles).ran;
      assert ran == prev.ran + v.ran;
      PassOverVisitsActive(st, env, init, k);
      assert init[..k] == roles[..k] && init[k] == roles[k];
      assert roles[k] != roles[|roles| - 1];
      if exists d :: d in prev.ran && d.role == roles[k] {
        var d :| d in prev.ran && d.role == roles[k];
        assert d in ran;
      }
    }
  }

  /** The last of distinct selectors runs one handler exactly when it is
      active once the others have been visited. */
  lemma PassOverVisitsLast(st: Reactor, env: PassEnv, roles: seq<SelectorRole>)
    requires roles != [] && forall i, j :: 0 <= i < j < |roles| ==> roles[i] != roles[j]
    ensures var k := |roles| - 1;
            Active(PassOver(st, env, roles[..k]).after, env, roles[k]) <==>
              exists d :: d in PassOver(st, env, roles).ran && d.role == roles[k]
  {
    var k := |roles| - 1;
    var init := roles[..k];
    var prev := PassOver(st, env, init);
    var v := Visit(prev.after, roles[k], env);
    var ran := PassOver(st, env, roles).ran;
    assert ran == prev.ran + v.ran;
    PassOverRoles(st, env, init);
    if v.ran != [] {
      assert v.ran[0] in ran;
    }
    forall d | d in prev.ran ensures d.role != roles[k] {
      var i :| 0 <= i < |init| && init[i] == d.role;
      assert roles[i] == d.role;
    }
  }

  /** A selector runs one handler in a pass exactly when it is active in the
      state the pass reaches it in. The write selector, polled first, sees
      the state the pass starts from; a later selector also sees the
      channels the earlier handlers closed. */
  lemma PassVisitsActive(st: Reactor, env: PassEnv, role: SelectorRole)
    ensures Active(PassOver(st, env, ORDER[..Rank(role)]).after, env, role) <==>
              exists d :: d in PassSpec(st, env).ran && d.role == role
    ensures Active(st, env, WriteSelector) <==> exists d :: d in PassSpec(st, env).ran && d.role == WriteSelector
  {
    PassOverVisitsActive(st, env, ORDER, Rank(role));
    PassOverVisitsActive(st, env, ORDER, 0);
    assert ORDER[..0] == [];
  }

  /** A pass that is not idle ran some handler that returned normally. */
  lemma {:induction false} PassOverBusy(st: Reactor, env: PassEnv, roles: seq<SelectorRole>)
    ensures !PassOver(st, env, roles).idle ==> exists d :: d in PassOver(st, env, roles).ran && d.outcome.Ok?
    decreases |roles|
  {
    if roles != [] {
      var prev := PassOver(st, env, roles[..|roles| - 1]);
      PassOverBusy(st, env, roles[..|roles| - 1]);
      var v := Visit(prev.after, roles[|roles| - 1], env);
      if v.completed {
        assert v.ran[0] in PassOver(st, env, roles).ran;
      } else if !prev.idle {
        var d :| d in prev.ran && d.outcome.Ok?;
        assert d in PassOver(st, env, roles).ran;
      }
    }
  }

  /** When no selector has ready keys, a pass runs nothing and is idle; all it
      changes is that each selector polled drops its cancelled keys. */
  lemma {:induction false} QuietPassOver(st: Reactor, env: PassEnv, roles: seq<SelectorRole>)
    requires forall role :: !Active(st, env, role)
    ensures var p := PassOver(st, env, roles);
            && p.ran == [] && p.idle && p.after.closed == st.closed
            && forall role :: role in st.selectors ==>
                 p.after.selectors[role]
                 == if role in roles && Polled(st, env, role) then Purge(st.selectors[role], st.closed) else st.selectors[role]
    decreases |roles|
  {
    if roles != [] {
      var init := roles[..|roles| - 1];
      var last := roles[|roles| - 1];
      QuietPassOver(st, env, init);
      var prev := PassOver(st, env, init);
      assert prev.after.closed == st.closed && prev.after.selectors.Keys == st.selectors.Keys;
      assert !Active(st, env, last);
      assert !Active(prev.after, env, last) by {
        if Polled(st, env, last) {
          assert Fresh(prev.after, env, last) == Fresh(st, env, last);
        }
      }
      assert roles == init + [last];
      if last in st.selectors {
        PurgeIdempotent(st.selectors[last], st.closed);
      }
    }
  }

  /** The idle flag: a pass sleeps when nothing is ready, and a pass that does
      not sleep ran a handler to completion. */
  lemma PassIdle(st: Reactor, env: PassEnv)
    ensures (forall role :: !Active(st, env, role)) ==>
              && PassSpec(st, env).ran == [] && PassSpec(st, env).idle && PassSpec(st, env).after.closed == st.closed
              && forall role :: role in st.selectors ==>
                   PassSpec(st, env).after.selectors[role]
                   == if Polled(st, env, role) then Purge(st.selectors[role], st.closed) else st.selectors[role]
    ensures !PassSpec(st, env).idle ==> exists d :: d in PassSpec(st, env).ran && d.outcome.Ok?
  {
    if forall role :: !Active(st, env, role) {
      QuietPassOver(st, env, ORDER);
      forall role | role in st.selectors ensures role in ORDER {
        assert ORDER[Rank(role)] == role;
      }
    }
    PassOverBusy(st, env, ORDER);
  }

  /** No handler ever registers a channel with the write selector: a pass
      only drops the registrations of channels that are closed. */
  lemma {:induction false} PassOverKeepsWrites(st: Reactor, env: PassEnv, roles: seq<SelectorRole>)
    requires WriteSelector in st.selectors
    ensures var after := PassOver(st, env, roles).after;
            && (forall g :: g in after.selectors[WriteSelector].registered ==> g in st.selectors[WriteSelector].registered)
            && (forall g :: g in st.selectors[WriteSelector].registered && g !in after.selectors[WriteSelector].registered ==>
                  g.channel in after.closed)
    decreases |roles|
  {
    if roles != [] {
      PassOverKeepsWrites(st, env, roles[..|roles| - 1]);
      VisitFrame(PassOver(st, env, roles[..|roles| - 1]).after, roles[|roles| - 1], env, WriteSelector);
    }
  }

  /** A pass leaves the write selector's registrations as they were, except
      for those of channels closed before the pass. */
  lemma NoWriteRegistration(st: Reactor, env: PassEnv)
    requires WriteSelector in st.selectors
    ensures PassSpec(st, env).after.selectors[WriteSelector].registered
            == (if Polled(st, env, WriteSelector) then Purge(st.selectors[WriteSelector], st.closed).registered
                else st.selectors[WriteSelector].registered)
  {
    assert PassOver(st, env, ORDER[..1]).after == Visit(st, WriteSelector, env).after by {
      PassOverStep(st, env, 0);
      assert ORDER[..0] == [];
    }
    VisitFrame(st, WriteSelector, env, WriteSelector);
    LaterVisitKeepsWrites(st, env, 1);
    LaterVisitKeepsWrites(st, env, 2);
    assert ORDER[..3] == ORDER;
    assert PassSpec(st, env).after == PassOver(st, env, ORDER[..3]).after;
  }

  /** The visits after the first, to the read and accept selectors, leave the
      write selector as it was. */
  lemma LaterVisitKeepsWrites(st: Reactor, env: PassEnv, j: nat)
    requires 1 <= j < |ORDER| && WriteSelector in st.selectors
    ensures PassOver(st, env, ORDER[..j + 1]).after.selectors[WriteSelector]
            == PassOver(st, env, ORDER[..j]).after.selectors[WriteSelector]
  {
    PassOverStep(st, env, j);
    VisitFrame(PassOver(st, env, ORDER[..j]).after, ORDER[j], env, WriteSelector);
  }

  // ------------------------------------------------------------------------
  // Closed channels
  // ------------------------------------------------------------------------

  /** Within a pass no handler runs for a channel closed before the pass, and
      the request handler leaves every readable channel it ran for closed. */
  lemma {:induction false} PassOverSkipsClosed(st: Reactor, env: PassEnv, roles: seq<SelectorRole>)
    ensures forall d :: d in PassOver(st, env, roles).ran ==> d.key.channel !in st.closed
    ensures forall d :: d in PassOver(st, env, roles).ran && d.key.attachment == Some(RequestHandler) && d.key.readable ==>
              d.key.channel in PassOver(st, env, roles).after.closed
    decreases |roles|
  {
    if roles != [] {
      var prev := PassOver(st, env, roles[..|roles| - 1]);
      PassOverSkipsClosed(st, env, roles[..|roles| - 1]);
      VisitSkipsClosed(prev.after, roles[|roles| - 1], env);
      var v := Visit(prev.after, roles[|roles| - 1], env);
      assert PassOver(st, env, roles).ran == prev.ran + v.ran;
    }
  }

  /** The channels closed during a run only accumulate. */
  lemma {:induction false} RunClosedGrows(st: Reactor, passes: seq<PassEnv>, i: nat, j: nat)
    requires i <= j <= |passes|
    ensures RunSpec(st, passes[..i]).0.closed <= RunSpec(st, passes[..j]).0.closed
    decreases j
  {
    if i < j {
      RunClosedGrows(st, passes, i, j - 1);
      assert passes[..j][..j - 1] == passes[..j - 1];
    }
  }

  /** Pass n of a run starts from the state the first n passes leave. */
  lemma RunStep(st: Reactor, passes: seq<PassEnv>, n: nat)
    requires n < |passes|
    ensures RunSpec(st, passes[..n + 1]).0 == PassSpec(RunSpec(st, passes[..n]).0, passes[n]).after
  {
    assert passes[..n + 1][..n] == passes[..n];
  }

  /** A channel closed by pass i of a run is never handed to a handler again:
      its keys were cancelled, so the next `selectNow()` of every selector
      drops them and no later poll reports the channel ready. */
  lemma ClosedNeverDispatched(st: Reactor, passes: seq<PassEnv>, i: nat, j: nat, c: ChannelId)
    requires i < j < |passes| && c in RunSpec(st, passes[..i + 1]).0.closed
    ensures forall d :: d in PassSpec(RunSpec(st, passes[..j]).0, passes[j]).ran ==> d.key.channel != c
  {
    RunClosedGrows(st, passes, i + 1, j);
    PassOverSkipsClosed(RunSpec(st, passes[..j]).0, passes[j], ORDER);
  }

  /** A readable key the request handler ran for in pass i is never
      dispatched again in a later pass, although the handler threw and left
      it selected. */
  lemma RequestKeyNotRedispatched(st: Reactor, passes: seq<PassEnv>, i: nat, j: nat, d: Dispatched)
    requires i < j < |passes| && d in PassSpec(RunSpec(st, passes[..i]).0, passes[i]).ran
    requires d.key.attachment == Some(RequestHandler) && d.key.readable
    ensures forall e :: e in PassSpec(RunSpec(st, passes[..j]).0, passes[j]).ran ==> e.key.channel != d.key.channel
  {
    PassOverSkipsClosed(RunSpec(st, passes[..i]).0, passes[i], ORDER);
    RunStep(st, passes, i);
    ClosedNeverDispatched(st, passes, i, j, d.key.channel);
  }

  // ------------------------------------------------------------------------
  // Initialization
  // ------------------------------------------------------------------------

  /** The JDK calls of `initialize` that can fail: `ServerSocketChannel.open()`,
      the socket's `bind`, which `Selector.open()` fails first (0, 1 or 2 for
      the accept, read and write selectors; 3 or more for none), which
      handler's setup fails first (0, 1 or 2 for the accept, request and
      response handlers; 3 or more for none), whether the accept handler's
      setup, when it fails, fails already in `new AcceptHandler()`, and the
      OP_ACCEPT registration. */
  datatype InitEnv = InitEnv(openFails: bool, bindFails: bool, selectorFails: nat, handlerFails: nat,
                             newAcceptFails: bool, registerFails: bool)

  /** A selector freshly opened: nothing registered, nothing selected. */
  const EMPTY_SELECTOR := SelectorState([], [])

  /** What the listening channel's registration attaches: the accept handler,
      unless its construction failed and left the variable null. */
  function AcceptAttachment(env: InitEnv): (a: Option<HandlerKind>)
    ensures a.None? <==> env.handlerFails == 0 && env.newAcceptFails
    ensures a.Some? ==> a.value == AcceptHandler
  {
    if env.handlerFails == 0 && env.newAcceptFails then None else Some(AcceptHandler)
  }

  /** The accept selector once the listening socket is registered with it. */
  function Accepting(env: InitEnv): SelectorState
  {
    SelectorState([Registration(SERVER_CHANNEL, OpAccept, AcceptAttachment(env))], [])
  }

  /** The position of a selector in the order `initialize` opens them:
      accept, read, write. */
  function OpenIndex(role: SelectorRole): nat
  {
    match role
    case AcceptSelector => 0
    case ReadSelector => 1
    case WriteSelector => 2
  }

  /** The position of a handler in the order `initialize` sets them up. */
  function HandlerIndex(h: HandlerKind): nat
  {
    match h
    case AcceptHandler => 0
    case RequestHandler => 1
    case ResponseHandler => 2
  }

  /** `initialize` opens this selector: every `Selector.open()` before it succeeded. */
  predicate Opens(env: InitEnv, role: SelectorRole)
  {
    OpenIndex(role) < env.selectorFails
  }

  /** `initialize` sets up and binds this handler: every selector opened and
      every handler before it was set up. */
  predicate SetsUp(env: InitEnv, h: HandlerKind)
  {
    env.selectorFails >= 3 && HandlerIndex(h) < env.handlerFails
  }

  /** The bindings of the selectors opened before the n-th `Selector.open()`
      failed (all three when n is 3 or more). */
  function SelectorBindings(n: nat): seq<Config.CtxBinding>
  {
    if n == 0 then []
    else if n == 1 then [Config.AcceptSelector]
    else if n == 2 then [Config.AcceptSelector, Config.ReadSelector]
    else [Config.AcceptSelector, Config.ReadSelector, Config.WriteSelector]
  }

  /** The bindings of the handlers set up before the n-th one failed. */
  function HandlerBindings(n: nat): seq<Config.CtxBinding>
  {
    if n == 0 then []
    else if n == 1 then [Config.AcceptHandler]
    else if n == 2 then [Config.AcceptHandler, Config.RequestHandler]
    else [Config.AcceptHandler, Config.RequestHandler, Config.ResponseHandler]
  }

  /** The handlers set up before the n-th one failed. */
  function HandlersSetUp(n: nat): set<HandlerKind>
  {
    if n == 0 then {}
    else if n == 1 then {AcceptHandler}
    else if n == 2 then {AcceptHandler, RequestHandler}
    else {AcceptHandler, RequestHandler, ResponseHandler}
  }

  /** The selectors once the first n `Selector.open()` calls of `initialize`
      succeeded (all three when n is 3 or more), each opened one empty. */
  function SelectorsOpened(sels: map<SelectorRole, SelectorState>, n: nat): map<SelectorRole, SelectorState>
  {
    if n == 0 then sels
    else if n == 1 then sels[AcceptSelector := EMPTY_SELECTOR]
    else if n == 2 then sels[AcceptSelector := EMPTY_SELECTOR][ReadSelector := EMPTY_SELECTOR]
    else sels[AcceptSelector := EMPTY_SELECTOR][ReadSelector := EMPTY_SELECTOR][WriteSelector := EMPTY_SELECTOR]
  }

  /** The selectors an `initialize` that got past the socket's `bind` leaves:
      those it opened, the accept selector holding the listening channel's
      registration when every selector opened and the registration succeeded. */
  function InitSelectors(sels: map<SelectorRole, SelectorState>, env: InitEnv): map<SelectorRole, SelectorState>
  {
    var open := SelectorsOpened(sels, env.selectorFails);
    if env.selectorFails >= 3 && !env.registerFails then open[AcceptSelector := Accepting(env)] else open
  }

  /** A selector is present after `initialize` when it was present before or
      was opened; an opened one is empty except for the accept selector's
      registration; the others are untouched. */
  lemma InitSelectorsShape(sels: map<SelectorRole, SelectorState>, env: InitEnv, role: SelectorRole)
    ensures role in InitSelectors(sels, env) <==> role in sels || Opens(env, role)
    ensures Opens(env, role) ==>
              InitSelectors(sels, env)[role]
              == (if role == AcceptSelector && env.selectorFails >= 3 && !env.registerFails then Accepting(env) else EMPTY_SELECTOR)
    ensures role in sels && !Opens(env, role) ==> InitSelectors(sels, env)[role] == sels[role]
  {
  }

  /** The port the configuration names, as `Integer.parseInt` reads it. */
  function ConfiguredPort(c: Config.Configuration): Result<i32>
  {
    ParseInt(c.Get(Some(Config.DB_SERVER_PORT)).value)
  }

  /** The outcome of the socket block of `initialize`: `Integer.parseInt`
      of the configured port, `ServerSocketChannel.open()`, the range check
      of `new InetSocketAddress(port)`, and `bind`. */
  function SocketOutcome(c: Config.Configuration, env: InitEnv): Result<()>
  {
    var port := ConfiguredPort(c);
    if port.Throws? then Throws(port.error)
    else if env.openFails then Throws(Jdk(IO))
    else if !(0 <= port.value <= 0xFFFF) then Throws(Thrown(IllegalArgument, "port out of range:" + IntString(port.value)))
    else if env.bindFails then Throws(Jdk(IO))
    else Ok(())
  }

  /** The socket after that block, starting from s: a channel once opened
      stays open, and is bound only when the block succeeds. */
  function SocketAfter(c: Config.Configuration, s: Socket, env: InitEnv): Socket
  {
    var port := ConfiguredPort(c);
    if port.Throws? || env.openFails then s
    else if SocketOutcome(c, env).Ok? then Bound(port.value)
    else Open
  }

  /** The outcome of `initialize`: the socket block's, else the failure of
      a `Selector.open()`; later failures are swallowed. */
  function InitOutcome(c: Config.Configuration, env: InitEnv): Result<()>
  {
    if SocketOutcome(c, env).Throws? then SocketOutcome(c, env)
    else if env.selectorFails < 3 then Throws(Jdk(IO))
    else Ok(())
  }

  /** With no user entry for the port the server listens on 7727, and binds
      unless opening or binding the channel fails. */
  lemma DefaultPortBinds(c: Config.Configuration, env: InitEnv, s: Socket)
    requires Config.Key(Config.DB_SERVER_PORT) !in c.userprops
    ensures ConfiguredPort(c) == Ok(7727)
    ensures SocketOutcome(c, env).Ok? <==> !env.openFails && !env.bindFails
    ensures SocketOutcome(c, env).Ok? ==> SocketAfter(c, s, env) == Bound(7727)
  {
    Config.NumericDefaults();
  }

  /** A port the configuration gives outside 0..65535 is refused after the
      channel is opened, with the port in the message. */
  lemma PortOutOfRange(c: Config.Configuration, env: InitEnv, s: Socket, v: i32)
    requires Config.Key(Config.DB_SERVER_PORT) in c.userprops
    requires ParseInt(c.userprops[Config.Key(Config.DB_SERVER_PORT)]) == Ok(v) && !(0 <= v <= 0xFFFF)
    requires !env.openFails
    ensures InitOutcome(c, env) == Throws(Thrown(IllegalArgument, "port out of range:" + IntString(v)))
    ensures SocketAfter(c, s, env) == Open
  {
  }

  /** The context bindings of an `initialize` that got past the socket's
      `bind`, in order: the channel, the selectors, the handlers. */
  function InitBindings(env: InitEnv): seq<Config.CtxBinding>
  {
    [Config.ServerSocketChan] + SelectorBindings(env.selectorFails)
      + (if env.selectorFails < 3 then [] else HandlerBindings(env.handlerFails))
  }

  /** What `initialize` binds under each binding. */
  function ResourceFor(b: Config.CtxBinding, port: i32): Resource
  {
    match b
    case ServerSocketChan => ServerChannel(port)
    case AcceptSelector => SelectorOf(AcceptSelector)
    case ReadSelector => SelectorOf(ReadSelector)
    case WriteSelector => SelectorOf(WriteSelector)
    case AcceptHandler => HandlerOf(AcceptHandler)
    case RequestHandler => HandlerOf(RequestHandler)
    case ResponseHandler => HandlerOf(ResponseHandler)
    case _ => NetComp
  }

  /** Binding each of bs in turn into a context's map. */
  function BindAll(m: map<string, Option<Resource>>, bs: seq<Config.CtxBinding>, port: i32): map<string, Option<Resource>>
    decreases |bs|
  {
    if bs == [] then m else BindAll(m[Config.Id(bs[0]) := Some(ResourceFor(bs[0], port))], bs[1..], port)
  }

  lemma {:induction false} BindAllSnoc(m: map<string, Option<Resource>>, bs: seq<Config.CtxBinding>, b: Config.CtxBinding, port: i32)
    ensures BindAll(m, bs + [b], port) == BindAll(m, bs, port)[Config.Id(b) := Some(ResourceFor(b, port))]
    decreases |bs|
  {
    if bs == [] {
      assert bs + [b] == [b];
    } else {
      assert (bs + [b])[1..] == bs[1..] + [b];
      BindAllSnoc(m[Config.Id(bs[0]) := Some(ResourceFor(bs[0], port))], bs[1..], b, port);
    }
  }

  /** After binding bs, each binding among them holds its resource. */
  lemma {:induction false} BindAllHit(m: map<string, Option<Resource>>, bs: seq<Config.CtxBinding>, port: i32, b: Config.CtxBinding)
    requires b in bs
    ensures Config.Id(b) in BindAll(m, bs, port) && BindAll(m, bs, port)[Config.Id(b)] == Some(ResourceFor(b, port))
    decreases |bs|
  {
    var m1 := m[Config.Id(bs[0]) := Some(ResourceFor(bs[0], port))];
    if b in bs[1..] {
      BindAllHit(m1, bs[1..], port, b);
    } else {
      BindAllMiss(m1, bs[1..], port, b);
    }
  }

  /** Every binding not among bs keeps its old value: the ids of distinct
      bindings differ. */
  lemma {:induction false} BindAllMiss(m: map<string, Option<Resource>>, bs: seq<Config.CtxBinding>, port: i32, b: Config.CtxBinding)
    requires b !in bs
    ensures Config.Id(b) in BindAll(m, bs, port) <==> Config.Id(b) in m
    ensures Config.Id(b) in m ==> BindAll(m, bs, port)[Config.Id(b)] == m[Config.Id(b)]
    decreases |bs|
  {
    if bs != [] {
      if Config.Id(bs[0]) == Config.Id(b) {
        Config.IdsDistinct(bs[0], b);
      }
      assert b !in bs[1..];
      BindAllMiss(m[Config.Id(bs[0]) := Some(ResourceFor(bs[0], port))], bs[1..], port, b);
    }
  }

  /** The handlers set up are those before the first that fails. */
  lemma HandlersSetUpIndex(n: nat, h: HandlerKind)
    ensures h in HandlersSetUp(n) <==> HandlerIndex(h) < n
  {
  }

  /** The context after `initialize` agrees with the reactor state it leaves:
      a selector is bound exactly when it was opened, and a handler exactly
      when it was set up; the channel is always bound, the component never. */
  lemma InitBindingsShape(env: InitEnv, role: SelectorRole, h: HandlerKind)
    ensures Config.ServerSocketChan in InitBindings(env)
    ensures SelectorBinding(role) in InitBindings(env) <==> Opens(env, role)
    ensures HandlerBinding(h) in InitBindings(env) <==> SetsUp(env, h)
    ensures Config.NetworkInterface !in InitBindings(env)
  {
    var sb := SelectorBindings(env.selectorFails);
    var hb := if env.selectorFails < 3 then [] else HandlerBindings(env.handlerFails);
    var bs := InitBindings(env);
    assert bs == [Config.ServerSocketChan] + sb + hb;
    assert SelectorBinding(role) in bs <==> SelectorBinding(role) in sb;
    assert HandlerBinding(h) in bs <==> HandlerBinding(h) in hb;

  }

  // ------------------------------------------------------------------------
  // The component
  // ------------------------------------------------------------------------

  /** `NetworkInterface`: its own context (a `Context.Tree` over the server's),
      its port, its socket, and the reactor state `run` works on. */
  class NetworkInterface {
    const context: Context<Resource>
    var ssport: i32
    var socket: Socket
    var selectors: map<SelectorRole, SelectorState>
    var handlers: set<HandlerKind>
    var closed: set<ChannelId>

    ghost predicate Valid()
    {
      context.Valid()
    }

    /** The reactor state, as the specification functions see it. */
    function State(): Reactor
      reads this
    {
      Reactor(selectors, handlers, closed)
    }

    /** `new NetworkInterface(context)`. */
    constructor (parent: Context<Resource>)
      requires parent.Valid()
      ensures Valid() && fresh(context) && context.parent == parent && context.bindings == map[]
      ensures context.config == parent.config && context.supervisor == parent.supervisor
      ensures socket == Unopened && selectors == map[] && handlers == {} && closed == {}
    {
      context := new Context<Resource>.Tree(parent);
      ssport := 0;
      socket := Unopened;
      selectors := map[];
      handlers := {};
      closed := {};
    }

    /** One iteration of `run`'s loop over the selectors: `selectNow()`,
        then the for-each over the selected keys. The iterator is fail-fast:
        once a key has been removed behind its back, its next step throws
        `ConcurrentModificationException`. Every exception is caught. */
    method Dispatch(role: SelectorRole, env: PassEnv) returns (completed: bool, ran: seq<Dispatched>)
      modifies this`selectors, this`closed
      ensures Visit(old(State()), role, env) == Visited(State(), completed, ran)
    {
      ghost var st := State();
      if role !in selectors {
        // a null selector: `selectNow()` throws NullPointerException
        return false, [];
      }
      var readiness := ReadinessOf(env, role);
      if readiness.SelectFails? {
        return false, [];
      }
      // the cancelled keys go first, then the poll reports the ready channels still open
      selectors := selectors[role := Purge(selectors[role], closed)];
      var ready := Live(readiness.keys, closed);
      if |ready| == 0 {
        return false, [];
      }
      selectors := selectors[role := selectors[role].(selected := selectors[role].selected + ready)];
      var keys := selectors[role].selected;
      ghost var st1 := State();
      assert Active(st, env, role) && keys == Selected(st, env, role);
      assert st1 == Selecting(st, env, role);
      ghost var outcome: Result<()> := Ok(());
      var it := 0;
      var modified := false;
      completed, ran := true, [];
      while it < |keys|
        invariant it <= 1 && (modified <==> it == 1) && completed
        invariant keys == st1.selectors[role].selected && role in selectors
        invariant it == 0 ==> ran == [] && State() == st1
        invariant it == 1 ==> && outcome == Handle(st1, keys[0], env.accepted).outcome && outcome.Ok?
                              && ran == [Dispatched(role, keys[0], outcome)]
                              && State() == Removed(Apply(st1, Handle(st1, keys[0], env.accepted)), role)
        decreases |keys| - it
      {
        if modified {
          completed := false;
          break;
        }
        var k := keys[it];
        var h := Handle(State(), k, env.accepted);
        var applied := Apply(State(), h);
        selectors, closed := applied.selectors, applied.closed;
        ran := ran + [Dispatched(role, k, h.outcome)];
        outcome := h.outcome;
        if h.outcome.Throws? {
          completed := false;
          break;
        }
        // `selections.remove(k)`
        selectors := selectors[role := selectors[role].(selected := selectors[role].selected[1..])];
        modified := true;
        it := it + 1;
      }
      VisitActive(st, role, env);
    }

    /** One pass of `run`'s outer loop: the selectors in `ORDER`; the pass is
        idle unless some selector completed its dispatch. */
    method Pass(env: PassEnv) returns (idling: bool, ran: seq<Dispatched>)
      modifies this`selectors, this`closed
      ensures PassSpec(old(State()), env) == PassResult(State(), idling, ran)
    {
      ghost var st := State();
      idling, ran := true, [];
      for j := 0 to |ORDER|
        invariant handlers == st.handlers
        invariant PassOver(st, env, ORDER[..j]) == PassResult(State(), idling, ran)
      {
        PassOverStep(st, env, j);
        var completed, r := Dispatch(ORDER[j], env);
        if completed {
          idling := false;
        }
        ran := ran + r;
      }
      assert ORDER[..|ORDER|] == ORDER;
    }

    /** `run()` for as many passes as `passes` lists, reporting after each
        whether it slept for a second (`Thread.sleep(1000)`). */
    method Run(passes: seq<PassEnv>) returns (sleeps: seq<bool>)
      modifies this`selectors, this`closed
      ensures RunSpec(old(State()), passes) == (State(), sleeps)
    {
      ghost var st := State();
      sleeps := [];
      for n := 0 to |passes|
        invariant handlers == st.handlers
        invariant RunSpec(st, passes[..n]) == (State(), sleeps)
      {
        assert passes[..n + 1][..n] == passes[..n];
        var idling, _ := Pass(passes[n]);
        sleeps := sleeps + [idling];
      }
      assert passes[..|passes|] == passes;
    }

    /** `initialize()`. Failures to read the port, open or bind the socket, or
        open a selector propagate (the socket, once opened, stays open);
        failures in setting up the handlers or registering the socket for
        OP_ACCEPT are logged and swallowed, and the component is returned. */
    method Initialize(env: InitEnv) returns (r: Result<NetworkInterface>)
      requires Valid()
      modifies this`ssport, this`socket, this`selectors, this`handlers, context
      ensures r.Ok? <==> InitOutcome(context.config, env).Ok?
      ensures r.Ok? ==> r.value == this
      ensures r.Throws? ==> r.error == InitOutcome(context.config, env).error
      ensures socket == SocketAfter(context.config, old(socket), env)
      ensures SocketOutcome(context.config, env).Throws? ==>
                context.bindings == old(context.bindings) && selectors == old(selectors) && handlers == old(handlers)
      ensures SocketOutcome(context.config, env).Ok? ==>
                && context.bindings == BindAll(old(context.bindings), InitBindings(env), ConfiguredPort(context.config).value)
                && handlers == old(handlers) + (if env.selectorFails < 3 then {} else HandlersSetUp(env.handlerFails))
                && selectors == InitSelectors(old(selectors), env)
    {
      var bound := OpenSocket(env);
      if bound.Throws? {
        return Throws(bound.error);
      }
      ghost var m := context.bindings;
      BindTracked(m, [], Config.ServerSocketChan);
      assert [] + [Config.ServerSocketChan] == [Config.ServerSocketChan];
      var selected := OpenSelectors(env, m);
      if selected.Throws? {
        assert InitBindings(env) == [Config.ServerSocketChan] + SelectorBindings(env.selectorFails);
        return Throws(selected.error);
      }
      SetUpHandlers(env, m, [Config.ServerSocketChan] + SelectorBindings(3));
      assert InitBindings(env) == [Config.ServerSocketChan] + SelectorBindings(3) + HandlerBindings(env.handlerFails);
      assert selectors[AcceptSelector] == EMPTY_SELECTOR;
      RegisterAccept(env);
      assert EMPTY_SELECTOR.(registered := EMPTY_SELECTOR.registered + [Registration(SERVER_CHANNEL, OpAccept, AcceptAttachment(env))]) == Accepting(env);
      return Ok(this);
    }

    /** The first block of `initialize`: parse the configured port, open the
        channel and bind its socket. A failure propagates and leaves an
        opened channel open. */
    method OpenSocket(env: InitEnv) returns (r: Result<()>)
      requires Valid()
      modifies this`ssport, this`socket
      ensures r == SocketOutcome(context.config, env) && socket == SocketAfter(context.config, old(socket), env)
      ensures r.Ok? ==> ssport == ConfiguredPort(context.config).value
    {
      var propPort := context.GetProperty(Some(Config.DB_SERVER_PORT));
      var parsed := ParseInt(propPort.value);
      if parsed.Throws? {
        return Throws(parsed.error);
      }
      ssport := parsed.value;
      if env.openFails {
        return Throws(Jdk(IO));
      }
      socket := Open;
      // `new InetSocketAddress(ssport)`
      if !(0 <= ssport <= 0xFFFF) {
        return Throws(Thrown(IllegalArgument, "port out of range:" + IntString(ssport)));
      }
      if env.bindFails {
        return Throws(Jdk(IO));
      }
      socket := Bound(ssport);
      return Ok(());
    }

    /** The second block: open and bind the accept, read and write selectors;
        the first failure propagates. */
    method OpenSelectors(env: InitEnv, ghost m: map<string, Option<Resource>>) returns (r: Result<()>)
      requires Valid() && context.bindings == BindAll(m, [Config.ServerSocketChan], ssport)
      modifies this`selectors, context
      ensures r.Ok? <==> env.selectorFails >= 3
      ensures r.Throws? ==> r.error == Jdk(IO)
      ensures context.bindings == BindAll(m, [Config.ServerSocketChan] + SelectorBindings(env.selectorFails), ssport)
      ensures selectors == SelectorsOpened(old(selectors), env.selectorFails)
    {
      ghost var bound := [Config.ServerSocketChan];
      if env.selectorFails == 0 {
        assert bound + SelectorBindings(0) == bound;
        return Throws(Jdk(IO));
      }
      selectors := selectors[AcceptSelector := EMPTY_SELECTOR];
      BindTracked(m, bound, Config.AcceptSelector);
      bound := bound + [Config.AcceptSelector];
      if env.selectorFails == 1 {
        assert bound == [Config.ServerSocketChan] + SelectorBindings(1);
        return Throws(Jdk(IO));
      }
      selectors := selectors[ReadSelector := EMPTY_SELECTOR];
      BindTracked(m, bound, Config.ReadSelector);
      bound := bound + [Config.ReadSelector];
      if env.selectorFails == 2 {
        assert bound == [Config.ServerSocketChan] + SelectorBindings(2);
        return Throws(Jdk(IO));
      }
      selectors := selectors[WriteSelector := EMPTY_SELECTOR];
      BindTracked(m, bound, Config.WriteSelector);
      bound := bound + [Config.WriteSelector];
      assert bound == [Config.ServerSocketChan] + SelectorBindings(3);
      return Ok(());
    }

    /** The third block: create, set up and bind the accept, request and
        response handlers; a failure is logged and the rest is skipped. */
    method SetUpHandlers(env: InitEnv, ghost m: map<string, Option<Resource>>, ghost bound: seq<Config.CtxBinding>)
      requires Valid() && context.bindings == BindAll(m, bound, ssport)
      modifies this`handlers, context
      ensures context.bindings == BindAll(m, bound + HandlerBindings(env.handlerFails), ssport)
      ensures handlers == old(handlers) + HandlersSetUp(env.handlerFails)
    {
      if env.handlerFails >= 1 {
        handlers := handlers + {AcceptHandler};
        BindTracked(m, bound, Config.AcceptHandler);
        if env.handlerFails >= 2 {
          handlers := handlers + {RequestHandler};
          BindTracked(m, bound + [Config.AcceptHandler], Config.RequestHandler);
          if env.handlerFails >= 3 {
            handlers := handlers + {ResponseHandler};
            assert bound + [Config.AcceptHandler] + [Config.RequestHandler] == bound + [Config.AcceptHandler, Config.RequestHandler];
            BindTracked(m, bound + [Config.AcceptHandler, Config.RequestHandler], Config.ResponseHandler);
            assert bound + [Config.AcceptHandler, Config.RequestHandler] + [Config.ResponseHandler] == bound + HandlerBindings(3);
          } else {
            assert bound + [Config.AcceptHandler] + [Config.RequestHandler] == bound + HandlerBindings(2);
          }
        } else {
          assert bound + [Config.AcceptHandler] == bound + HandlerBindings(1);
        }
      } else {
        assert bound + HandlerBindings(0) == bound;
      }
    }

    /** The last block: register the listening channel with the accept
        selector for OP_ACCEPT, the accept handler attached (null when its
        construction failed); a failure is logged. */
    method RegisterAccept(env: InitEnv)
      requires AcceptSelector in selectors
      modifies this`selectors
      ensures env.registerFails ==> selectors == old(selectors)
      ensures !env.registerFails ==>
                selectors == old(selectors)[AcceptSelector := old(selectors)[AcceptSelector].(registered :=
                  old(selectors)[AcceptSelector].registered + [Registration(SERVER_CHANNEL, OpAccept, AcceptAttachment(env))])]
    {
      if !env.registerFails {
        var asel := selectors[AcceptSelector];
        var attachment := if env.handlerFails == 0 && env.newAcceptFails then None else Some(AcceptHandler);
        selectors := selectors[AcceptSelector := asel.(registered := asel.registered + [Registration(SERVER_CHANNEL, OpAccept, attachment)])];
      }
    }

    /** `context.bind(b.id(), resource)` for the resource `initialize` binds
        under b, keeping track of the bindings made so far. */
    method BindTracked(ghost m: map<string, Option<Resource>>, ghost bound: seq<Config.CtxBinding>, b: Config.CtxBinding)
      requires Valid() && context.bindings == BindAll(m, bound, ssport)
      modifies context
      ensures context.bindings == BindAll(m, bound + [b], ssport)
    {
      var _ := context.Bind(Config.Id(b), Some(ResourceFor(b, ssport)));
      BindAllSnoc(m, bound, b, ssport);
    }
  }
}
