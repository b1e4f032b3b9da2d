/**
 The channel-registry table of the microservices server component and the effect of each
 of its bind and unbind callbacks, stated as functions on values. The class in
 server.dfy performs these callbacks step by step and is proved to produce exactly
 these values; the lemmas below state what holds over any sequence of callbacks.
 */
module ServerModel {
  import opened Wrappers
  import opened MicroservicesRegistry

  /** Transport (channel) id to that channel's registry. */
  type Table = map<string, Registry>

  /** A channel-scoped operation targets registry `id`; a channel-less one targets all. */
  predicate Targets(channel: Option<string>, id: string)
  {
    channel.None? || channel.value == id
  }

  /** A channel-scoped operation only works when the table holds the channel id: looking
      up any other id yields null and the callback throws. */
  predicate Resolves(t: Table, channel: Option<string>)
  {
    channel.Some? ==> channel.value in t
  }

  // ---------------------------------------------------------------------------------
  // Transport callbacks

  /** `addCarbonTransport`: a fresh registry under the transport's id. An entry already
      under that id is replaced, and everything it held is gone. */
  function WithTransport(t: Table, id: string): (t': Table)
    ensures t'.Keys == t.Keys + {id}
    ensures t'[id] == Fresh()
    ensures forall other :: other in t && other != id ==> t'[other] == t[other]
  {
    t[id := Fresh()]
  }

  /** `removeCarbonTransport`: drop the transport's id; an absent id leaves the table as
      it is. */
  function WithoutTransport(t: Table, id: string): (t': Table)
    ensures t'.Keys == t.Keys - {id}
    ensures forall other :: other in t' ==> t'[other] == t[other]
    ensures id !in t ==> t' == t
  {
    t - {id}
  }

  // ---------------------------------------------------------------------------------
  // Routing of components

  /** `values().forEach(f)`: apply `f` to every registry present now. */
  function ForEach(t: Table, f: Registry -> Registry): (t': Table)
    ensures t'.Keys == t.Keys
    ensures forall id :: id in t ==> t'[id] == f(t[id])
  {
    map id | id in t :: f(t[id])
  }

  /** Apply `f` to the one registry the channel names, or to every registry when there
      is no channel. */
  function Routed(t: Table, channel: Option<string>, f: Registry -> Registry): (t': Table)
    requires Resolves(t, channel)
    ensures t'.Keys == t.Keys
    ensures forall id :: id in t ==> t'[id] == (if Targets(channel, id) then f(t[id]) else t[id])
  {
    match channel
    case None => ForEach(t, f)
    case Some(id) => t[id := f(t[id])]
  }

  /** `addService`, `addSwaggerService`, `addInterceptor`, `addExceptionMapper`. */
  function RouteAdd(t: Table, k: Kind, c: ComponentId, channel: Option<string>): (t': Table)
    requires Resolves(t, channel)
    ensures t'.Keys == t.Keys
    ensures forall id :: id in t ==>
      Members(t'[id], k) == (if Targets(channel, id) then Members(t[id], k) + {c} else Members(t[id], k))
    ensures forall id, k' :: id in t && k' != k ==> Members(t'[id], k') == Members(t[id], k')
    ensures forall id :: id in t ==> t'[id].sessionManager == t[id].sessionManager
    ensures forall id :: id in t && !Targets(channel, id) ==> t'[id] == t[id]
  {
    Routed(t, channel, r => Insert(r, k, c))
  }

  /** `removeService`, `removeSwaggerService`, `removeInterceptor`,
      `removeExceptionMapper`: only a channel-scoped remove does anything. */
  function RouteRemove(t: Table, k: Kind, c: ComponentId, channel: Option<string>): (t': Table)
    requires Resolves(t, channel)
    ensures channel.None? ==> t' == t
    ensures t'.Keys == t.Keys
    ensures forall id :: id in t ==>
      Members(t'[id], k) == (if channel == Some(id) then Members(t[id], k) - {c} else Members(t[id], k))
    ensures forall id, k' :: id in t && k' != k ==> Members(t'[id], k') == Members(t[id], k')
    ensures forall id :: id in t ==> t'[id].sessionManager == t[id].sessionManager
    ensures forall id :: id in t && channel != Some(id) ==> t'[id] == t[id]
  {
    match channel
    case None => t
    case Some(id) => t[id := Delete(t[id], k, c)]
  }

  /** `setSessionManager(m)` on the named registry, or on every registry. */
  function RouteSessionManager(t: Table, m: SessionManager, channel: Option<string>): (t': Table)
    requires Resolves(t, channel)
    ensures t'.Keys == t.Keys
    ensures forall id :: id in t ==>
      t'[id].sessionManager == (if Targets(channel, id) then m else t[id].sessionManager)
    ensures forall id, k :: id in t ==> Members(t'[id], k) == Members(t[id], k)
    ensures forall id :: id in t && !Targets(channel, id) ==> t'[id] == t[id]
  {
    Routed(t, channel, r => WithSessionManager(r, m))
  }

  // ---------------------------------------------------------------------------------
  // Session managers and the lifecycle trace

  /** A call of `init()` or `stop()` on a session manager. */
  datatype LifecycleEvent = Init(manager: SessionManager) | Stop(manager: SessionManager)

  /** Everything the callbacks change: the table, the session-manager calls made so far,
      and how many DefaultSessionManager objects have been created. */
  datatype ServerState = ServerState(registries: Table, trace: seq<LifecycleEvent>, defaultsCreated: nat)

  /** The state when the component is constructed: an empty table. */
  function Initial(): ServerState
  {
    ServerState(map[], [], 0)
  }

  /** `addSessionManager`: `init()` the manager once, then install it in the named
      registry or in every registry present. */
  function AddSessionManagerStep(s: ServerState, sm: ComponentId, channel: Option<string>): (s': ServerState)
    requires Resolves(s.registries, channel)
    ensures s'.trace == s.trace + [Init(Custom(sm))]
    ensures s'.defaultsCreated == s.defaultsCreated
    ensures s'.registries.Keys == s.registries.Keys
    ensures forall id :: id in s.registries ==>
      s'.registries[id].sessionManager == (if Targets(channel, id) then Custom(sm) else s.registries[id].sessionManager)
    ensures forall id, k :: id in s.registries ==> Members(s'.registries[id], k) == Members(s.registries[id], k)
  {
    ServerState(RouteSessionManager(s.registries, Custom(sm), channel), s.trace + [Init(Custom(sm))], s.defaultsCreated)
  }

  /** `removeSessionManager`: without a channel nothing happens. With one, `stop()` the
      given manager, create and `init()` a new DefaultSessionManager and install it in
      that registry only. */
  function RemoveSessionManagerStep(s: ServerState, sm: ComponentId, channel: Option<string>): (s': ServerState)
    requires Resolves(s.registries, channel)
    ensures channel.None? ==> s' == s
    ensures channel.Some? ==>
      && s'.trace == s.trace + [Stop(Custom(sm)), Init(Default(s.defaultsCreated))]
      && s'.defaultsCreated == s.defaultsCreated + 1
    ensures s'.registries.Keys == s.registries.Keys
    ensures forall id :: id in s.registries ==>
      s'.registries[id] == (if channel == Some(id)
                            then WithSessionManager(s.registries[id], Default(s.defaultsCreated))
                            else s.registries[id])
  {
    match channel
    case None => s
    case Some(_) =>
      var newDefault := Default(s.defaultsCreated);
      ServerState(RouteSessionManager(s.registries, newDefault, channel),
                  s.trace + [Stop(Custom(sm)), Init(newDefault)],
                  s.defaultsCreated + 1)
  }

  // ---------------------------------------------------------------------------------
  // The callbacks

  /** One bind or unbind callback of the server component, with its arguments. */
  datatype Callback =
    | AddCarbonTransport(transportId: string)
    | RemoveCarbonTransport(transportId: string)
    | AddService(component: ComponentId, channel: Option<string>)
    | RemoveService(component: ComponentId, channel: Option<string>)
    | AddSwaggerService(component: ComponentId, channel: Option<string>)
    | RemoveSwaggerService(component: ComponentId, channel: Option<string>)
    | AddInterceptor(component: ComponentId, channel: Option<string>)
    | RemoveInterceptor(component: ComponentId, channel: Option<string>)
    | AddExceptionMapper(component: ComponentId, channel: Option<string>)
    | RemoveExceptionMapper(component: ComponentId, channel: Option<string>)
    | AddSessionManager(component: ComponentId, channel: Option<string>)
    | RemoveSessionManager(component: ComponentId, channel: Option<string>)
  {
    predicate IsTransport()
    {
      AddCarbonTransport? || RemoveCarbonTransport?
    }

    predicate IsRemove()
    {
      RemoveCarbonTransport? || RemoveService? || RemoveSwaggerService? || RemoveInterceptor?
      || RemoveExceptionMapper? || RemoveSessionManager?
    }
  }

  /** A callback runs to completion unless it looks up a channel id the table lacks. */
  predicate Accepted(s: ServerState, cb: Callback)
  {
    cb.IsTransport() || Resolves(s.registries, cb.channel)
  }

  /** The table's key set after a callback: only the transport callbacks change it. */
  function KeysAfter(keys: set<string>, cb: Callback): set<string>
  {
    match cb
    case AddCarbonTransport(id) => keys + {id}
    case RemoveCarbonTransport(id) => keys - {id}
    case _ => keys
  }

  /** The state after one callback, or None when the callback throws on a missing
      channel id. */
  function Dispatch(s: ServerState, cb: Callback): (r: Option<ServerState>)
    ensures r.Some? <==> Accepted(s, cb)
    ensures r.Some? ==> r.value.registries.Keys == KeysAfter(s.registries.Keys, cb)
  {
    if !Accepted(s, cb) then None
    else
      var t := s.registries;
      Some(match cb
        case AddCarbonTransport(id) => s.(registries := WithTransport(t, id))
        case RemoveCarbonTransport(id) => s.(registries := WithoutTransport(t, id))
        case AddService(c, ch) => s.(registries := RouteAdd(t, Services, c, ch))
        case RemoveService(c, ch) => s.(registries := RouteRemove(t, Services, c, ch))
        case AddSwaggerService(c, ch) => s.(registries := RouteAdd(t, Services, c, ch))
        case RemoveSwaggerService(c, ch) => s.(registries := RouteRemove(t, Services, c, ch))
        case AddInterceptor(c, ch) => s.(registries := RouteAdd(t, Interceptors, c, ch))
        case RemoveInterceptor(c, ch) => s.(registries := RouteRemove(t, Interceptors, c, ch))
        case AddExceptionMapper(c, ch) => s.(registries := RouteAdd(t, ExceptionMappers, c, ch))
        case RemoveExceptionMapper(c, ch) => s.(registries := RouteRemove(t, ExceptionMappers, c, ch))
        case AddSessionManager(c, ch) => AddSessionManagerStep(s, c, ch)
        case RemoveSessionManager(c, ch) => RemoveSessionManagerStep(s, c, ch))
  }

  /** What `Dispatch` does with the two session-manager callbacks. */
  lemma DispatchSessionManager(s: ServerState, sm: ComponentId, channel: Option<string>)
    requires Resolves(s.registries, channel)
    ensures Dispatch(s, AddSessionManager(sm, channel)) == Some(AddSessionManagerStep(s, sm, channel))
    ensures Dispatch(s, RemoveSessionManager(sm, channel)) == Some(RemoveSessionManagerStep(s, sm, channel))
  {
  }

  /** The state after a sequence of callbacks from construction on, or None if one of
      them throws. */
  function Run(cbs: seq<Callback>): Option<ServerState>
    decreases |cbs|
  {
    if |cbs| == 0 then Some(Initial())
    else match Run(cbs[..|cbs| - 1])
      case None => None
      case Some(s) => Dispatch(s, cbs[|cbs| - 1])
  }

  // ---------------------------------------------------------------------------------
  // The invariant every reachable state keeps

  /** A manager the server component installs has had `init()` called on it. */
  predicate Initialised(trace: seq<LifecycleEvent>, m: SessionManager)
  {
    m.Builtin? || Init(m) in trace
  }

  /** Every DefaultSessionManager mentioned so far was created before the n-th. */
  predicate CreatedBefore(m: SessionManager, n: nat)
  {
    m.Default? ==> m.serial < n
  }

  /** No registry holds a session manager that was not initialised first, and the
      default managers seen so far are exactly those already created. */
  ghost predicate Valid(s: ServerState)
  {
    && (forall id :: id in s.registries ==> Initialised(s.trace, s.registries[id].sessionManager))
    && (forall id :: id in s.registries ==> CreatedBefore(s.registries[id].sessionManager, s.defaultsCreated))
    && (forall i :: 0 <= i < |s.trace| ==> CreatedBefore(s.trace[i].manager, s.defaultsCreated))
  }

  /** The component as constructed satisfies the invariant. */
  lemma InitialValid()
    ensures Valid(Initial())
  {
  }

  /** Installing an initialised manager keeps the invariant. */
  lemma RouteSessionManagerValid(s: ServerState, t': Table, m: SessionManager, channel: Option<string>)
    requires Valid(s) && Resolves(s.registries, channel)
    requires Initialised(s.trace, m) && CreatedBefore(m, s.defaultsCreated)
    requires t' == RouteSessionManager(s.registries, m, channel)
    ensures Valid(s.(registries := t'))
  {
  }

  /** Recording more lifecycle calls, and creating more default managers, keeps the
      invariant as long as the calls concern managers already created. */
  lemma ExtendTraceValid(s: ServerState, events: seq<LifecycleEvent>, n: nat)
    requires Valid(s) && s.defaultsCreated <= n
    requires forall i :: 0 <= i < |events| ==> CreatedBefore(events[i].manager, n)
    ensures Valid(ServerState(s.registries, s.trace + events, n))
  {
  }

  /** Every accepted callback keeps the invariant. */
  lemma DispatchValid(s: ServerState, cb: Callback)
    requires Valid(s) && Dispatch(s, cb).Some?
    ensures Valid(Dispatch(s, cb).value)
  {
    var s' := Dispatch(s, cb).value;
    match cb
    case AddSessionManager(c, ch) =>
      ExtendTraceValid(s, [Init(Custom(c))], s.defaultsCreated);
      var u := ServerState(s.registries, s'.trace, s.defaultsCreated);
      assert u.trace[|u.trace| - 1] == Init(Custom(c));
      RouteSessionManagerValid(u, s'.registries, Custom(c), ch);
    case RemoveSessionManager(c, ch) =>
      if ch.Some? {
        var newDefault := Default(s.defaultsCreated);
        ExtendTraceValid(s, [Stop(Custom(c)), Init(newDefault)], s.defaultsCreated + 1);
        var u := ServerState(s.registries, s'.trace, s'.defaultsCreated);
        assert u.trace[|u.trace| - 1] == Init(newDefault);
        RouteSessionManagerValid(u, s'.registries, newDefault, ch);
      }
    case _ =>
  }

  /** Every state reachable by callbacks keeps the invariant. */
  lemma {:induction false} RunValid(cbs: seq<Callback>)
    requires Run(cbs).Some?
    ensures Valid(Run(cbs).value)
  {
    if |cbs| == 0 {
      InitialValid();
    } else {
      var prefix := cbs[..|cbs| - 1];
      RunValid(prefix);
      DispatchValid(Run(prefix).value, cbs[|cbs| - 1]);
    }
  }

  // ---------------------------------------------------------------------------------
  // The table's key set over any sequence of callbacks

  /** Transport `id` has been added and not removed since. */
  ghost predicate AddedAndNotSinceRemoved(cbs: seq<Callback>, id: string)
  {
    exists i :: 0 <= i < |cbs| && cbs[i] == AddCarbonTransport(id)
      && forall j :: i < j < |cbs| ==> cbs[j] != RemoveCarbonTransport(id)
  }

  /** How one more callback changes whether a transport is live. */
  lemma AddedAndNotSinceRemovedStep(cbs: seq<Callback>, id: string)
    requires |cbs| > 0
    ensures AddedAndNotSinceRemoved(cbs, id) <==>
      if cbs[|cbs| - 1] == AddCarbonTransport(id) then true
      else if cbs[|cbs| - 1] == RemoveCarbonTransport(id) then false
      else AddedAndNotSinceRemoved(cbs[..|cbs| - 1], id)
  {
  }

  /** After any sequence of callbacks that ran to completion, the table holds exactly the
      transports added and not removed since. */
  lemma {:induction false} LiveChannels(cbs: seq<Callback>)
    requires Run(cbs).Some?
    ensures forall id :: id in Run(cbs).value.registries <==> AddedAndNotSinceRemoved(cbs, id)
  {
    if |cbs| > 0 {
      var prefix := cbs[..|cbs| - 1];
      LiveChannels(prefix);
      forall id ensures id in Run(cbs).value.registries <==> AddedAndNotSinceRemoved(cbs, id) {
        AddedAndNotSinceRemovedStep(cbs, id);
      }
    }
  }

  /** Transport callbacks never look anything up, so a run made of them alone always
      completes. */
  lemma {:induction false} TransportRunsComplete(cbs: seq<Callback>)
    requires forall i :: 0 <= i < |cbs| ==> cbs[i].IsTransport()
    ensures Run(cbs).Some?
  {
    if |cbs| > 0 {
      var prefix := cbs[..|cbs| - 1];
      assert forall i :: 0 <= i < |prefix| ==> prefix[i] == cbs[i];
      TransportRunsComplete(prefix);
    }
  }

  /** Across any sequence of transport adds and removes, the table holds exactly the
      transports added and not removed since. */
  lemma TransportLiveChannels(cbs: seq<Callback>)
    requires forall i :: 0 <= i < |cbs| ==> cbs[i].IsTransport()
    ensures Run(cbs).Some?
    ensures forall id :: id in Run(cbs).value.registries <==> AddedAndNotSinceRemoved(cbs, id)
  {
    TransportRunsComplete(cbs);
    LiveChannels(cbs);
  }

  // ---------------------------------------------------------------------------------
  // Properties of single callbacks and of short sequences

  /** Removing a transport after adding it leaves the table as removing it alone would:
      in particular a transport that was absent leaves no trace. */
  lemma TransportRemoveUndoesAdd(t: Table, id: string)
    ensures WithoutTransport(WithTransport(t, id), id) == WithoutTransport(t, id)
    ensures id !in t ==> WithoutTransport(WithTransport(t, id), id) == t
  {
  }

  /** A channel-scoped remove undoes a channel-scoped add of a component the registry did
      not hold. */
  lemma ScopedRemoveUndoesAdd(t: Table, k: Kind, c: ComponentId, id: string)
    requires id in t && c !in Members(t[id], k)
    ensures RouteRemove(RouteAdd(t, k, c, Some(id)), k, c, Some(id)) == t
  {
  }

  /** A broadcast add is not undone by a channel-less remove: every registry present at
      the add keeps the component. */
  lemma BroadcastAddNotUndone(t: Table, k: Kind, c: ComponentId)
    ensures forall id :: id in t ==> c in Members(RouteRemove(RouteAdd(t, k, c, None), k, c, None)[id], k)
  {
  }

  /** A broadcast reaches only registries present at call time: a transport added later
      starts with an empty registry. */
  lemma BroadcastIsSnapshot(t: Table, k: Kind, c: ComponentId, id: string)
    ensures c !in Members(WithTransport(RouteAdd(t, k, c, None), id)[id], k)
  {
  }

  /** Swagger services are added to and removed from the same service collection as
      microservices. */
  lemma SwaggerServicesAreServices(s: ServerState, c: ComponentId, channel: Option<string>)
    ensures Dispatch(s, AddSwaggerService(c, channel)) == Dispatch(s, AddService(c, channel))
    ensures Dispatch(s, RemoveSwaggerService(c, channel)) == Dispatch(s, RemoveService(c, channel))
  {
  }

  /** A remove callback of a component without a channel id changes nothing. */
  lemma ChannelLessRemoveIsNoOp(s: ServerState, cb: Callback)
    requires cb.IsRemove() && !cb.IsTransport() && cb.channel.None?
    ensures Dispatch(s, cb) == Some(s)
  {
  }

  /** The manager `removeSessionManager` installs is a DefaultSessionManager that has been
      initialised and that was never seen before: no registry held it and it received no
      earlier call. */
  lemma RemoveInstallsFreshDefault(s: ServerState, sm: ComponentId, id: string)
    requires Valid(s) && id in s.registries
    ensures var s' := RemoveSessionManagerStep(s, sm, Some(id));
      var m := s'.registries[id].sessionManager;
      && m.Default?
      && Init(m) in s'.trace
      && (forall i :: 0 <= i < |s.trace| ==> s.trace[i].manager != m)
      && (forall other :: other in s.registries ==> s.registries[other].sessionManager != m)
  {
  }

  /** Adding a custom session manager to a channel and then removing it: the trace gains
      exactly one init of the custom manager, one stop of it and one init of a new
      default, and the registry ends up with that default and its components intact. */
  lemma AddThenRemoveSessionManager(s: ServerState, sm: ComponentId, id: string)
    requires id in s.registries
    ensures var s1 := AddSessionManagerStep(s, sm, Some(id));
      var s2 := RemoveSessionManagerStep(s1, sm, Some(id));
      && s2.trace == s.trace + [Init(Custom(sm)), Stop(Custom(sm)), Init(Default(s.defaultsCreated))]
      && s2.registries[id] == WithSessionManager(s.registries[id], Default(s.defaultsCreated))
      && (forall other :: other in s.registries && other != id ==> s2.registries[other] == s.registries[other])
      && s2.registries.Keys == s.registries.Keys
  {
  }

  /** Running one more callback continues from the state the earlier ones left. */
  lemma RunAppend(cbs: seq<Callback>, cb: Callback)
    ensures Run(cbs + [cb]) == if Run(cbs).None? then None else Dispatch(Run(cbs).value, cb)
  {
    assert (cbs + [cb])[..|cbs|] == cbs;
  }

  /** The table after each callback of the two-channel scenario. */
  function ScenarioState(t1: string, t2: string, m1: ComponentId, i1: ComponentId, step: nat): ServerState
  {
    var r1 := Registry({m1}, {}, {}, Builtin);
    var r2 := Registry({}, {i1}, {}, Builtin);
    ServerState(if step == 0 then map[]
                else if step == 1 then map[t1 := Fresh()]
                else if step == 2 then map[t1 := r1]
                else if step == 3 then map[t1 := r1, t2 := Fresh()]
                else if step == 4 then map[t1 := r1, t2 := r2]
                else map[t2 := r2],
                [], 0)
  }

  /** The callbacks of the two-channel scenario. */
  function ScenarioCallbacks(t1: string, t2: string, m1: ComponentId, i1: ComponentId): seq<Callback>
  {
    [AddCarbonTransport(t1), AddService(m1, None), AddCarbonTransport(t2),
     AddInterceptor(i1, Some(t2)), RemoveCarbonTransport(t1)]
  }

  /** Each callback of the scenario leads from one listed state to the next. */
  lemma ScenarioSteps(t1: string, t2: string, m1: ComponentId, i1: ComponentId, step: nat)
    requires t1 != t2 && step < 5
    ensures Dispatch(ScenarioState(t1, t2, m1, i1, step), ScenarioCallbacks(t1, t2, m1, i1)[step])
            == Some(ScenarioState(t1, t2, m1, i1, step + 1))
  {
    var s := ScenarioState(t1, t2, m1, i1, step);
    var s' := ScenarioState(t1, t2, m1, i1, step + 1);
    if step == 1 {
      var t := RouteAdd(s.registries, Services, m1, None);
      Extensionality(t[t1], s'.registries[t1]);
      assert t == s'.registries;
    } else if step == 3 {
      var t := RouteAdd(s.registries, Interceptors, i1, Some(t2));
      Extensionality(t[t2], s'.registries[t2]);
      assert t == s'.registries;
    } else if step == 4 {
      assert WithoutTransport(s.registries, t1) == s'.registries;
    }
  }

  /** The first k callbacks of the scenario lead to the k-th listed state. */
  lemma {:induction false} ScenarioPrefix(t1: string, t2: string, m1: ComponentId, i1: ComponentId, k: nat)
    requires t1 != t2 && k <= 5
    ensures Run(ScenarioCallbacks(t1, t2, m1, i1)[..k]) == Some(ScenarioState(t1, t2, m1, i1, k))
  {
    var cbs := ScenarioCallbacks(t1, t2, m1, i1);
    if k == 0 {
      assert cbs[..0] == [];
    } else {
      ScenarioPrefix(t1, t2, m1, i1, k - 1);
      ScenarioSteps(t1, t2, m1, i1, k - 1);
      RunAppend(cbs[..k - 1], cbs[k - 1]);
      assert cbs[..k - 1] + [cbs[k - 1]] == cbs[..k];
    }
  }

  /** Two transports, a broadcast service, a scoped interceptor, then the first transport
      leaves: the service reached only the first registry, the interceptor only the second,
      and the second registry survives the first one's removal untouched. */
  lemma TwoChannelScenario(t1: string, t2: string, m1: ComponentId, i1: ComponentId)
    requires t1 != t2
    ensures var r := Run(ScenarioCallbacks(t1, t2, m1, i1));
      && r.Some?
      && r.value.registries.Keys == {t2}
      && r.value.registries[t2] == Registry({}, {i1}, {}, Builtin)
      && r.value.trace == []
  {
    ScenarioPrefix(t1, t2, m1, i1, 5);
    assert ScenarioCallbacks(t1, t2, m1, i1)[..5] == ScenarioCallbacks(t1, t2, m1, i1);
  }
}
