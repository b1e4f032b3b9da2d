/**
 The microservices server component: the object the host framework calls back whenever a
 transport, a service, an interceptor, an exception mapper or a session manager comes or
 goes. It keeps one mutable table from transport id to that channel's registry and
 updates it in place; each callback is proved to leave the state that `ServerModel`'s
 `Dispatch` gives for it.
 */
module Server {
  import opened Wrappers
  import opened MicroservicesRegistry
  import opened ServerModel

  /** One install step: a session-manager callback setting `manager` in every registry it
      targets (one `setSessionManager` per registry, none on an empty table), and how
      many lifecycle calls the trace held at that moment. */
  datatype SlotChange = SlotChange(manager: SessionManager, traceLength: nat)

  class MicroservicesServerSC {
    /** Transport id to that channel's registry (the `microservicesRegistries` map). */
    var registries: Table
    /** The `init()` and `stop()` calls made on session managers, in order. */
    var trace: seq<LifecycleEvent>
    /** How many DefaultSessionManager objects this component has created. */
    var defaultsCreated: nat
    /** One entry per install step (one per session-manager callback that installs,
        covering every registry it targets), in order, with the trace length then. */
    ghost var slotChanges: seq<SlotChange>

    function State(): ServerState
      reads this
    {
      ServerState(registries, trace, defaultsCreated)
    }

    ghost predicate Valid()
      reads this
    {
      ServerModel.Valid(State())
    }

    constructor ()
      ensures State() == Initial()
      ensures slotChanges == []
      ensures Valid()
    {
      registries := map[];
      trace := [];
      defaultsCreated := 0;
      slotChanges := [];
      new;
      InitialValid();
    }

    /** `values().forEach(f)`: update every registry present, one at a time. */
    method ForEachRegistry(f: Registry -> Registry)
      modifies this`registries
      ensures registries == ForEach(old(registries), f)
    {
      ghost var before := registries;
      var pending := registries.Keys;
      while pending != {}
        invariant pending <= before.Keys
        invariant registries.Keys == before.Keys
        invariant forall id :: id in before ==>
          registries[id] == (if id in pending then before[id] else f(before[id]))
        decreases pending
      {
        var id :| id in pending;
        registries := registries[id := f(registries[id])];
        pending := pending - {id};
      }
    }

    /** The body shared by the four component adds: into the named registry, or into
        every registry present now. */
    method AddComponent(k: Kind, c: ComponentId, channel: Option<string>)
      requires Resolves(registries, channel)
      modifies this`registries
      ensures registries == RouteAdd(old(registries), k, c, channel)
    {
      match channel
      case Some(id) =>
        registries := registries[id := Insert(registries[id], k, c)];
      case None =>
        ForEachRegistry(r => Insert(r, k, c));
    }

    /** The body shared by the four component removes: only with a channel id. */
    method RemoveComponent(k: Kind, c: ComponentId, channel: Option<string>)
      requires Resolves(registries, channel)
      modifies this`registries
      ensures registries == RouteRemove(old(registries), k, c, channel)
    {
      if channel.Some? {
        var id := channel.value;
        registries := registries[id := Delete(registries[id], k, c)];
      }
    }

    /** `setSessionManager(m)` on the named registry or on every registry. Only a manager
        that has already been initialised may be installed. */
    method InstallSessionManager(m: SessionManager, channel: Option<string>)
      requires Valid() && Resolves(registries, channel)
      requires Initialised(trace, m) && CreatedBefore(m, defaultsCreated)
      modifies this`registries, this`slotChanges
      ensures Valid()
      ensures registries == RouteSessionManager(old(registries), m, channel)
      ensures slotChanges == old(slotChanges) + [SlotChange(m, |trace|)]
    {
      ghost var s0 := State();
      match channel {
        case Some(id) =>
          registries := registries[id := WithSessionManager(registries[id], m)];
        case None =>
          ForEachRegistry(r => WithSessionManager(r, m));
      }
      slotChanges := slotChanges + [SlotChange(m, |trace|)];
      RouteSessionManagerValid(s0, registries, m, channel);
    }

    method AddCarbonTransport(id: string)
      requires Valid()
      modifies this
      ensures Valid()
      ensures registries == WithTransport(old(registries), id)
      ensures trace == old(trace) && defaultsCreated == old(defaultsCreated)
      ensures slotChanges == old(slotChanges)
      ensures Dispatch(old(State()), Callback.AddCarbonTransport(id)) == Some(State())
    {
      ghost var s0 := State();
      registries := registries[id := Fresh()];
      DispatchValid(s0, Callback.AddCarbonTransport(id));
    }

    method RemoveCarbonTransport(id: string)
      requires Valid()
      modifies this
      ensures Valid()
      ensures registries == WithoutTransport(old(registries), id)
      ensures trace == old(trace) && defaultsCreated == old(defaultsCreated)
      ensures slotChanges == old(slotChanges)
      ensures Dispatch(old(State()), Callback.RemoveCarbonTransport(id)) == Some(State())
    {
      ghost var s0 := State();
      registries := registries - {id};
      DispatchValid(s0, Callback.RemoveCarbonTransport(id));
    }

    method AddService(service: ComponentId, channel: Option<string>)
      requires Valid() && Resolves(registries, channel)
      modifies this
      ensures Valid()
      ensures registries == RouteAdd(old(registries), Services, service, channel)
      ensures trace == old(trace) && defaultsCreated == old(defaultsCreated)
      ensures slotChanges == old(slotChanges)
      ensures Dispatch(old(State()), Callback.AddService(service, channel)) == Some(State())
    {
      ghost var s0 := State();
      AddComponent(Services, service, channel);
      DispatchValid(s0, Callback.AddService(service, channel));
    }

    method RemoveService(service: ComponentId, channel: Option<string>)
      requires Valid() && Resolves(registries, channel)
      modifies this
      ensures Valid()
      ensures registries == RouteRemove(old(registries), Services, service, channel)
      ensures trace == old(trace) && defaultsCreated == old(defaultsCreated)
      ensures slotChanges == old(slotChanges)
      ensures Dispatch(old(State()), Callback.RemoveService(service, channel)) == Some(State())
    {
      ghost var s0 := State();
      RemoveComponent(Services, service, channel);
      DispatchValid(s0, Callback.RemoveService(service, channel));
    }

    method AddSwaggerService(service: ComponentId, channel: Option<string>)
      requires Valid() && Resolves(registries, channel)
      modifies this
      ensures Valid()
      ensures registries == RouteAdd(old(registries), Services, service, channel)
      ensures trace == old(trace) && defaultsCreated == old(defaultsCreated)
      ensures slotChanges == old(slotChanges)
      ensures Dispatch(old(State()), Callback.AddSwaggerService(service, channel)) == Some(State())
    {
      ghost var s0 := State();
      AddComponent(Services, service, channel);
      DispatchValid(s0, Callback.AddSwaggerService(service, channel));
    }

    method RemoveSwaggerService(service: ComponentId, channel: Option<string>)
      requires Valid() && Resolves(registries, channel)
      modifies this
      ensures Valid()
      ensures registries == RouteRemove(old(registries), Services, service, channel)
      ensures trace == old(trace) && defaultsCreated == old(defaultsCreated)
      ensures slotChanges == old(slotChanges)
      ensures Dispatch(old(State()), Callback.RemoveSwaggerService(service, channel)) == Some(State())
    {
      ghost var s0 := State();
      RemoveComponent(Services, service, channel);
      DispatchValid(s0, Callback.RemoveSwaggerService(service, channel));
    }

    method AddInterceptor(interceptor: ComponentId, channel: Option<string>)
      requires Valid() && Resolves(registries, channel)
      modifies this
      ensures Valid()
      ensures registries == RouteAdd(old(registries), Interceptors, interceptor, channel)
      ensures trace == old(trace) && defaultsCreated == old(defaultsCreated)
      ensures slotChanges == old(slotChanges)
      ensures Dispatch(old(State()), Callback.AddInterceptor(interceptor, channel)) == Some(State())
    {
      ghost var s0 := State();
      AddComponent(Interceptors, interceptor, channel);
      DispatchValid(s0, Callback.AddInterceptor(interceptor, channel));
    }

    method RemoveInterceptor(interceptor: ComponentId, channel: Option<string>)
      requires Valid() && Resolves(registries, channel)
      modifies this
      ensures Valid()
      ensures registries == RouteRemove(old(registries), Interceptors, interceptor, channel)
      ensures trace == old(trace) && defaultsCreated == old(defaultsCreated)
      ensures slotChanges == old(slotChanges)
      ensures Dispatch(old(State()), Callback.RemoveInterceptor(interceptor, channel)) == Some(State())
    {
      ghost var s0 := State();
      RemoveComponent(Interceptors, interceptor, channel);
      DispatchValid(s0, Callback.RemoveInterceptor(interceptor, channel));
    }

    method AddExceptionMapper(mapper: ComponentId, channel: Option<string>)
      requires Valid() && Resolves(registries, channel)
      modifies this
      ensures Valid()
      ensures registries == RouteAdd(old(registries), ExceptionMappers, mapper, channel)
      ensures trace == old(trace) && defaultsCreated == old(defaultsCreated)
      ensures slotChanges == old(slotChanges)
      ensures Dispatch(old(State()), Callback.AddExceptionMapper(mapper, channel)) == Some(State())
    {
      ghost var s0 := State();
      AddComponent(ExceptionMappers, mapper, channel);
      DispatchValid(s0, Callback.AddExceptionMapper(mapper, channel));
    }

    method RemoveExceptionMapper(mapper: ComponentId, channel: Option<string>)
      requires Valid() && Resolves(registries, channel)
      modifies this
      ensures Valid()
      ensures registries == RouteRemove(old(registries), ExceptionMappers, mapper, channel)
      ensures trace == old(trace) && defaultsCreated == old(defaultsCreated)
      ensures slotChanges == old(slotChanges)
      ensures Dispatch(old(State()), Callback.RemoveExceptionMapper(mapper, channel)) == Some(State())
    {
      ghost var s0 := State();
      RemoveComponent(ExceptionMappers, mapper, channel);
      DispatchValid(s0, Callback.RemoveExceptionMapper(mapper, channel));
    }

    /** `init()` the manager first, then install it: the one slot change this call makes
        is recorded when the trace already ends with this call's `Init`. */
    method AddSessionManager(sessionManager: ComponentId, channel: Option<string>)
      requires Valid() && Resolves(registries, channel)
      modifies this
      ensures Valid()
      ensures State() == AddSessionManagerStep(old(State()), sessionManager, channel)
      ensures slotChanges == old(slotChanges) + [SlotChange(Custom(sessionManager), |old(trace)| + 1)]
      ensures Dispatch(old(State()), Callback.AddSessionManager(sessionManager, channel)) == Some(State())
    {
      ghost var s0 := State();
      var m := Custom(sessionManager);
      trace := trace + [Init(m)];
      ExtendTraceValid(s0, [Init(m)], defaultsCreated);
      assert trace[|trace| - 1] == Init(m);
      InstallSessionManager(m, channel);
      DispatchSessionManager(s0, sessionManager, channel);
    }

    /** With a channel id: `stop()` the given manager, create and `init()` a new
        DefaultSessionManager, install it in that registry; the slot change is recorded
        after both calls. */
    method RemoveSessionManager(sessionManager: ComponentId, channel: Option<string>)
      requires Valid() && Resolves(registries, channel)
      modifies this
      ensures Valid()
      ensures State() == RemoveSessionManagerStep(old(State()), sessionManager, channel)
      ensures slotChanges == if channel.None? then old(slotChanges)
                             else old(slotChanges) + [SlotChange(Default(old(defaultsCreated)), |old(trace)| + 2)]
      ensures Dispatch(old(State()), Callback.RemoveSessionManager(sessionManager, channel)) == Some(State())
    {
      if channel.Some? {
        ghost var s0 := State();
        ghost var calls := [Stop(Custom(sessionManager)), Init(Default(defaultsCreated))];
        trace := trace + [Stop(Custom(sessionManager))];
        var defaultManager := Default(defaultsCreated);
        defaultsCreated := defaultsCreated + 1;
        trace := trace + [Init(defaultManager)];
        assert trace == s0.trace + calls;
        ExtendTraceValid(s0, calls, defaultsCreated);
        assert trace[|trace| - 1] == Init(defaultManager);
        InstallSessionManager(defaultManager, channel);
        assert State() == RemoveSessionManagerStep(s0, sessionManager, channel);
        DispatchSessionManager(s0, sessionManager, channel);
      }
    }
  }
}
