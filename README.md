# Channel registries of the msf4j microservices server component

This project models the core of `MicroservicesServerSC`, the OSGi service component of
the msf4j microservices server, and proves properties of that model. The component keeps
one mutable table, `microservicesRegistries`. It maps a transport (channel) id to that
channel's `MicroservicesRegistry`. The host framework calls bind and unbind callbacks on
the component when these come and go:

- carbon transports: a new transport gets a fresh registry under its id, and a departing
  transport's id is dropped from the table;
- microservices, Swagger services, interceptors and exception mappers: each may carry a
  channel id. With one, the component goes to that one registry. Without one, an add goes
  to every registry present at that moment, and a remove does nothing;
- session managers: an add calls `init()` on the manager, then installs it in the named
  registry or in every registry. A remove with a channel id calls `stop()` on the given
  manager, creates and `init()`s a new `DefaultSessionManager`, and installs it in that
  registry. A remove without a channel id does nothing.

Files:

- `wrappers.dfy`: `Option`, used for the optional channel id.
- `registry.dfy` (module `MicroservicesRegistry`): one registry as a value. It holds a
  set of services, a set of interceptors, a set of exception mappers and a session-manager
  slot. Components are opaque identities (`ComponentId`). Microservices and Swagger
  services share the service set.
- `server_model.dfy` (module `ServerModel`): the table and the state of the component as
  values, one function per kind of callback (the four component adds share `RouteAdd`,
  the four removes share `RouteRemove`), combined in `Dispatch` over a `Callback`
  datatype, `Run` over a sequence of callbacks, the invariant `Valid`, and the lemmas. The calls of `init()` and
  `stop()` are recorded in a trace of `LifecycleEvent`s, so their order and number can
  be stated. Each `new DefaultSessionManager()` is `Default(n)`, where `n` counts the
  defaults created so far.
- `server.dfy` (module `Server`): class `MicroservicesServerSC`. It has the table as a
  `map` field, plus the trace and the default counter. Its methods update these in
  place. A broadcast is a loop over the table's keys. Every callback method is proved to
  leave exactly the state that `ServerModel.Dispatch` gives for its callback, and to keep
  `Valid`. A ghost history `slotChanges` has one entry per install step: one per
  session-manager callback that installs, covering every registry it targets (one
  `setSessionManager` per registry), with how many lifecycle calls the trace held at that
  moment. So the session-manager methods can state that their `init()` comes before their
  install.

A channel-scoped callback whose channel id is not in the table dereferences `null` in the
source. In the class this case is a `requires` (the channel id resolves). In `Dispatch` and
`Run` it is `None`: the callback throws, and the run stops there.

The model keeps these behaviours of the code:

- a transport whose id is already in the table replaces the old registry and everything in
  it (`HashMap.put`);
- a component remove without a channel id does nothing, for every kind;
- a channel-scoped remove on an id missing from the table throws, as an add does;
- `removeSessionManager` calls `stop()` on the manager it is given. That manager need not
  be the one the registry holds, and the registry's manager is replaced by the new default
  in either case.

## Model

| member | source | states |
|---|---|---|
| MicroservicesRegistry.Fresh | core/src/main/java/org/wso2/msf4j/internal/MicroservicesServerSC.java:116 | a new registry holds no components and only its own session manager |
| MicroservicesRegistry.Insert | core/src/main/java/org/wso2/msf4j/internal/MicroservicesServerSC.java:72 | adding a component puts it into exactly the collection of its kind; the other collections and the session manager stay as they were |
| MicroservicesRegistry.Delete | core/src/main/java/org/wso2/msf4j/internal/MicroservicesServerSC.java:81 | removing a component takes it out of the collection of its kind only |
| MicroservicesRegistry.WithSessionManager | core/src/main/java/org/wso2/msf4j/internal/MicroservicesServerSC.java:185 | `setSessionManager` changes the slot and no collection |
| MicroservicesRegistry.DeleteUndoesInsert | core/src/main/java/org/wso2/msf4j/internal/MicroservicesServerSC.java:72-81 | removing a component that was just added, and was not there before, gives back the original registry |
| ServerModel.WithTransport | core/src/main/java/org/wso2/msf4j/internal/MicroservicesServerSC.java:115-122 | the transport's id maps to a fresh registry, replacing any earlier entry; every other key and registry is unchanged |
| ServerModel.WithoutTransport | core/src/main/java/org/wso2/msf4j/internal/MicroservicesServerSC.java:124-126 | only the transport's id leaves the key set; other registries are untouched; an absent id leaves the table unchanged |
| ServerModel.ForEach | core/src/main/java/org/wso2/msf4j/internal/MicroservicesServerSC.java:74 | a broadcast updates every registry present and keeps the key set |
| ServerModel.Routed | core/src/main/java/org/wso2/msf4j/internal/MicroservicesServerSC.java:71-75 | with a channel id only that registry is updated; without one every present registry is; the key set is unchanged |
| ServerModel.RouteAdd | core/src/main/java/org/wso2/msf4j/internal/MicroservicesServerSC.java:68-76 | the component joins the collection of its kind in exactly the targeted registries; other collections, session managers and untargeted registries are unchanged |
| ServerModel.RouteRemove | core/src/main/java/org/wso2/msf4j/internal/MicroservicesServerSC.java:78-83 | without a channel id the table is unchanged; with one, the component leaves that registry's collection only |
| ServerModel.RouteSessionManager | core/src/main/java/org/wso2/msf4j/internal/MicroservicesServerSC.java:184-188 | the manager is installed in exactly the targeted registries; no collection changes |
| ServerModel.AddSessionManagerStep | core/src/main/java/org/wso2/msf4j/internal/MicroservicesServerSC.java:181-189 | exactly one `Init` of the manager is appended to the trace, and the manager is installed in the named registry or in every present registry |
| ServerModel.RemoveSessionManagerStep | core/src/main/java/org/wso2/msf4j/internal/MicroservicesServerSC.java:191-199 | without a channel id nothing changes; with one, `Stop` of the given manager then `Init` of a new default are appended, and that default is installed in the named registry only |
| ServerModel.Dispatch | core/src/main/java/org/wso2/msf4j/internal/MicroservicesServerSC.java:68-199 | a callback completes exactly when it is a transport callback or its channel id resolves; only transport callbacks change the key set, by adding or removing their id |
| ServerModel.RouteSessionManagerValid | core/src/main/java/org/wso2/msf4j/internal/MicroservicesServerSC.java:183-187 | installing a manager that was initialised keeps the invariant that every installed manager was initialised |
| ServerModel.ExtendTraceValid | core/src/main/java/org/wso2/msf4j/internal/MicroservicesServerSC.java:194-196 | recording further `init()`/`stop()` calls on managers already created keeps the invariant |
| ServerModel.DispatchValid | core/src/main/java/org/wso2/msf4j/internal/MicroservicesServerSC.java:68-199 | every callback that completes keeps the invariant |
| ServerModel.InitialValid | core/src/main/java/org/wso2/msf4j/internal/MicroservicesServerSC.java:54 | the empty table satisfies the invariant |
| ServerModel.RunValid | core/src/main/java/org/wso2/msf4j/internal/MicroservicesServerSC.java:54-199 | after any sequence of callbacks that runs to completion, no registry holds a manager the component installed without calling `init()` on it first |
| ServerModel.AddedAndNotSinceRemovedStep | core/src/main/java/org/wso2/msf4j/internal/MicroservicesServerSC.java:119-125 | a transport is live after one more callback exactly when that callback adds it, or it was live before and the callback does not remove it |
| ServerModel.LiveChannels | core/src/main/java/org/wso2/msf4j/internal/MicroservicesServerSC.java:54-126 | after any sequence of callbacks that runs to completion, the table's keys are exactly the transport ids added and not removed since |
| ServerModel.TransportRunsComplete | core/src/main/java/org/wso2/msf4j/internal/MicroservicesServerSC.java:115-126 | transport callbacks look nothing up, so a sequence made of them alone always runs to completion |
| ServerModel.TransportLiveChannels | core/src/main/java/org/wso2/msf4j/internal/MicroservicesServerSC.java:54-126 | across any sequence of transport adds and removes, the table's keys are exactly the ids added and not removed since |
| ServerModel.TransportRemoveUndoesAdd | core/src/main/java/org/wso2/msf4j/internal/MicroservicesServerSC.java:119-125 | removing a transport right after adding it is the same as removing it alone, and leaves no trace if it was absent before |
| ServerModel.ScopedRemoveUndoesAdd | core/src/main/java/org/wso2/msf4j/internal/MicroservicesServerSC.java:71-82 | a channel-scoped remove undoes a channel-scoped add of a component the registry did not hold |
| ServerModel.BroadcastAddNotUndone | core/src/main/java/org/wso2/msf4j/internal/MicroservicesServerSC.java:73-82 | after a broadcast add, a remove without a channel id leaves the component in every registry |
| ServerModel.BroadcastIsSnapshot | core/src/main/java/org/wso2/msf4j/internal/MicroservicesServerSC.java:74-119 | a registry created after a broadcast add does not hold the component |
| ServerModel.SwaggerServicesAreServices | core/src/main/java/org/wso2/msf4j/internal/MicroservicesServerSC.java:72-104 | Swagger service adds and removes act on the same service collection as microservice adds and removes |
| ServerModel.ChannelLessRemoveIsNoOp | core/src/main/java/org/wso2/msf4j/internal/MicroservicesServerSC.java:78-199 | a remove of any component kind, session managers included, without a channel id changes no state |
| ServerModel.RemoveInstallsFreshDefault | core/src/main/java/org/wso2/msf4j/internal/MicroservicesServerSC.java:195-197 | after a channel-scoped session-manager remove, the registry holds a default manager that was initialised, and that no registry held and no earlier call touched |
| ServerModel.AddThenRemoveSessionManager | core/src/main/java/org/wso2/msf4j/internal/MicroservicesServerSC.java:181-199 | add then remove of a custom manager on one channel gives exactly one init and one stop of it, then one init of a new default; that registry holds the default and keeps its components; other registries are unchanged |
| ServerModel.RunAppend | core/src/main/java/org/wso2/msf4j/internal/MicroservicesServerSC.java:54 | a run of callbacks is the run of all but the last followed by the last |
| ServerModel.ScenarioSteps | core/src/main/java/org/wso2/msf4j/internal/MicroservicesServerSC.java:68-126 | each callback of the two-channel scenario leads from one listed table to the next |
| ServerModel.ScenarioPrefix | core/src/main/java/org/wso2/msf4j/internal/MicroservicesServerSC.java:68-126 | the first k callbacks of the two-channel scenario lead to the k-th listed table |
| ServerModel.DispatchSessionManager | core/src/main/java/org/wso2/msf4j/internal/MicroservicesServerSC.java:181-199 | a session-manager callback whose channel resolves completes with the state its step function gives |
| ServerModel.TwoChannelScenario | core/src/main/java/org/wso2/msf4j/internal/MicroservicesServerSC.java:68-142 | two transports, a broadcast service, an interceptor scoped to the second, then the first transport leaves: only the second registry remains, holding the interceptor and not the service |
| Server.MicroservicesServerSC.constructor | core/src/main/java/org/wso2/msf4j/internal/MicroservicesServerSC.java:54 | the table starts empty and no session-manager call has been made |
| Server.MicroservicesServerSC.ForEachRegistry | core/src/main/java/org/wso2/msf4j/internal/MicroservicesServerSC.java:74 | the broadcast loop updates every registry present at the start, one key at a time |
| Server.MicroservicesServerSC.AddComponent | core/src/main/java/org/wso2/msf4j/internal/MicroservicesServerSC.java:70-75 | the shared add body leaves the table `RouteAdd` gives |
| Server.MicroservicesServerSC.RemoveComponent | core/src/main/java/org/wso2/msf4j/internal/MicroservicesServerSC.java:79-82 | the shared remove body leaves the table `RouteRemove` gives |
| Server.MicroservicesServerSC.InstallSessionManager | core/src/main/java/org/wso2/msf4j/internal/MicroservicesServerSC.java:184-188 | only a manager already initialised can be installed; leaves the table `RouteSessionManager` gives and records one slot change with the current trace length |
| Server.MicroservicesServerSC.AddCarbonTransport | core/src/main/java/org/wso2/msf4j/internal/MicroservicesServerSC.java:115-122 | the table becomes `WithTransport` of the old one; the trace is unchanged |
| Server.MicroservicesServerSC.RemoveCarbonTransport | core/src/main/java/org/wso2/msf4j/internal/MicroservicesServerSC.java:124-126 | the table becomes `WithoutTransport` of the old one |
| Server.MicroservicesServerSC.AddService | core/src/main/java/org/wso2/msf4j/internal/MicroservicesServerSC.java:68-76 | the service is routed into the service collections as `RouteAdd` says |
| Server.MicroservicesServerSC.RemoveService | core/src/main/java/org/wso2/msf4j/internal/MicroservicesServerSC.java:78-83 | the service is removed as `RouteRemove` says |
| Server.MicroservicesServerSC.AddSwaggerService | core/src/main/java/org/wso2/msf4j/internal/MicroservicesServerSC.java:92-99 | the Swagger service goes into the service collections as a microservice would |
| Server.MicroservicesServerSC.RemoveSwaggerService | core/src/main/java/org/wso2/msf4j/internal/MicroservicesServerSC.java:101-106 | the Swagger service leaves the service collection as a microservice would |
| Server.MicroservicesServerSC.AddInterceptor | core/src/main/java/org/wso2/msf4j/internal/MicroservicesServerSC.java:135-142 | the interceptor is routed as `RouteAdd` says |
| Server.MicroservicesServerSC.RemoveInterceptor | core/src/main/java/org/wso2/msf4j/internal/MicroservicesServerSC.java:144-149 | the interceptor is removed as `RouteRemove` says |
| Server.MicroservicesServerSC.AddExceptionMapper | core/src/main/java/org/wso2/msf4j/internal/MicroservicesServerSC.java:158-165 | the exception mapper is routed as `RouteAdd` says |
| Server.MicroservicesServerSC.RemoveExceptionMapper | core/src/main/java/org/wso2/msf4j/internal/MicroservicesServerSC.java:167-172 | the exception mapper is removed as `RouteRemove` says |
| Server.MicroservicesServerSC.AddSessionManager | core/src/main/java/org/wso2/msf4j/internal/MicroservicesServerSC.java:181-189 | the new state is `AddSessionManagerStep` of the old one, and its one slot change is recorded when the trace already holds this call's `init()` |
| Server.MicroservicesServerSC.RemoveSessionManager | core/src/main/java/org/wso2/msf4j/internal/MicroservicesServerSC.java:191-199 | the new state is `RemoveSessionManagerStep` of the old one; with a channel id, its one slot change installs the new default after both the `stop()` and the default's `init()` are recorded |

## Left out

- The OSGi wiring: the `@Component`, `@Activate` and `@Reference` annotations, their cardinality and policy metadata, and `BundleContext`. The framework decides when callbacks fire; the model lets them arrive in any order.
- `start` and `DataHolder`: they only hand the table to a singleton that is not part of this model.
- `registerService` in `addCarbonTransport` and in `onAllRequiredCapabilitiesAvailable`, and the log line: outbound publication to the OSGi registry. With them goes the readiness signal, for which the code keeps no state.
- Concurrency: the table is an unsynchronised `HashMap` written from framework threads. The model runs callbacks one after another.
- The internals of `MicroservicesRegistry`, `SessionManager`, `DefaultSessionManager` and `CarbonTransport`. A registry is three sets and a slot; a transport is its id; a session manager is an identity whose `init()` and `stop()` are recorded in a trace.
- A registry's own initial session manager is `Builtin`: the registry constructor is not part of this model, so what it installs is left abstract.
- The channel id property is an arbitrary `Object` turned into a string by `toString()`; the model takes the string.
- Aliasing: each registry is a value in the table. The published registry object that other components may hold is not modelled.
- Server.MicroservicesServerSC.AddSessionManager: when the channel id is missing from the table, the source calls `init()` and then throws; here that call is excluded by the precondition, and `Dispatch` gives `None` without recording the `init()`.
- Server.MicroservicesServerSC.RemoveSessionManager: when the channel id is missing from the table, the source calls `stop()` and the default's `init()` and then throws; here that call is excluded by the precondition, and `Dispatch` gives `None` without recording the calls.
- ServerModel.Run: the model follows no run past a callback that throws on a missing channel id. In the source that exception comes before any change to the table, and nothing stops the component from receiving further callbacks; `Run` gives `None` instead, so `LiveChannels` and `RunValid` cover only runs that complete (transport-only runs always do, by `TransportRunsComplete`).
- Exceptions thrown by `init()` or `stop()` themselves: the model treats both calls as always completing.
