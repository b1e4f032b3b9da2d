/**
 An abstract model of one per-channel `MicroservicesRegistry`. The registry class itself
 lives outside this model: all the server component does with it is add and remove
 services, interceptors and exception mappers and replace its session manager, so a
 registry is modelled as three sets of component identities and one session-manager slot.
 */
module MicroservicesRegistry {

  /** The identity of a component object handed to the server component
      (a Microservice, SwaggerService, Interceptor, ExceptionMapper or SessionManager). */
  type ComponentId = string

  /** The three collections of a registry that components are added to. Microservices and
      Swagger services share the service collection. */
  datatype Kind = Services | Interceptors | ExceptionMappers

  /** What a registry's session-manager slot can hold:
      - Builtin: whatever a freshly constructed registry holds of its own accord;
        the server component never creates, initialises or stops it;
      - Custom(id): a session manager supplied by the host;
      - Default(serial): the serial-th DefaultSessionManager the server component created. */
  datatype SessionManager = Builtin | Custom(id: ComponentId) | Default(serial: nat)

  datatype Registry = Registry(
    services: set<ComponentId>,
    interceptors: set<ComponentId>,
    exceptionMappers: set<ComponentId>,
    sessionManager: SessionManager)

  /** The collection of kind `k` in `r`. */
  function Members(r: Registry, k: Kind): set<ComponentId>
  {
    match k
    case Services => r.services
    case Interceptors => r.interceptors
    case ExceptionMappers => r.exceptionMappers
  }

  /** A registry as `new MicroservicesRegistry()` yields it: no components and its own
      session manager. */
  function Fresh(): (r: Registry)
    ensures forall k :: Members(r, k) == {}
    ensures r.sessionManager == Builtin
  {
    Registry({}, {}, {}, Builtin)
  }

  /** `addService`, `addInterceptor` or `addExceptionMapper` on a registry. */
  function Insert(r: Registry, k: Kind, c: ComponentId): (r': Registry)
    ensures Members(r', k) == Members(r, k) + {c}
    ensures forall k' :: k' != k ==> Members(r', k') == Members(r, k')
    ensures r'.sessionManager == r.sessionManager
  {
    match k
    case Services => r.(services := r.services + {c})
    case Interceptors => r.(interceptors := r.interceptors + {c})
    case ExceptionMappers => r.(exceptionMappers := r.exceptionMappers + {c})
  }

  /** `removeService`, `removeInterceptor` or `removeExceptionMapper` on a registry. */
  function Delete(r: Registry, k: Kind, c: ComponentId): (r': Registry)
    ensures Members(r', k) == Members(r, k) - {c}
    ensures forall k' :: k' != k ==> Members(r', k') == Members(r, k')
    ensures r'.sessionManager == r.sessionManager
  {
    match k
    case Services => r.(services := r.services - {c})
    case Interceptors => r.(interceptors := r.interceptors - {c})
    case ExceptionMappers => r.(exceptionMappers := r.exceptionMappers - {c})
  }

  /** `setSessionManager` on a registry. */
  function WithSessionManager(r: Registry, m: SessionManager): (r': Registry)
    ensures r'.sessionManager == m
    ensures forall k :: Members(r', k) == Members(r, k)
  {
    r.(sessionManager := m)
  }

  /** Two registries with the same collections and the same session manager are equal. */
  lemma Extensionality(r: Registry, r': Registry)
    requires forall k :: Members(r, k) == Members(r', k)
    requires r.sessionManager == r'.sessionManager
    ensures r == r'
  {
    assert Members(r, Services) == Members(r', Services);
    assert Members(r, Interceptors) == Members(r', Interceptors);
    assert Members(r, ExceptionMappers) == Members(r', ExceptionMappers);
  }

  /** Removing a component that an add has just put into a registry where it was not
      before gives back the registry as it was. */
  lemma DeleteUndoesInsert(r: Registry, k: Kind, c: ComponentId)
    requires c !in Members(r, k)
    ensures Delete(Insert(r, k, c), k, c) == r
  {
  }
}
