/**
 * The dependency container (dependency_injection/dependency_injection.js): a
 * map from service names to a factory and a cached instance. `register`
 * stores a factory with nothing cached; `resolve` builds an instance on first
 * use, resolving the names the factory asks for, and hands out the cached
 * instance from then on.
 *
 * Factories are the six kinds the container registers, each known by the
 * names it resolves; an instance is an abstract object with a fresh number,
 * its kind, and the instances it was constructed with.
 */
module DependencyInjection {
  import opened Js

  const PROPERTY_SERVICE := "propertyService"
  const PROPERTY_REPOSITORY := "propertyRepository"
  const EVENT_PUBLISHER := "eventPublisher"
  const EVENT_SUBSCRIBER := "eventSubscriber"
  const COMMAND_HANDLER := "commandHandler"
  const QUERY_HANDLER := "queryHandler"

  datatype Factory =
    | NewPropertyService
    | NewRepository
    | NewPublisher
    | NewSubscriber
    | NewCommandHandler
    | NewQueryHandler

  /** The names a factory resolves, in the order it resolves them. */
  function Dependencies(f: Factory): seq<string> {
    match f
    case NewSubscriber => [EVENT_PUBLISHER]
    case NewCommandHandler => [PROPERTY_SERVICE, PROPERTY_REPOSITORY]
    case NewQueryHandler => [PROPERTY_REPOSITORY]
    case _ => []
  }

  /** An object built by a factory: its identity, its kind, and the instances handed to its constructor. */
  datatype Instance = Instance(oid: nat, kind: Factory, deps: seq<Instance>)

  /** `{ factory, instance }`, with `None` for `instance: null`. */
  datatype Entry = Entry(factory: Factory, instance: Option<Instance>)

  function NotRegistered(name: string): Failure {
    Error("Service " + name + " not registered")
  }

  /** `services` after the six `register` calls of `initializeContainer`, in their order. */
  function WithDefaults(services: map<string, Entry>): map<string, Entry> {
    services[PROPERTY_SERVICE := Entry(NewPropertyService, None)]
            [PROPERTY_REPOSITORY := Entry(NewRepository, None)]
            [EVENT_PUBLISHER := Entry(NewPublisher, None)]
            [EVENT_SUBSCRIBER := Entry(NewSubscriber, None)]
            [COMMAND_HANDLER := Entry(NewCommandHandler, None)]
            [QUERY_HANDLER := Entry(NewQueryHandler, None)]
  }

  /** What a fresh container holds. */
  function DefaultRegistrations(): map<string, Entry> {
    WithDefaults(map[])
  }

  /** Every name `factory`, registered under `name`, resolves is ranked below `name`. */
  predicate RanksBelow(factory: Factory, name: string, rank: map<string, nat>) {
    forall j :: 0 <= j < |Dependencies(factory)| ==>
      name in rank && Dependencies(factory)[j] in rank && rank[Dependencies(factory)[j]] < rank[name]
  }

  /** A ranking under which every factory resolves only lower-ranked names: there is no dependency cycle. */
  predicate Acyclic(services: map<string, Entry>, rank: map<string, nat>) {
    forall n :: n in services ==> RanksBelow(services[n].factory, n, rank)
  }

  /** Every name `factory` resolves is registered in `services`. */
  predicate ResolvesRegistered(factory: Factory, services: map<string, Entry>) {
    forall j :: 0 <= j < |Dependencies(factory)| ==> Dependencies(factory)[j] in services
  }

  /** Every name a registered factory resolves is registered. */
  predicate Closed(services: map<string, Entry>) {
    forall n :: n in services ==> ResolvesRegistered(services[n].factory, services)
  }

  /** The same names with the same factories; only cached instances may differ. */
  predicate SameFactories(s0: map<string, Entry>, s1: map<string, Entry>) {
    s0.Keys == s1.Keys && forall n :: n in s0 ==> n in s1 && s1[n].factory == s0[n].factory
  }

  /** Every instance cached in `s0` is still cached, unchanged, in `s1`. */
  predicate KeepsCache(s0: map<string, Entry>, s1: map<string, Entry>) {
    forall n :: n in s0 && s0[n].instance.Some? ==> n in s1 && s1[n] == s0[n]
  }

  /** Apart from `name`, the entries ranked at or above `name` are as they were. */
  predicate KeepsHigherRanks(s0: map<string, Entry>, s1: map<string, Entry>, rank: map<string, nat>, name: string) {
    forall n :: n in s0 && n != name && n in rank && name in rank && rank[n] >= rank[name] ==> n in s1 && s1[n] == s0[n]
  }

  /** Every cached instance was built by its name's factory. */
  predicate CacheMatchesFactories(services: map<string, Entry>) {
    forall n :: n in services && services[n].instance.Some? ==> services[n].instance.value.kind == services[n].factory
  }

  /** Only cached instances differ, so the absence of cycles and of unregistered dependencies carries over. */
  lemma SameFactoriesKeepShape(s0: map<string, Entry>, s1: map<string, Entry>, rank: map<string, nat>)
    requires SameFactories(s0, s1)
    ensures Acyclic(s0, rank) ==> Acyclic(s1, rank)
    ensures Closed(s0) ==> Closed(s1)
  {
    if Acyclic(s0, rank) {
      SameFactoriesKeepAcyclic(s0, s1, rank);
    }
    if Closed(s0) {
      SameFactoriesKeepClosed(s0, s1);
    }
  }

  lemma SameFactoriesKeepAcyclic(s0: map<string, Entry>, s1: map<string, Entry>, rank: map<string, nat>)
    requires SameFactories(s0, s1) && Acyclic(s0, rank)
    ensures Acyclic(s1, rank)
  {
    forall n | n in s1 ensures RanksBelow(s1[n].factory, n, rank) {
      assert n in s1.Keys;
      assert n in s0 && s1[n].factory == s0[n].factory;
    }
  }

  lemma SameFactoriesKeepClosed(s0: map<string, Entry>, s1: map<string, Entry>)
    requires SameFactories(s0, s1) && Closed(s0)
    ensures Closed(s1)
  {
    forall n | n in s1 ensures ResolvesRegistered(s1[n].factory, s1) {
      assert n in s1.Keys;
      assert n in s0 && s1[n].factory == s0[n].factory;
      forall j | 0 <= j < |Dependencies(s1[n].factory)| ensures Dependencies(s1[n].factory)[j] in s1 {
        assert Dependencies(s0[n].factory)[j] in s0.Keys;
      }
    }
  }

  /** Without cycles no factory resolves its own name. */
  lemma NotOwnDependency(services: map<string, Entry>, rank: map<string, nat>, name: string)
    requires name in services && Acyclic(services, rank)
    ensures name !in Dependencies(services[name].factory)
  {
    forall j | 0 <= j < |Dependencies(services[name].factory)|
      ensures Dependencies(services[name].factory)[j] != name
    {
      var d := Dependencies(services[name].factory)[j];
      assert name in rank && d in rank && rank[d] < rank[name];
    }
  }

  /**
   * Resolving a dependency `d` of `name` inside the resolution of `name`
   * keeps what the resolution of `name` promises to keep.
   */
  lemma DependencyStepKeeps(s0: map<string, Entry>, s1: map<string, Entry>, s2: map<string, Entry>,
                            rank: map<string, nat>, name: string, j: nat, d: string)
    requires name in s0 && Acyclic(s0, rank)
    requires j < |Dependencies(s0[name].factory)| && Dependencies(s0[name].factory)[j] == d
    requires SameFactories(s0, s1) && KeepsCache(s0, s1) && KeepsHigherRanks(s0, s1, rank, name)
    requires SameFactories(s1, s2) && KeepsCache(s1, s2) && KeepsHigherRanks(s1, s2, rank, d)
    ensures SameFactories(s0, s2) && KeepsCache(s0, s2) && KeepsHigherRanks(s0, s2, rank, name)
  {
    assert rank[d] < rank[name];
  }

  /**
   * Caching the instance built for `name`, once its dependencies are
   * resolved, keeps what the resolution of `name` promises to keep and makes
   * the instance `Built` for `name`.
   */
  lemma CachingKeeps(s0: map<string, Entry>, s1: map<string, Entry>, rank: map<string, nat>,
                     name: string, instance: Instance)
    requires name in s0 && s0[name].instance.None? && Acyclic(s0, rank) && CacheMatchesFactories(s1)
    requires SameFactories(s0, s1) && KeepsCache(s0, s1) && KeepsHigherRanks(s0, s1, rank, name)
    requires instance.kind == s0[name].factory && |instance.deps| == |Dependencies(instance.kind)|
    requires forall j :: 0 <= j < |instance.deps| ==>
      Dependencies(instance.kind)[j] in s1 && s1[Dependencies(instance.kind)[j]].instance == Some(instance.deps[j])
    ensures var s2 := s1[name := Entry(s0[name].factory, Some(instance))];
      SameFactories(s0, s2) && KeepsCache(s0, s2) && KeepsHigherRanks(s0, s2, rank, name) &&
      CacheMatchesFactories(s2) && Built(s2, name, instance)
  {
    var s2 := s1[name := Entry(s0[name].factory, Some(instance))];
    NotOwnDependency(s0, rank, name);
    forall j | 0 <= j < |instance.deps|
      ensures Dependencies(instance.kind)[j] in s2 && s2[Dependencies(instance.kind)[j]].instance == Some(instance.deps[j])
    {
      assert Dependencies(instance.kind)[j] != name;
    }
  }

  /**
   * `instance` is what `name`'s factory built: it is cached under `name`, is of
   * the factory's kind, and was handed the instances cached under the names
   * the factory resolves, in order.
   */
  predicate Built(services: map<string, Entry>, name: string, instance: Instance) {
    name in services && services[name].instance == Some(instance) &&
    instance.kind == services[name].factory &&
    |instance.deps| == |Dependencies(instance.kind)| &&
    forall j :: 0 <= j < |instance.deps| ==>
      Dependencies(instance.kind)[j] in services &&
      services[Dependencies(instance.kind)[j]].instance == Some(instance.deps[j])
  }

  /** A ranking of the default registrations: the handlers and the subscriber above what they use. */
  function DefaultRank(): map<string, nat> {
    map[PROPERTY_SERVICE := 0, PROPERTY_REPOSITORY := 0, EVENT_PUBLISHER := 0,
        EVENT_SUBSCRIBER := 1, COMMAND_HANDLER := 1, QUERY_HANDLER := 1]
  }

  /**
   * A fresh container has nothing built, registers the handlers and the
   * repository with their own factories, and ranks the two handlers alike.
   */
  lemma DefaultEntries()
    ensures forall n :: n in DefaultRegistrations() ==> DefaultRegistrations()[n].instance.None?
    ensures CacheMatchesFactories(DefaultRegistrations())
    ensures COMMAND_HANDLER in DefaultRegistrations() &&
            DefaultRegistrations()[COMMAND_HANDLER] == Entry(NewCommandHandler, None)
    ensures QUERY_HANDLER in DefaultRegistrations() &&
            DefaultRegistrations()[QUERY_HANDLER] == Entry(NewQueryHandler, None)
    ensures PROPERTY_REPOSITORY in DefaultRegistrations() &&
            DefaultRegistrations()[PROPERTY_REPOSITORY].factory == NewRepository
    ensures COMMAND_HANDLER in DefaultRank() && QUERY_HANDLER in DefaultRank() &&
            DefaultRank()[COMMAND_HANDLER] == DefaultRank()[QUERY_HANDLER]
  {
  }

  /** The default registrations have no cycle and resolve only registered names, so every default name resolves. */
  lemma DefaultsAreResolvable()
    ensures Acyclic(DefaultRegistrations(), DefaultRank())
    ensures Closed(DefaultRegistrations())
    ensures DefaultRegistrations().Keys ==
      {PROPERTY_SERVICE, PROPERTY_REPOSITORY, EVENT_PUBLISHER, EVENT_SUBSCRIBER, COMMAND_HANDLER, QUERY_HANDLER}
  {
    var s, rank := DefaultRegistrations(), DefaultRank();
    forall n | n in s ensures RanksBelow(s[n].factory, n, rank) && ResolvesRegistered(s[n].factory, s) {
      assert n == EVENT_SUBSCRIBER || n == COMMAND_HANDLER || n == QUERY_HANDLER || Dependencies(s[n].factory) == [];
    }
  }


  /** The container object. */
  class DependencyContainer {
    var services: map<string, Entry>
    /** The number the next instance a factory builds gets; counts the instances built so far. */
    var nextOid: nat

    /** `new DependencyContainer()`: exactly the six default names, nothing built yet. */
    constructor()
      ensures services == DefaultRegistrations() && nextOid == 0
    {
      services := map[];
      nextOid := 0;
      new;
      InitializeContainer();
    }

    /** `initializeContainer`: registers the six default factories, overwriting those names. */
    method InitializeContainer()
      modifies this
      ensures services == WithDefaults(old(services)) && nextOid == old(nextOid)
    {
      Register(PROPERTY_SERVICE, NewPropertyService);
      Register(PROPERTY_REPOSITORY, NewRepository);
      Register(EVENT_PUBLISHER, NewPublisher);
      Register(EVENT_SUBSCRIBER, NewSubscriber);
      Register(COMMAND_HANDLER, NewCommandHandler);
      Register(QUERY_HANDLER, NewQueryHandler);
    }

    /** `register(name, factory)`: stores the factory without calling it, dropping any cached instance. */
    method Register(name: string, factory: Factory)
      modifies this
      ensures services == old(services)[name := Entry(factory, None)] && nextOid == old(nextOid)
    {
      services := services[name := Entry(factory, None)];
    }

    /**
     * `resolve(name)`: an unregistered name throws; a cached instance is
     * returned as it is, without calling the factory; otherwise the names the
     * factory needs are resolved in order, a fresh instance is built from
     * them, cached and returned. A throw while resolving a dependency leaves
     * the name uncached but keeps whatever was cached on the way.
     */
    method Resolve(name: string, ghost rank: map<string, nat>) returns (r: Result<Instance>)
      requires Acyclic(services, rank) && CacheMatchesFactories(services)
      modifies this
      decreases if name in rank then rank[name] else 0, 3
      ensures SameFactories(old(services), services) && KeepsCache(old(services), services)
      ensures Acyclic(services, rank) && CacheMatchesFactories(services)
      ensures Closed(old(services)) ==> Closed(services)
      ensures KeepsHigherRanks(old(services), services, rank, name)
      ensures old(nextOid) <= nextOid
      ensures name !in old(services) ==>
        r == Err(NotRegistered(name)) && services == old(services) && nextOid == old(nextOid)
      ensures name in old(services) && old(services)[name].instance.Some? ==>
        r == Ok(old(services)[name].instance.value) && services == old(services) && nextOid == old(nextOid)
      ensures name in old(services) && Closed(old(services)) ==> r.Ok?
      ensures r.Err? ==> exists n :: n !in old(services) && r.error == NotRegistered(n)
      ensures r.Err? && name in old(services) ==> name in services && services[name].instance.None?
      ensures r.Ok? ==> name in services && services[name].instance == Some(r.value)
      ensures r.Ok? && name in old(services) && old(services)[name].instance.None? ==>
        Built(services, name, r.value) && old(nextOid) <= r.value.oid < nextOid
    {
      if name !in services {
        return Err(NotRegistered(name));
      }
      var entry := services[name];
      if entry.instance.Some? {
        return Ok(entry.instance.value);
      }
      r := Construct(name, rank);
    }

    /**
     * The uncached branch of `resolve`, `service.instance = service.factory()`:
     * a throw from the factory leaves `name` uncached; otherwise a fresh
     * instance is built from what the factory resolved, and cached.
     */
    method Construct(name: string, ghost rank: map<string, nat>) returns (r: Result<Instance>)
      requires Acyclic(services, rank) && CacheMatchesFactories(services)
      requires name in services && services[name].instance.None?
      modifies this
      decreases if name in rank then rank[name] else 0, 2
      ensures SameFactories(old(services), services) && KeepsCache(old(services), services)
      ensures Acyclic(services, rank) && CacheMatchesFactories(services)
      ensures Closed(old(services)) ==> Closed(services)
      ensures KeepsHigherRanks(old(services), services, rank, name)
      ensures old(nextOid) <= nextOid
      ensures Closed(old(services)) ==> r.Ok?
      ensures r.Err? ==> exists n :: n !in old(services) && r.error == NotRegistered(n)
      ensures r.Err? ==> name in services && services[name].instance.None?
      ensures r.Ok? ==> Built(services, name, r.value) && old(nextOid) <= r.value.oid < nextOid
    {
      var factory := services[name].factory;
      var deps := ResolveDependencies(name, rank);
      if deps.Err? {
        SameFactoriesKeepShape(old(services), services, rank);
        return Err(deps.error);
      }
      var instance := Instance(nextOid, factory, deps.value);
      nextOid := nextOid + 1;
      CachingKeeps(old(services), services, rank, name, instance);
      services := services[name := Entry(factory, Some(instance))];
      SameFactoriesKeepShape(old(services), services, rank);
      return Ok(instance);
    }

    /**
     * The `this.resolve` calls in the body of `name`'s factory: its names are
     * resolved in order, and the first throw ends the factory.
     */
    method ResolveDependencies(name: string, ghost rank: map<string, nat>) returns (r: Result<seq<Instance>>)
      requires Acyclic(services, rank) && CacheMatchesFactories(services)
      requires name in services && services[name].instance.None?
      modifies this
      decreases if name in rank then rank[name] else 0, 1
      ensures SameFactories(old(services), services) && KeepsCache(old(services), services)
      ensures KeepsHigherRanks(old(services), services, rank, name) && CacheMatchesFactories(services)
      ensures old(nextOid) <= nextOid
      ensures Closed(old(services)) ==> r.Ok?
      ensures r.Err? ==> exists n :: n !in old(services) && r.error == NotRegistered(n)
      ensures name in services && services[name] == old(services)[name]
      ensures r.Ok? ==> var deps := Dependencies(old(services)[name].factory);
        |r.value| == |deps| &&
        forall j :: 0 <= j < |deps| ==> deps[j] in services && services[deps[j]].instance == Some(r.value[j])
    {
      match services[name].factory {
        case NewSubscriber =>
          var publisher := ResolveFor(name, 0, old(services), rank);
          if publisher.Err? {
            return Err(publisher.error);
          }
          r := Ok([publisher.value]);
        case NewCommandHandler =>
          var service := ResolveFor(name, 0, old(services), rank);
          if service.Err? {
            return Err(service.error);
          }
          var repository := ResolveFor(name, 1, old(services), rank);
          if repository.Err? {
            return Err(repository.error);
          }
          r := Ok([service.value, repository.value]);
        case NewQueryHandler =>
          var repository := ResolveFor(name, 0, old(services), rank);
          if repository.Err? {
            return Err(repository.error);
          }
          r := Ok([repository.value]);
        case NewPropertyService =>
          r := Ok([]);
        case NewRepository =>
          r := Ok([]);
        case NewPublisher =>
          r := Ok([]);
      }
    }

    /**
     * One `this.resolve(d)` made by `name`'s factory while `name` is being
     * built from `s0`, `d` being the `j`-th name the factory resolves.
     */
    method ResolveFor(name: string, j: nat, ghost s0: map<string, Entry>, ghost rank: map<string, nat>)
      returns (r: Result<Instance>)
      requires name in s0 && Acyclic(s0, rank) && j < |Dependencies(s0[name].factory)|
      requires SameFactories(s0, services) && KeepsCache(s0, services) && KeepsHigherRanks(s0, services, rank, name)
      requires CacheMatchesFactories(services)
      modifies this
      decreases if name in rank then rank[name] else 0, 0
      ensures SameFactories(s0, services) && KeepsCache(s0, services) && KeepsHigherRanks(s0, services, rank, name)
      ensures KeepsCache(old(services), services) && CacheMatchesFactories(services)
      ensures old(nextOid) <= nextOid
      ensures Closed(s0) ==> r.Ok?
      ensures r.Err? ==> exists n :: n !in s0 && r.error == NotRegistered(n)
      ensures name in services && services[name] == old(services)[name]
      ensures r.Ok? ==> var d := Dependencies(s0[name].factory)[j];
        d in services && services[d].instance == Some(r.value)
    {
      assert name in services && services[name].factory == s0[name].factory;
      var d := Dependencies(services[name].factory)[j];
      assert name in rank && d in rank && rank[d] < rank[name];
      SameFactoriesKeepShape(s0, services, rank);
      ghost var before := services;
      r := Resolve(d, rank);
      DependencyStepKeeps(s0, before, services, rank, name, j, d);
    }
  }

  /**
   * In a container without cycles or unregistered dependencies, where both
   * handlers are registered with their own factories at the same rank and not
   * yet built, the two handlers are built around one and the same repository
   * instance, and a second resolve of the command handler hands out the
   * identical instance.
   */
  method ResolveHandlers(c: DependencyContainer, ghost rank: map<string, nat>)
    returns (command: Instance, query: Instance, again: Instance)
    requires Acyclic(c.services, rank) && Closed(c.services) && CacheMatchesFactories(c.services)
    requires COMMAND_HANDLER in c.services && c.services[COMMAND_HANDLER] == Entry(NewCommandHandler, None)
    requires QUERY_HANDLER in c.services && c.services[QUERY_HANDLER] == Entry(NewQueryHandler, None)
    requires PROPERTY_REPOSITORY in c.services && c.services[PROPERTY_REPOSITORY].factory == NewRepository
    requires COMMAND_HANDLER in rank && QUERY_HANDLER in rank && rank[COMMAND_HANDLER] == rank[QUERY_HANDLER]
    modifies c
    ensures command.kind == NewCommandHandler && query.kind == NewQueryHandler
    ensures |command.deps| == 2 && |query.deps| == 1
    ensures command.deps[1] == query.deps[0] && command.deps[1].kind == NewRepository
    ensures again == command
  {
    var rc := c.Resolve(COMMAND_HANDLER, rank);
    ghost var s1 := c.services;
    assert Dependencies(NewCommandHandler)[1] == PROPERTY_REPOSITORY;
    assert s1[QUERY_HANDLER] == Entry(NewQueryHandler, None);
    var rq := c.Resolve(QUERY_HANDLER, rank);
    assert Dependencies(NewQueryHandler)[0] == PROPERTY_REPOSITORY;
    assert c.services[PROPERTY_REPOSITORY] == s1[PROPERTY_REPOSITORY];
    var ra := c.Resolve(COMMAND_HANDLER, rank);
    command, query, again := rc.value, rq.value, ra.value;
  }

  /** In a fresh container the two handlers share the repository instance, and a second resolve hands out the cached one. */
  method HandlersShareRepository() returns (command: Instance, query: Instance, again: Instance)
    ensures command.kind == NewCommandHandler && query.kind == NewQueryHandler
    ensures |command.deps| == 2 && |query.deps| == 1
    ensures command.deps[1] == query.deps[0] && command.deps[1].kind == NewRepository
    ensures again == command
  {
    var c := new DependencyContainer();
    DefaultsAreResolvable();
    DefaultEntries();
    command, query, again := ResolveHandlers(c, DefaultRank());
  }
}
