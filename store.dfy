/**
  The process-wide portal registry: a map from portal id to a portal instance
  (its targets per slot key, its active mode and its return path), a set of
  change listeners, and the six actions that replace the map copy-on-write and
  then notify every listener.

  Targets are rendering surfaces the model never looks into, so they are the
  type parameter `T`. Listeners are ids; the only observable effect of calling
  one is that its notification counter goes up by one.
 */
module Store {

  /** The id a facade is bound to when it is given none. */
  const DEFAULT_PORTAL_ID: string := "default"

  /** `string | null` and `x | undefined` of the source. */
  datatype Option<T> = None | Some(value: T)

  datatype PortalInstance<T> = PortalInstance(
    targets: map<string, T>,
    mode: Option<string>,
    returnPath: Option<string>)

  /** The contents of one `Map<string, PortalInstance>` the store publishes. */
  type Registry<T> = map<string, PortalInstance<T>>

  type ListenerId = nat

  /** A fresh instance: no targets, no mode, no return path. */
  function CreateEmptyInstance<T>(): (instance: PortalInstance<T>)
    ensures instance.targets.Keys == {} && instance.mode.None? && instance.returnPath.None?
  {
    PortalInstance(map[], None, None)
  }

  /** `portals.get(portalId)` */
  function Get<T>(ps: Registry<T>, portalId: string): Option<PortalInstance<T>>
  {
    if portalId in ps then Some(ps[portalId]) else None
  }

  /** `portals.get(portalId) ?? createEmptyInstance()` */
  function InstanceOrEmpty<T>(ps: Registry<T>, portalId: string): PortalInstance<T>
  {
    if portalId in ps then ps[portalId] else CreateEmptyInstance()
  }

  /** True when `a` and `b` agree on every portal id except `portalId`. */
  ghost predicate OthersUnchanged<T>(a: Registry<T>, b: Registry<T>, portalId: string)
  {
    && a.Keys - {portalId} == b.Keys - {portalId}
    && forall k :: k in a && k != portalId ==> k in b && b[k] == a[k]
  }

  // ---------------------------------------------------------------------
  // What each action publishes. `None` means the action returns early:
  // no new map is installed and no listener is called.
  // ---------------------------------------------------------------------

  /** getOrCreatePortal: inserts an empty instance only for an unknown id. */
  function AfterGetOrCreate<T>(ps: Registry<T>, portalId: string): (next: Option<Registry<T>>)
    ensures next.None? <==> portalId in ps
    ensures next.Some? ==>
              && next.value.Keys == ps.Keys + {portalId}
              && next.value[portalId] == CreateEmptyInstance()
              && OthersUnchanged(ps, next.value, portalId)
  {
    if portalId in ps then None
    else Some(ps[portalId := CreateEmptyInstance()])
  }

  /** register: last write wins on `mode`; everything else is kept. */
  function AfterRegister<T>(ps: Registry<T>, portalId: string, mode: string, target: T): (next: Registry<T>)
    ensures next.Keys == ps.Keys + {portalId}
    ensures OthersUnchanged(ps, next, portalId)
    ensures mode in next[portalId].targets && next[portalId].targets[mode] == target
    ensures var old_ := InstanceOrEmpty(ps, portalId);
            && next[portalId].targets.Keys == old_.targets.Keys + {mode}
            && (forall k :: k in old_.targets && k != mode ==> next[portalId].targets[k] == old_.targets[k])
            && next[portalId].mode == old_.mode
            && next[portalId].returnPath == old_.returnPath
  {
    var instance := InstanceOrEmpty(ps, portalId);
    ps[portalId := instance.(targets := instance.targets[mode := target])]
  }

  /** unregister: a no-op for an unknown portal; otherwise drops key `mode`,
      whether or not it was present, and publishes. */
  function AfterUnregister<T>(ps: Registry<T>, portalId: string, mode: string): (next: Option<Registry<T>>)
    ensures next.None? <==> portalId !in ps
    ensures next.Some? ==>
              && next.value.Keys == ps.Keys
              && OthersUnchanged(ps, next.value, portalId)
              && next.value[portalId].targets.Keys == ps[portalId].targets.Keys - {mode}
              && (forall k :: k in next.value[portalId].targets ==>
                    next.value[portalId].targets[k] == ps[portalId].targets[k])
              && next.value[portalId].mode == ps[portalId].mode
              && next.value[portalId].returnPath == ps[portalId].returnPath
  {
    if portalId !in ps then None
    else
      var instance := ps[portalId];
      Some(ps[portalId := instance.(targets := instance.targets - {mode})])
  }

  /** setMode: sets only `mode`, creating the instance if needed. */
  function AfterSetMode<T>(ps: Registry<T>, portalId: string, mode: Option<string>): (next: Registry<T>)
    ensures next.Keys == ps.Keys + {portalId}
    ensures OthersUnchanged(ps, next, portalId)
    ensures next[portalId].mode == mode
    ensures next[portalId].targets == InstanceOrEmpty(ps, portalId).targets
    ensures next[portalId].returnPath == InstanceOrEmpty(ps, portalId).returnPath
  {
    ps[portalId := InstanceOrEmpty(ps, portalId).(mode := mode)]
  }

  /** setReturnPath: sets only `returnPath`, creating the instance if needed. */
  function AfterSetReturnPath<T>(ps: Registry<T>, portalId: string, path: Option<string>): (next: Registry<T>)
    ensures next.Keys == ps.Keys + {portalId}
    ensures OthersUnchanged(ps, next, portalId)
    ensures next[portalId].returnPath == path
    ensures next[portalId].targets == InstanceOrEmpty(ps, portalId).targets
    ensures next[portalId].mode == InstanceOrEmpty(ps, portalId).mode
  {
    ps[portalId := InstanceOrEmpty(ps, portalId).(returnPath := path)]
  }

  /** resetPortal: a no-op for an unknown portal; otherwise the id stays and
      maps to an empty instance. */
  function AfterReset<T>(ps: Registry<T>, portalId: string): (next: Option<Registry<T>>)
    ensures next.None? <==> portalId !in ps
    ensures next.Some? ==>
              && next.value.Keys == ps.Keys
              && OthersUnchanged(ps, next.value, portalId)
              && next.value[portalId].targets == map[]
              && next.value[portalId].mode == None
              && next.value[portalId].returnPath == None
  {
    if portalId !in ps then None
    else Some(ps[portalId := CreateEmptyInstance()])
  }

  // ---------------------------------------------------------------------
  // Sequences of actions
  // ---------------------------------------------------------------------

  datatype Action<T> =
    | GetOrCreatePortal(portalId: string)
    | Register(portalId: string, key: string, target: T)
    | Unregister(portalId: string, key: string)
    | SetMode(portalId: string, newMode: Option<string>)
    | SetReturnPath(portalId: string, path: Option<string>)
    | ResetPortal(portalId: string)

  /** The actions that take the early `return` before touching the map. */
  predicate ReturnsEarly<T>(ps: Registry<T>, action: Action<T>)
  {
    match action
    case GetOrCreatePortal(id) => id in ps
    case Unregister(id, _) => id !in ps
    case ResetPortal(id) => id !in ps
    case _ => false
  }

  /** The portal id an action may add to the registry. */
  function Creates<T>(action: Action<T>): set<string>
  {
    match action
    case GetOrCreatePortal(id) => {id}
    case Register(id, _, _) => {id}
    case SetMode(id, _) => {id}
    case SetReturnPath(id, _) => {id}
    case Unregister(_, _) => {}
    case ResetPortal(_) => {}
  }

  /** The map `portals` refers to after an action that published `next`. */
  function Installed<T>(ps: Registry<T>, next: Option<Registry<T>>): Registry<T>
  {
    if next.Some? then next.value else ps
  }

  /** One action: publishes (and so notifies) exactly when it does not return
      early, and adds no id but the one it may create. */
  function Step<T>(ps: Registry<T>, action: Action<T>): (next: Option<Registry<T>>)
    ensures next.None? <==> ReturnsEarly(ps, action)
    ensures Installed(ps, next).Keys == ps.Keys + Creates(action)
  {
    match action
    case GetOrCreatePortal(id) => AfterGetOrCreate(ps, id)
    case Register(id, key, target) => Some(AfterRegister(ps, id, key, target))
    case Unregister(id, key) => AfterUnregister(ps, id, key)
    case SetMode(id, mode) => Some(AfterSetMode(ps, id, mode))
    case SetReturnPath(id, path) => Some(AfterSetReturnPath(ps, id, path))
    case ResetPortal(id) => AfterReset(ps, id)
  }

  function Run<T>(ps: Registry<T>, actions: seq<Action<T>>): Registry<T>
    decreases |actions|
  {
    if actions == [] then ps
    else Run(Installed(ps, Step(ps, actions[0])), actions[1..])
  }

  function CreatedIds<T>(actions: seq<Action<T>>): set<string>
    decreases |actions|
  {
    if actions == [] then {} else Creates(actions[0]) + CreatedIds(actions[1..])
  }

  /** After any sequence of actions the known ids are exactly the initial ones
      plus those the actions created: no action removes an id. */
  lemma {:induction false} RunKnownIds<T>(ps: Registry<T>, actions: seq<Action<T>>)
    ensures Run(ps, actions).Keys == ps.Keys + CreatedIds(actions)
    decreases |actions|
  {
    if actions != [] {
      RunKnownIds(Installed(ps, Step(ps, actions[0])), actions[1..]);
    }
  }

  lemma {:induction false} KnownIdsOnlyGrow<T>(ps: Registry<T>, actions: seq<Action<T>>)
    ensures ps.Keys <= Run(ps, actions).Keys
  {
    RunKnownIds(ps, actions);
  }

  // ---------------------------------------------------------------------
  // Properties relating several actions
  // ---------------------------------------------------------------------

  /** Two registrations under one slot key leave only the second target. */
  lemma RegisterLastWriteWins<T>(ps: Registry<T>, portalId: string, mode: string, first: T, second: T)
    ensures AfterRegister(AfterRegister(ps, portalId, mode, first), portalId, mode, second)
         == AfterRegister(ps, portalId, mode, second)
  {
    var instance := InstanceOrEmpty(ps, portalId);
    assert instance.targets[mode := first][mode := second] == instance.targets[mode := second];
  }

  /** A slot that mounts (register) and unmounts (unregister by key) leaves its
      portal without that key and otherwise as it was; if the key was not
      there before, the registry contents are back where they started. */
  lemma SlotMountThenUnmount<T>(ps: Registry<T>, portalId: string, mode: string, target: T)
    ensures var after := AfterUnregister(AfterRegister(ps, portalId, mode, target), portalId, mode);
            && after.Some?
            && after.value == ps[portalId := InstanceOrEmpty(ps, portalId).(
                 targets := InstanceOrEmpty(ps, portalId).targets - {mode})]
    ensures portalId in ps && mode !in ps[portalId].targets ==>
              AfterUnregister(AfterRegister(ps, portalId, mode, target), portalId, mode) == Some(ps)
  {
    var instance := InstanceOrEmpty(ps, portalId);
    var mounted := instance.(targets := instance.targets[mode := target]);
    var registered := AfterRegister(ps, portalId, mode, target);
    assert registered == ps[portalId := mounted];
    assert mounted.targets - {mode} == instance.targets - {mode};
    assert AfterUnregister(registered, portalId, mode)
        == Some(registered[portalId := mounted.(targets := mounted.targets - {mode})]);
    assert registered[portalId := mounted.(targets := mounted.targets - {mode})]
        == ps[portalId := instance.(targets := instance.targets - {mode})];
    if portalId in ps && mode !in ps[portalId].targets {
      assert instance.targets - {mode} == instance.targets;
      assert ps[portalId := instance] == ps;
    }
  }

  /** Unregistering a key a known portal does not hold does not return early:
      it publishes contents equal to the old ones. That publishing installs a
      fresh map and notifies is `PortalStore.Unregister`'s `Published`. */
  lemma UnregisterAbsentKeyStillPublishes<T>(ps: Registry<T>, portalId: string, mode: string)
    requires portalId in ps && mode !in ps[portalId].targets
    ensures AfterUnregister(ps, portalId, mode) == Some(ps)
  {
    assert ps[portalId].targets - {mode} == ps[portalId].targets;
    assert ps[portalId := ps[portalId]] == ps;
  }

  /** After resetPortal on a known id, getOrCreatePortal returns early with
      the empty instance the reset installed. */
  lemma ResetThenGetOrCreate<T>(ps: Registry<T>, portalId: string)
    requires portalId in ps
    ensures var reset := AfterReset(ps, portalId);
            && reset.Some?
            && AfterGetOrCreate(reset.value, portalId).None?
            && InstanceOrEmpty(reset.value, portalId) == CreateEmptyInstance()
  {
  }

  // ---------------------------------------------------------------------
  // The store
  // ---------------------------------------------------------------------

  /** One published `Map` object. Its contents never change after it is
      built, so a snapshot handed out earlier keeps its contents; a new
      object means a new identity, which is what consumers compare. */
  class PortalMap<T> {
    const entries: Registry<T>

    constructor (entries: Registry<T>)
      ensures this.entries == entries
    {
      this.entries := entries;
    }
  }

  /** Every listener in `subscribed` was called exactly once, and no other
      counter moved. */
  ghost predicate NotifiedOnce(before: map<ListenerId, nat>, after: map<ListenerId, nat>, subscribed: set<ListenerId>)
  {
    && after.Keys == before.Keys
    && forall l :: l in before ==> after[l] == before[l] + (if l in subscribed then 1 else 0)
  }

  /** Every listener in `called` read `snapshot` when it was called; what the
      other listeners last read is unchanged. */
  ghost predicate SawOnCall<T>(before: map<ListenerId, PortalMap<T>>, after: map<ListenerId, PortalMap<T>>,
                               called: set<ListenerId>, snapshot: PortalMap<T>)
  {
    && after.Keys == before.Keys + called
    && (forall l :: l in called ==> l in after && after[l] == snapshot)
    && (forall l :: l in before && l !in called ==> l in after && after[l] == before[l])
  }

  class PortalStore<T> {
    /** The map the module-level `portals` variable refers to. */
    var portals: PortalMap<T>
    var listeners: set<ListenerId>
    /** How many times each listener that ever subscribed has been called. */
    var notifications: map<ListenerId, nat>
    /** The snapshot each listener got from `getSnapshot` when it was last
        called, so the order of installing and notifying is observable. */
    var seen: map<ListenerId, PortalMap<T>>

    ghost predicate Valid()
      reads this
    {
      listeners <= notifications.Keys
    }

    /** The outcome of an action: for `None` nothing was replaced and nobody
        was called; for `Some(next)` a fresh map holding `next` was installed
        and then every current listener was called once and read that map. */
    twostate predicate Published(next: Option<Registry<T>>)
      reads this
    {
      && listeners == old(listeners)
      && match next
         case None => portals == old(portals) && notifications == old(notifications) && seen == old(seen)
         case Some(entries) =>
           && fresh(portals)
           && portals.entries == entries
           && NotifiedOnce(old(notifications), notifications, listeners)
           && SawOnCall(old(seen), seen, listeners, portals)
    }

    /** The module's initial state: an empty map and no listeners. */
    constructor ()
      ensures Valid() && fresh(portals)
      ensures portals.entries == map[] && listeners == {} && notifications == map[] && seen == map[]
    {
      portals := new PortalMap(map[]);
      listeners := {};
      notifications := map[];
      seen := map[];
    }

    /** The installed map object itself, not a copy: its identity changes
        exactly when an action publishes. */
    function GetSnapshot(): (snapshot: PortalMap<T>)
      reads this
      ensures snapshot == portals && snapshot.entries == portals.entries
    {
      portals
    }

    method Subscribe(listener: ListenerId)
      requires Valid()
      modifies this
      ensures Valid()
      ensures listeners == old(listeners) + {listener}
      ensures portals == old(portals) && seen == old(seen)
      ensures notifications.Keys == old(notifications).Keys + {listener}
      ensures forall l :: l in old(notifications) ==> notifications[l] == old(notifications)[l]
      ensures listener !in old(notifications) ==> notifications[listener] == 0
    {
      listeners := listeners + {listener};
      if listener !in notifications {
        notifications := notifications[listener := 0];
      }
    }

    /** The function `subscribe` returns, applied to the listener it added. */
    method Unsubscribe(listener: ListenerId)
      requires Valid()
      modifies this
      ensures Valid()
      ensures listeners == old(listeners) - {listener}
      ensures portals == old(portals) && notifications == old(notifications) && seen == old(seen)
    {
      listeners := listeners - {listener};
    }

    /** Calls every current listener once; each one reads the snapshot
        installed at that moment. */
    method EmitChange()
      requires Valid()
      modifies this
      ensures Valid()
      ensures portals == old(portals) && listeners == old(listeners)
      ensures NotifiedOnce(old(notifications), notifications, listeners)
      ensures SawOnCall(old(seen), seen, listeners, portals)
    {
      var pending := listeners;
      while pending != {}
        invariant pending <= listeners
        invariant portals == old(portals) && listeners == old(listeners)
        invariant notifications.Keys == old(notifications).Keys
        invariant forall l :: l in old(notifications) ==>
                    notifications[l] == old(notifications)[l] + (if l in listeners && l !in pending then 1 else 0)
        invariant SawOnCall(old(seen), seen, listeners - pending, portals)
        decreases pending
      {
        var l :| l in pending;
        notifications := notifications[l := notifications[l] + 1];
        seen := seen[l := GetSnapshot()];
        pending := pending - {l};
      }
    }

    method GetOrCreatePortal(portalId: string) returns (instance: PortalInstance<T>)
      requires Valid()
      modifies this
      ensures Valid()
      ensures Published(AfterGetOrCreate(old(portals.entries), portalId))
      ensures portalId in portals.entries && instance == portals.entries[portalId]
      ensures instance == InstanceOrEmpty(old(portals.entries), portalId)
    {
      var existing := Get(portals.entries, portalId);
      if existing.Some? {
        return existing.value;
      }
      instance := CreateEmptyInstance();
      portals := new PortalMap(portals.entries[portalId := instance]);
      EmitChange();
    }

    method Register(portalId: string, mode: string, target: T)
      requires Valid()
      modifies this
      ensures Valid()
      ensures Published(Some(AfterRegister(old(portals.entries), portalId, mode, target)))
    {
      var instance := InstanceOrEmpty(portals.entries, portalId);
      var targets := instance.targets[mode := target];
      portals := new PortalMap(portals.entries[portalId := instance.(targets := targets)]);
      EmitChange();
    }

    method Unregister(portalId: string, mode: string)
      requires Valid()
      modifies this
      ensures Valid()
      ensures Published(AfterUnregister(old(portals.entries), portalId, mode))
    {
      var existing := Get(portals.entries, portalId);
      if existing.None? {
        return;
      }
      var instance := existing.value;
      var targets := instance.targets - {mode};
      portals := new PortalMap(portals.entries[portalId := instance.(targets := targets)]);
      EmitChange();
    }

    method SetMode(portalId: string, mode: Option<string>)
      requires Valid()
      modifies this
      ensures Valid()
      ensures Published(Some(AfterSetMode(old(portals.entries), portalId, mode)))
    {
      var instance := InstanceOrEmpty(portals.entries, portalId);
      portals := new PortalMap(portals.entries[portalId := instance.(mode := mode)]);
      EmitChange();
    }

    method SetReturnPath(portalId: string, path: Option<string>)
      requires Valid()
      modifies this
      ensures Valid()
      ensures Published(Some(AfterSetReturnPath(old(portals.entries), portalId, path)))
    {
      var instance := InstanceOrEmpty(portals.entries, portalId);
      portals := new PortalMap(portals.entries[portalId := instance.(returnPath := path)]);
      EmitChange();
    }

    method ResetPortal(portalId: string)
      requires Valid()
      modifies this
      ensures Valid()
      ensures Published(AfterReset(old(portals.entries), portalId))
    {
      var existing := Get(portals.entries, portalId);
      if existing.None? {
        return;
      }
      portals := new PortalMap(portals.entries[portalId := CreateEmptyInstance()]);
      EmitChange();
    }
  }
}
