/**
  The per-portal facade: reads that fall back to neutral defaults when the
  portal is not in the snapshot, and mutators that forward to the store with
  the portal id bound in.
 */
module UsePortal {
  import opened Store

  /** `portal?.mode ?? null`, where `portal` is `portals.get(portalId)`. */
  function ModeOf<T>(snapshot: Registry<T>, portalId: string): (mode: Option<string>)
    ensures portalId in snapshot ==> mode == snapshot[portalId].mode
    ensures portalId !in snapshot ==> mode == None
  {
    match Get(snapshot, portalId)
    case Some(portal) => portal.mode
    case None => None
  }

  /** `portal?.returnPath ?? null` */
  function ReturnPathOf<T>(snapshot: Registry<T>, portalId: string): (path: Option<string>)
    ensures portalId in snapshot ==> path == snapshot[portalId].returnPath
    ensures portalId !in snapshot ==> path == None
  {
    match Get(snapshot, portalId)
    case Some(portal) => portal.returnPath
    case None => None
  }

  /** `portal?.targets ?? new Map()` */
  function TargetsOf<T>(snapshot: Registry<T>, portalId: string): (targets: map<string, T>)
    ensures portalId in snapshot ==> targets == snapshot[portalId].targets
    ensures portalId !in snapshot ==> targets == map[]
  {
    match Get(snapshot, portalId)
    case Some(portal) => portal.targets
    case None => map[]
  }

  /** Reading an absent portal gives what reading it after getOrCreatePortal
      would give, without creating it: the defaults are the empty instance. */
  lemma ReadsAsIfCreated<T>(snapshot: Registry<T>, portalId: string)
    ensures var created := Installed(snapshot, AfterGetOrCreate(snapshot, portalId));
            && ModeOf(snapshot, portalId) == ModeOf(created, portalId)
            && ReturnPathOf(snapshot, portalId) == ReturnPathOf(created, portalId)
            && TargetsOf(snapshot, portalId) == TargetsOf(created, portalId)
  {
  }

  /** After a reset through the facade its reads show the defaults, whether
      or not the portal existed. */
  lemma ReadsAfterReset<T>(snapshot: Registry<T>, portalId: string)
    ensures var after := Installed(snapshot, AfterReset(snapshot, portalId));
            && ModeOf(after, portalId) == None
            && ReturnPathOf(after, portalId) == None
            && TargetsOf(after, portalId) == map[]
  {
  }

  /** Each setter is seen by the matching read and by no other read. */
  lemma ReadsAfterSetters<T>(snapshot: Registry<T>, portalId: string, mode: Option<string>, path: Option<string>)
    ensures var after := AfterSetMode(snapshot, portalId, mode);
            && ModeOf(after, portalId) == mode
            && ReturnPathOf(after, portalId) == ReturnPathOf(snapshot, portalId)
            && TargetsOf(after, portalId) == TargetsOf(snapshot, portalId)
    ensures var after := AfterSetReturnPath(snapshot, portalId, path);
            && ReturnPathOf(after, portalId) == path
            && ModeOf(after, portalId) == ModeOf(snapshot, portalId)
            && TargetsOf(after, portalId) == TargetsOf(snapshot, portalId)
  {
  }

  /** A registered target is what the facade's `targets` shows under its key
      until that key is unregistered. */
  lemma TargetsAfterRegisterAndUnregister<T>(snapshot: Registry<T>, portalId: string, mode: string, target: T)
    ensures var after := AfterRegister(snapshot, portalId, mode, target);
            && TargetsOf(after, portalId) == TargetsOf(snapshot, portalId)[mode := target]
            && ModeOf(after, portalId) == ModeOf(snapshot, portalId)
    ensures var after := Installed(snapshot, AfterUnregister(snapshot, portalId, mode));
            && TargetsOf(after, portalId) == TargetsOf(snapshot, portalId) - {mode}
            && ModeOf(after, portalId) == ModeOf(snapshot, portalId)
  {
  }

  /** What `usePortal(portalId)` hands out: the store and the bound id. */
  class PortalFacade<T> {
    const store: PortalStore<T>
    const portalId: string

    /** `usePortal(portalId = DEFAULT_PORTAL_ID)` */
    constructor (store: PortalStore<T>, portalId: Option<string>)
      ensures this.store == store
      ensures portalId.Some? ==> this.portalId == portalId.value
      ensures portalId.None? ==> this.portalId == DEFAULT_PORTAL_ID == "default"
    {
      this.store := store;
      this.portalId := if portalId.Some? then portalId.value else DEFAULT_PORTAL_ID;
    }

    /** The derived reads, taken from the store's current snapshot. Being
        functions, they cannot create a portal or change the store. */
    function Mode(): (mode: Option<string>)
      reads store
      ensures portalId in store.portals.entries ==> mode == store.portals.entries[portalId].mode
      ensures portalId !in store.portals.entries ==> mode == None
    {
      ModeOf(store.GetSnapshot().entries, portalId)
    }

    function ReturnPath(): (path: Option<string>)
      reads store
      ensures portalId in store.portals.entries ==> path == store.portals.entries[portalId].returnPath
      ensures portalId !in store.portals.entries ==> path == None
    {
      ReturnPathOf(store.GetSnapshot().entries, portalId)
    }

    function Targets(): (targets: map<string, T>)
      reads store
      ensures portalId in store.portals.entries ==> targets == store.portals.entries[portalId].targets
      ensures portalId !in store.portals.entries ==> targets == map[]
    {
      TargetsOf(store.GetSnapshot().entries, portalId)
    }

    method SetMode(newMode: Option<string>)
      requires store.Valid()
      modifies store
      ensures store.Valid()
      ensures store.Published(Some(AfterSetMode(old(store.portals.entries), portalId, newMode)))
    {
      store.SetMode(portalId, newMode);
    }

    method SetReturnPath(path: Option<string>)
      requires store.Valid()
      modifies store
      ensures store.Valid()
      ensures store.Published(Some(AfterSetReturnPath(old(store.portals.entries), portalId, path)))
    {
      store.SetReturnPath(portalId, path);
    }

    method Reset()
      requires store.Valid()
      modifies store
      ensures store.Valid()
      ensures store.Published(AfterReset(old(store.portals.entries), portalId))
    {
      store.ResetPortal(portalId);
    }

    method RegisterTarget(targetMode: string, target: T)
      requires store.Valid()
      modifies store
      ensures store.Valid()
      ensures store.Published(Some(AfterRegister(old(store.portals.entries), portalId, targetMode, target)))
    {
      store.Register(portalId, targetMode, target);
    }

    method UnregisterTarget(targetMode: string)
      requires store.Valid()
      modifies store
      ensures store.Valid()
      ensures store.Published(AfterUnregister(old(store.portals.entries), portalId, targetMode))
    {
      store.Unregister(portalId, targetMode);
    }
  }
}
