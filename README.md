# Portal registry store, modelled in Dafny

This project models the registry behind `react-unmanaged-portal`. The registry is a
process-wide map from portal id to a portal instance. Each instance holds its targets
(one rendering surface per slot key, called `mode` in the code), its active `mode`
and a `returnPath`. The registry also keeps a set of change listeners. Six actions
change it:

- `getOrCreatePortal`
- `register` and `unregister`
- `setMode` and `setReturnPath`
- `resetPortal`

Each action either returns early and changes nothing, or installs a fresh copy of
the map and then calls every listener once. On top of the store sits the `usePortal`
facade. Its reads fall back to defaults when the portal is absent. Its five mutators
forward to the store with the portal id bound in.

Layout:

- `store.dfy`, module `Store`:
  - Pure functions `AfterGetOrCreate`, `AfterRegister`, `AfterUnregister`,
    `AfterSetMode`, `AfterSetReturnPath` and `AfterReset` give the contents each
    action publishes. `None` means the action returned early.
  - `Action`, `Step` and `Run` describe sequences of actions, with the lemma that
    ids are never removed.
  - Class `PortalStore` holds the mutable state. `portals` is a `PortalMap` object
    whose contents are a `const`. A snapshot handed out by `GetSnapshot` therefore
    keeps its contents forever. An effective action installs a `fresh` object, so a
    consumer comparing references sees the change. An early return keeps the same
    reference. `listeners` is a set of listener ids, and `notifications` counts the
    calls each listener has received.
  - `Published` is a two-state predicate. It states the effect of one action on the
    store: either the same map and no calls, or a fresh map followed by one call per
    listener. `seen` records the snapshot each listener got from `getSnapshot` when
    it was called. Every listener sees the new map, so the map is installed before
    the listeners run.
- `use_portal.dfy`, module `UsePortal`:
  - `ModeOf`, `ReturnPathOf` and `TargetsOf` are the derived reads over a snapshot.
  - Class `PortalFacade` binds a store and a portal id. Its id defaults to
    `DEFAULT_PORTAL_ID`, which is `"default"`.

Targets are the type parameter `T`. The model never looks inside a target.

### Behaviour worth noting

- `unregister` on a known portal installs a new map and notifies even when the key
  is absent (`store.ts:62-71`). `Store.UnregisterAbsentKeyStillPublishes` shows that
  the published contents then equal the old ones. `Store.PortalStore.Unregister`
  shows that a fresh map is still installed and every listener is called.
- Unregistering the same key twice on a known portal therefore notifies both times.

## Model

| member | source | states |
|---|---|---|
| Store.CreateEmptyInstance | packages/react-unmanaged-portal/src/model/store.ts:30-34 | the new instance has no targets, a null mode and a null returnPath |
| Store.AfterGetOrCreate | packages/react-unmanaged-portal/src/model/store.ts:37-46 | returns early exactly when the id is known; otherwise adds exactly that id, bound to an empty instance, and leaves every other entry as it was |
| Store.AfterRegister | packages/react-unmanaged-portal/src/model/store.ts:48-60 | the portal exists afterwards and `targets[mode]` is the new target (last write wins); the other target keys and values, `mode`, `returnPath` and all other portals are unchanged; a missing portal starts from the empty instance |
| Store.AfterUnregister | packages/react-unmanaged-portal/src/model/store.ts:62-72 | returns early exactly when the portal is unknown; otherwise the id set is unchanged and only key `mode` leaves that portal's targets; the remaining targets, `mode`, `returnPath` and other portals are kept |
| Store.AfterSetMode | packages/react-unmanaged-portal/src/model/store.ts:74-80 | never returns early; creates the portal if missing; sets `mode` and keeps its targets, its returnPath and every other portal |
| Store.AfterSetReturnPath | packages/react-unmanaged-portal/src/model/store.ts:82-88 | never returns early; creates the portal if missing; sets `returnPath` and keeps its targets, its mode and every other portal |
| Store.AfterReset | packages/react-unmanaged-portal/src/model/store.ts:90-97 | returns early exactly when the portal is unknown; otherwise the id stays, maps to an instance with no targets and null mode and returnPath, and other portals are unchanged |
| Store.Step | packages/react-unmanaged-portal/src/model/store.ts:37-97 | an action publishes (and so notifies) exactly when it does not take its early return; the known ids afterwards are the old ones plus the id the action may create |
| Store.RunKnownIds | packages/react-unmanaged-portal/src/model/store.ts:37-97 | after any sequence of actions, the known ids are exactly the initial ids plus the ids of the creating actions (getOrCreatePortal, register, setMode, setReturnPath) |
| Store.KnownIdsOnlyGrow | packages/react-unmanaged-portal/src/model/store.ts:37-97 | no sequence of actions removes a portal id |
| Store.RegisterLastWriteWins | packages/react-unmanaged-portal/src/model/store.ts:53-58 | two registrations under one key give the same registry as the second one alone |
| Store.SlotMountThenUnmount | packages/react-unmanaged-portal/src/components/PortalSlot.tsx:28-34 | register followed by unregister of the same key leaves the portal (created if needed) without that key and otherwise as before; if the key was absent from a known portal, the contents are back to the start |
| Store.UnregisterAbsentKeyStillPublishes | packages/react-unmanaged-portal/src/model/store.ts:62-72 | unregistering a key a known portal lacks does not return early: it publishes contents equal to the old ones and so notifies |
| Store.ResetThenGetOrCreate | packages/react-unmanaged-portal/src/model/store.ts:37-97 | after resetting a known portal, getOrCreatePortal returns early and yields the empty instance |
| Store.PortalMap.constructor | packages/react-unmanaged-portal/src/model/store.ts:42-43 | a published map holds fixed contents, so an earlier snapshot never changes |
| Store.PortalStore.constructor | packages/react-unmanaged-portal/src/model/store.ts:11-13 | the store starts with an empty portal map and no listeners |
| Store.PortalStore.GetSnapshot | packages/react-unmanaged-portal/src/model/store.ts:19-21 | returns the installed map object itself, not a copy; its identity changes exactly when an action publishes |
| Store.PortalStore.Subscribe | packages/react-unmanaged-portal/src/model/store.ts:23-24 | adds the listener to the set and changes neither the portals nor any existing notification count |
| Store.PortalStore.Unsubscribe | packages/react-unmanaged-portal/src/model/store.ts:25-27 | removes only that listener; portals and counts are unchanged |
| Store.PortalStore.EmitChange | packages/react-unmanaged-portal/src/model/store.ts:15-17 | every current listener is called exactly once and reads the snapshot installed at that moment; no other count, no portal and no listener changes |
| Store.PortalStore.GetOrCreatePortal | packages/react-unmanaged-portal/src/model/store.ts:37-46 | returns the stored instance for a known id, keeping the same map and notifying nobody; for a new id installs a fresh map with one empty instance added, then notifies each listener once, and each listener reads the new map; the result is the stored entry |
| Store.PortalStore.Register | packages/react-unmanaged-portal/src/model/store.ts:48-60 | installs a fresh map with the `AfterRegister` contents, then notifies each listener once; each listener reads the new map |
| Store.PortalStore.Unregister | packages/react-unmanaged-portal/src/model/store.ts:62-72 | unknown portal: same map, no notification; known portal: fresh map with the `AfterUnregister` contents and one notification per listener, in which each listener reads the new map, even when the key was absent |
| Store.PortalStore.SetMode | packages/react-unmanaged-portal/src/model/store.ts:74-80 | always installs a fresh map with the `AfterSetMode` contents, then notifies, even if the mode is unchanged; each listener reads the new map |
| Store.PortalStore.SetReturnPath | packages/react-unmanaged-portal/src/model/store.ts:82-88 | always installs a fresh map with the `AfterSetReturnPath` contents, then notifies, even if the path is unchanged; each listener reads the new map |
| Store.PortalStore.ResetPortal | packages/react-unmanaged-portal/src/model/store.ts:90-97 | unknown portal: same map, no notification; known portal: fresh map with the `AfterReset` contents, then one notification per listener, in which each listener reads the new map |
| UsePortal.ModeOf | packages/react-unmanaged-portal/src/model/usePortal.ts:14-16 | the portal's mode, or null when the id is not in the snapshot |
| UsePortal.ReturnPathOf | packages/react-unmanaged-portal/src/model/usePortal.ts:14-17 | the portal's returnPath, or null when the id is not in the snapshot |
| UsePortal.TargetsOf | packages/react-unmanaged-portal/src/model/usePortal.ts:14-18 | the portal's targets, or an empty map when the id is not in the snapshot |
| UsePortal.ReadsAsIfCreated | packages/react-unmanaged-portal/src/model/usePortal.ts:14-18 | reading an absent portal gives what reading it after getOrCreatePortal would give, without creating it |
| UsePortal.ReadsAfterReset | packages/react-unmanaged-portal/src/model/usePortal.ts:30 | after a reset the three reads show their defaults, whether or not the portal existed |
| UsePortal.ReadsAfterSetters | packages/react-unmanaged-portal/src/model/usePortal.ts:20-28 | after setMode the mode read shows the new value and the other reads are unchanged; the same holds for setReturnPath |
| UsePortal.TargetsAfterRegisterAndUnregister | packages/react-unmanaged-portal/src/model/usePortal.ts:32-41 | registerTarget adds or overwrites one key of the targets read; unregisterTarget removes that key; the mode read is unchanged |
| UsePortal.PortalFacade.constructor | packages/react-unmanaged-portal/src/model/usePortal.ts:13 | the facade is bound to the given id, or to `DEFAULT_PORTAL_ID`, which is `"default"` |
| UsePortal.PortalFacade.Mode | packages/react-unmanaged-portal/src/model/usePortal.ts:14-16 | the bound portal's mode in the store's current snapshot, or null when the portal is absent; it is a function, so reading creates no portal and changes nothing |
| UsePortal.PortalFacade.ReturnPath | packages/react-unmanaged-portal/src/model/usePortal.ts:14-17 | the bound portal's returnPath in the current snapshot, or null when the portal is absent; reading creates no portal |
| UsePortal.PortalFacade.Targets | packages/react-unmanaged-portal/src/model/usePortal.ts:14-18 | the bound portal's targets in the current snapshot, or an empty map when the portal is absent; reading creates no portal |
| UsePortal.PortalFacade.SetMode | packages/react-unmanaged-portal/src/model/usePortal.ts:20-23 | has exactly the effect of the store's setMode on the bound id |
| UsePortal.PortalFacade.SetReturnPath | packages/react-unmanaged-portal/src/model/usePortal.ts:25-28 | has exactly the effect of the store's setReturnPath on the bound id |
| UsePortal.PortalFacade.Reset | packages/react-unmanaged-portal/src/model/usePortal.ts:30 | has exactly the effect of the store's resetPortal on the bound id |
| UsePortal.PortalFacade.RegisterTarget | packages/react-unmanaged-portal/src/model/usePortal.ts:32-36 | has exactly the effect of the store's register on the bound id |
| UsePortal.PortalFacade.UnregisterTarget | packages/react-unmanaged-portal/src/model/usePortal.ts:38-41 | has exactly the effect of the store's unregister on the bound id |

## Left out

- `usePortalStore` (`store.ts:100-105`) is left out. So are the `useSyncExternalStore` subscription and render-phase tearing. These are framework scheduling. The facade's reads are modelled as functions of a snapshot instead (`PortalFacade.Mode`, `ReturnPath`, `Targets`).
- `useCallback` and `useMemo` identity stability in `usePortal.ts` is left out. It is a framework concern.
- Instances and target maps are values in the model. The code hands out the same `PortalInstance` object and the same `targets` Map when nothing changed. Only the identity of the outer portal map is modelled.
- Targets are opaque. Moving DOM nodes, and keeping child instances alive while they move, is left out. `PortalHost` is not part of this model.
- Listeners are ids, and calling one only bumps its counter. A listener that mutates the store while being called is not modelled. Neither is the order in which listeners are called.
- `subscribe` returns an unsubscribe closure. The model has a separate `Unsubscribe(listener)` method for the same listener.
- The typed factory `createPortal` is not modelled. It only adds compile-time typing over `usePortal`.
- The demo and UI components are not modelled, and neither are the build files.
