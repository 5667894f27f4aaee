// Request-scoped stores (UI/src/stores/request-scoped-store.ts): a module-level two-level map
// from request key to store symbol to store. A scoped or derived store is a symbol minted once;
// reading it under a session finds or creates the store in that session's request scope.
module RequestScopedStore {
  import opened Wrappers

  /** A request key: the session's store symbol, or the global key in the browser. */
  type StoreKey = string

  /** Symbol(name): a fresh identity; the description plays no part in lookups. */
  datatype StoreSymbol = StoreSymbol(id: nat, description: string)

  /** A store object: writable(initialValue), or derived(sources, fn) over the given sources. */
  datatype Store = WritableStore(serial: nat) | DerivedStore(serial: nat, sources: seq<Store>)

  /** What a store symbol was minted for: a scoped store, or a derived one over other symbols. */
  datatype StoreDefinition = ScopedDefinition | DerivedDefinition(dependencies: seq<StoreSymbol>)

  /** The session as getRequestScope reads it: `session?.storeSymbol`. */
  datatype Session = Session(storeSymbol: Option<StoreKey>)

  datatype ScopeError = MissingStoreSymbol

  /** The key used in the browser when the session has none. */
  const GlobalSymbol: StoreKey := "request-scope-id-1"

  /**
   * getRequestScope: a set (truthy) store symbol; otherwise the global key in the browser; on
   * the server, an error.
   */
  function GetRequestScope(session: Option<Session>, browser: bool): (r: Result<StoreKey, ScopeError>)
    ensures r.Success? <==> browser || (session.Some? && session.value.storeSymbol.Some? && session.value.storeSymbol.value != "")
    ensures r.Success? && session.Some? && session.value.storeSymbol.Some? && session.value.storeSymbol.value != "" ==>
      r.value == session.value.storeSymbol.value
    ensures r.Success? && !(session.Some? && session.value.storeSymbol.Some? && session.value.storeSymbol.value != "") ==>
      r.value == GlobalSymbol
  {
    if session.Some? && session.value.storeSymbol.Some? && session.value.storeSymbol.value != "" then
      Success(session.value.storeSymbol.value)
    else if browser then Success(GlobalSymbol)
    else Failure(MissingStoreSymbol)
  }

  /**
   * The state getOrCreateStore leaves behind, and the store it returns: an existing entry is
   * returned as it is; otherwise `created` is stored under the two keys.
   */
  function GetOrCreate(scopedMap: map<StoreKey, map<StoreSymbol, Store>>, requestKey: StoreKey, storeKey: StoreSymbol,
                       created: Store): (r: (map<StoreKey, map<StoreSymbol, Store>>, Store))
    ensures requestKey in r.0 && storeKey in r.0[requestKey] && r.0[requestKey][storeKey] == r.1
  {
    var requestStores := if requestKey in scopedMap then scopedMap[requestKey] else map[];
    if storeKey in requestStores then (scopedMap, requestStores[storeKey])
    else (scopedMap[requestKey := requestStores[storeKey := created]], created)
  }

  /** A second lookup returns the store of the first, whatever it would have created, and changes nothing. */
  lemma GetOrCreateOnce(scopedMap: map<StoreKey, map<StoreSymbol, Store>>, requestKey: StoreKey, storeKey: StoreSymbol,
                        created1: Store, created2: Store)
    ensures var (m1, s1) := GetOrCreate(scopedMap, requestKey, storeKey, created1);
      GetOrCreate(m1, requestKey, storeKey, created2) == (m1, s1)
  {
  }

  /** The lookup creates only when the entry is missing, and then adds exactly that entry. */
  lemma GetOrCreateCreates(scopedMap: map<StoreKey, map<StoreSymbol, Store>>, requestKey: StoreKey, storeKey: StoreSymbol,
                           created: Store)
    ensures var (m, s) := GetOrCreate(scopedMap, requestKey, storeKey, created);
      (requestKey in scopedMap && storeKey in scopedMap[requestKey] ==> m == scopedMap && s == scopedMap[requestKey][storeKey]) &&
      (!(requestKey in scopedMap && storeKey in scopedMap[requestKey]) ==>
        s == created && m[requestKey] == (if requestKey in scopedMap then scopedMap[requestKey] else map[])[storeKey := created])
  {
  }

  /** Entries under other request keys, and other store keys of the same request, are untouched. */
  lemma GetOrCreateLocal(scopedMap: map<StoreKey, map<StoreSymbol, Store>>, requestKey: StoreKey, storeKey: StoreSymbol,
                         created: Store, otherRequest: StoreKey, otherStore: StoreSymbol)
    ensures var m := GetOrCreate(scopedMap, requestKey, storeKey, created).0;
      (otherRequest != requestKey ==>
        (otherRequest in m <==> otherRequest in scopedMap) && (otherRequest in m ==> m[otherRequest] == scopedMap[otherRequest])) &&
      (otherStore != storeKey && requestKey in scopedMap && otherStore in scopedMap[requestKey] ==>
        otherStore in m[requestKey] && m[requestKey][otherStore] == scopedMap[requestKey][otherStore])
  {
  }

  /** After removeScopedStores the request has no stores, so the next lookup creates afresh. */
  lemma RemoveThenRecreate(scopedMap: map<StoreKey, map<StoreSymbol, Store>>, requestKey: StoreKey, storeKey: StoreSymbol,
                           created: Store)
    ensures GetOrCreate(scopedMap - {requestKey}, requestKey, storeKey, created).1 == created
  {
  }

  /** Nothing outside the request's entries changed, and the request's earlier entries are kept. */
  ghost predicate OnlyRequestGrew(before: map<StoreKey, map<StoreSymbol, Store>>, after: map<StoreKey, map<StoreSymbol, Store>>, requestKey: StoreKey)
  {
    requestKey in after &&
    (forall k | k != requestKey :: (k in after <==> k in before) && (k in after ==> after[k] == before[k])) &&
    (requestKey in before ==> forall s | s in before[requestKey] ::
      s in after[requestKey] && after[requestKey][s] == before[requestKey][s])
  }

  lemma GrewTransitive(a: map<StoreKey, map<StoreSymbol, Store>>, b: map<StoreKey, map<StoreSymbol, Store>>, c: map<StoreKey, map<StoreSymbol, Store>>, requestKey: StoreKey)
    requires OnlyRequestGrew(a, b, requestKey) && OnlyRequestGrew(b, c, requestKey)
    ensures OnlyRequestGrew(a, c, requestKey)
  {
  }

  /** Adding a missing store of the request is growing the request only. */
  lemma GrewByAdding(m: map<StoreKey, map<StoreSymbol, Store>>, requestKey: StoreKey, symbol: StoreSymbol, store: Store)
    requires requestKey in m && symbol !in m[requestKey]
    ensures OnlyRequestGrew(m, m[requestKey := m[requestKey][symbol := store]], requestKey)
  {
  }

  /**
   * The module state: the scoped map, the symbols minted so far and what each was minted for, and
   * a counter standing for the identity of each new store object.
   */
  class RequestScopedStores {
    var scopedMap: map<StoreKey, map<StoreSymbol, Store>>
    var definitions: map<StoreSymbol, StoreDefinition>
    var nextSymbol: nat
    var nextSerial: nat

    /** Every minted symbol is below the counter and depends only on symbols minted before it. */
    ghost predicate DefinitionsValid()
      reads this
    {
      forall s | s in definitions ::
        s.id < nextSymbol &&
        (definitions[s].DerivedDefinition? ==>
          forall d | d in definitions[s].dependencies :: d in definitions && d.id < s.id)
    }

    /** A stored store is of its symbol's kind; a derived one reads its dependencies' stores in the same scope. */
    ghost predicate EntryCoherent(requestKey: StoreKey, s: StoreSymbol)
      reads this
      requires requestKey in scopedMap && s in scopedMap[requestKey]
    {
      var store := scopedMap[requestKey][s];
      s in definitions &&
      store.serial < nextSerial &&
      (store.WritableStore? <==> definitions[s].ScopedDefinition?) &&
      (store.DerivedStore? ==>
        var deps := definitions[s].dependencies;
        |store.sources| == |deps| &&
        forall i | 0 <= i < |deps| :: deps[i] in scopedMap[requestKey] && store.sources[i] == scopedMap[requestKey][deps[i]])
    }

    ghost predicate Valid()
      reads this
    {
      DefinitionsValid() &&
      forall k, s | k in scopedMap && s in scopedMap[k] :: EntryCoherent(k, s)
    }

    constructor ()
      ensures Valid() && scopedMap == map[] && definitions == map[]
    {
      scopedMap := map[];
      definitions := map[];
      nextSymbol := 0;
      nextSerial := 0;
    }

    /** scopedStore(name): mints a symbol never seen before. */
    method ScopedStore(name: string) returns (symbol: StoreSymbol)
      requires Valid()
      modifies this
      ensures Valid()
      ensures symbol !in old(definitions) && definitions == old(definitions)[symbol := ScopedDefinition]
      ensures scopedMap == old(scopedMap) && nextSymbol > old(nextSymbol)
    {
      symbol := StoreSymbol(nextSymbol, name);
      definitions := definitions[symbol := ScopedDefinition];
      nextSymbol := nextSymbol + 1;
      assert forall k, s | k in scopedMap && s in scopedMap[k] :: EntryCoherent(k, s);
    }

    /** derivedScopeStore(name, stores, fn): mints a symbol never seen before, over stores minted earlier. */
    method DerivedScopeStore(name: string, stores: seq<StoreSymbol>) returns (symbol: StoreSymbol)
      requires Valid() && forall d | d in stores :: d in definitions
      modifies this
      ensures Valid()
      ensures symbol !in old(definitions) && definitions == old(definitions)[symbol := DerivedDefinition(stores)]
      ensures scopedMap == old(scopedMap) && nextSymbol > old(nextSymbol)
    {
      symbol := StoreSymbol(nextSymbol, name);
      definitions := definitions[symbol := DerivedDefinition(stores)];
      nextSymbol := nextSymbol + 1;
      assert forall k, s | k in scopedMap && s in scopedMap[k] :: EntryCoherent(k, s);
    }

    /** removeScopedStores(key): drops every store of the request and nothing else. */
    method RemoveScopedStores(storeKey: StoreKey)
      requires Valid()
      modifies this
      ensures Valid()
      ensures scopedMap == old(scopedMap) - {storeKey}
      ensures definitions == old(definitions) && nextSerial == old(nextSerial)
    {
      scopedMap := scopedMap - {storeKey};
      assert forall k, s | k in scopedMap && s in scopedMap[k] :: EntryCoherent(k, s) by {
        forall k, s | k in scopedMap && s in scopedMap[k]
          ensures EntryCoherent(k, s)
        {
          assert old(EntryCoherent(k, s));
        }
      }
    }

    /**
     * getOrCreateStore(requestKey, symbol, create), with `create` the closure the symbol was
     * minted with: a new writable store, or a derived store over its dependencies read under the
     * same request key. The request's inner map is set before `create` runs, so the dependencies
     * land in it too.
     */
    method GetOrCreateStore(requestKey: StoreKey, symbol: StoreSymbol) returns (store: Store)
      requires Valid() && symbol in definitions
      modifies this
      decreases symbol.id, 1
      ensures Valid() && definitions == old(definitions) && nextSymbol == old(nextSymbol)
      ensures OnlyRequestGrew(old(scopedMap), scopedMap, requestKey)
      ensures symbol in scopedMap[requestKey] && scopedMap[requestKey][symbol] == store
      ensures forall s | s in scopedMap[requestKey] ::
        (requestKey in old(scopedMap) && s in old(scopedMap)[requestKey]) || s.id <= symbol.id
      ensures requestKey in old(scopedMap) && symbol in old(scopedMap)[requestKey] ==>
        scopedMap == old(scopedMap) && nextSerial == old(nextSerial) && store == old(scopedMap)[requestKey][symbol]
      ensures nextSerial >= old(nextSerial)
      ensures definitions[symbol].ScopedDefinition? ==>
        (scopedMap, store) == GetOrCreate(old(scopedMap), requestKey, symbol, WritableStore(old(nextSerial)))
    {
      hide Valid;
      ghost var m0, serial0 := scopedMap, nextSerial;
      RequestStores(requestKey);
      ghost var m1 := scopedMap;
      assert OnlyRequestGrew(m0, m1, requestKey);
      hide OnlyRequestGrew;
      if symbol in scopedMap[requestKey] {
        return scopedMap[requestKey][symbol];
      }
      match definitions[symbol] {
        case ScopedDefinition =>
          store := WritableStore(nextSerial);
        case DerivedDefinition(dependencies) =>
          var sources := ResolveDependencies(requestKey, symbol, dependencies);
          store := DerivedStore(nextSerial, sources);
      }
      assert symbol !in scopedMap[requestKey];
      ghost var m2 := scopedMap;
      GrewTransitive(m0, m1, m2, requestKey);
      ghost var requestStores := if requestKey in m0 then m0[requestKey] else map[];
      ghost var scoped := definitions[symbol].ScopedDefinition?;
      assert scoped ==> m2 == m0[requestKey := requestStores];
      AddEntry(requestKey, symbol, store);
      assert scopedMap == m2[requestKey := m2[requestKey][symbol := store]];
      GrewByAdding(m2, requestKey, symbol, store);
      GrewTransitive(m0, m2, scopedMap, requestKey);
      assert scoped ==> scopedMap == m0[requestKey := requestStores[symbol := store]] && store == WritableStore(serial0);
    }

    /** `scopedMap.get(requestKey)`, set to a new empty map when missing. */
    method RequestStores(requestKey: StoreKey)
      requires Valid()
      modifies this
      ensures Valid() && definitions == old(definitions) && nextSymbol == old(nextSymbol) && nextSerial == old(nextSerial)
      ensures scopedMap == if requestKey in old(scopedMap) then old(scopedMap) else old(scopedMap)[requestKey := map[]]
    {
      if requestKey !in scopedMap {
        scopedMap := scopedMap[requestKey := map[]];
        forall k, s | k in scopedMap && s in scopedMap[k]
          ensures EntryCoherent(k, s)
        {
          assert old(EntryCoherent(k, s));
        }
      }
    }

    /** Stores a new entry of the symbol's kind, made after everything stored so far. */
    method AddEntry(requestKey: StoreKey, symbol: StoreSymbol, store: Store)
      requires Valid() && symbol in definitions && requestKey in scopedMap && symbol !in scopedMap[requestKey]
      requires store.serial == nextSerial
      requires store.WritableStore? <==> definitions[symbol].ScopedDefinition?
      requires store.DerivedStore? ==>
        var deps := definitions[symbol].dependencies;
        |store.sources| == |deps| &&
        forall i | 0 <= i < |deps| :: deps[i] in scopedMap[requestKey] && store.sources[i] == scopedMap[requestKey][deps[i]]
      modifies this
      ensures Valid() && definitions == old(definitions) && nextSymbol == old(nextSymbol)
      ensures scopedMap == old(scopedMap)[requestKey := old(scopedMap)[requestKey][symbol := store]]
      ensures nextSerial == old(nextSerial) + 1
    {
      nextSerial := nextSerial + 1;
      scopedMap := scopedMap[requestKey := scopedMap[requestKey][symbol := store]];
      forall k, s | k in scopedMap && s in scopedMap[k]
        ensures EntryCoherent(k, s)
      {
        if k == requestKey && s == symbol {
        } else {
          assert old(EntryCoherent(k, s));
          assert k in old(scopedMap) && s in old(scopedMap)[k];
          if scopedMap[k][s].DerivedStore? {
            var deps := definitions[s].dependencies;
            forall i | 0 <= i < |deps|
              ensures deps[i] in scopedMap[k] && scopedMap[k][s].sources[i] == scopedMap[k][deps[i]]
            {
              assert deps[i] in old(scopedMap)[k];
            }
          }
        }
      }
    }

    /** `stores.map(s => s(session))`: each dependency read under the same request key, in order. */
    method ResolveDependencies(requestKey: StoreKey, symbol: StoreSymbol, dependencies: seq<StoreSymbol>)
      returns (sources: seq<Store>)
      requires Valid() && symbol in definitions && definitions[symbol] == DerivedDefinition(dependencies)
      requires requestKey in scopedMap
      modifies this
      decreases symbol.id, 0
      ensures Valid() && definitions == old(definitions) && nextSymbol == old(nextSymbol)
      ensures OnlyRequestGrew(old(scopedMap), scopedMap, requestKey)
      ensures |sources| == |dependencies|
      ensures forall i | 0 <= i < |dependencies| ::
        dependencies[i] in scopedMap[requestKey] && sources[i] == scopedMap[requestKey][dependencies[i]]
      ensures forall s | s in scopedMap[requestKey] :: s in old(scopedMap)[requestKey] || s.id < symbol.id
      ensures nextSerial >= old(nextSerial)
    {
      sources := [];
      for i := 0 to |dependencies|
        invariant Valid() && definitions == old(definitions) && nextSymbol == old(nextSymbol)
        invariant OnlyRequestGrew(old(scopedMap), scopedMap, requestKey)
        invariant |sources| == i
        invariant forall j | 0 <= j < i ::
          dependencies[j] in scopedMap[requestKey] && sources[j] == scopedMap[requestKey][dependencies[j]]
        invariant forall s | s in scopedMap[requestKey] :: s in old(scopedMap)[requestKey] || s.id < symbol.id
        invariant nextSerial >= old(nextSerial)
      {
        assert dependencies[i] in definitions[symbol].dependencies;
        var source := GetOrCreateStore(requestKey, dependencies[i]);
        sources := sources + [source];
      }
    }

    /**
     * The function scopedStore and derivedScopeStore return, applied to a session: the store of
     * the symbol in the session's request scope, found or created.
     */
    method ReadStore(session: Option<Session>, browser: bool, symbol: StoreSymbol) returns (r: Result<Store, ScopeError>)
      requires Valid() && symbol in definitions
      modifies this
      ensures Valid() && definitions == old(definitions)
      ensures r.Failure? <==> GetRequestScope(session, browser).Failure?
      ensures r.Failure? ==> scopedMap == old(scopedMap)
      ensures r.Success? ==>
        var requestKey := GetRequestScope(session, browser).value;
        requestKey in scopedMap && symbol in scopedMap[requestKey] && scopedMap[requestKey][symbol] == r.value &&
        OnlyRequestGrew(old(scopedMap), scopedMap, requestKey) &&
        (requestKey in old(scopedMap) && symbol in old(scopedMap)[requestKey] ==>
           scopedMap == old(scopedMap) && r.value == old(scopedMap)[requestKey][symbol])
    {
      var requestKey := GetRequestScope(session, browser);
      if requestKey.Failure? {
        return Failure(requestKey.error);
      }
      var store := GetOrCreateStore(requestKey.value, symbol);
      r := Success(store);
    }
  }
}
