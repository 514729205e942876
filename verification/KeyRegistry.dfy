/**
 * The registry as a state machine: the forward store, the derived reverse index, and the
 * four ways they change.  Iteration over the store's hash table comes in an order the
 * event carries, so every order is covered.
 */
module KeyRegistry {
  import opened BigEndian
  import opened KeyNames
  import opened TwoWayIndex

  datatype Key = Key(bytes: seq<byte>)

  datatype RegisterResult = Ok | NameTaken | CapacityFull | BadName

  datatype Tables = Tables(store: map<Key, Name>, byName: map<Name, Key>)

  datatype Event =
    | Register(key: Key, name: Name)
    | Clear(key: Key)
    | Sweep(dead: set<Key>, order: seq<Key>)
    | Reload(order: seq<Key>)

  // ---- The operations ----

  predicate Unnamed(store: map<Key, Name>, key: Key)
  {
    key !in store || store[key] == Blank
  }

  function Judge(t: Tables, key: Key, norm: Name, cap: nat): RegisterResult
  {
    if !IsValid(norm) then BadName
    else if norm in t.byName && t.byName[norm] != key then NameTaken
    else if Unnamed(t.store, key) && cap != 0 && |t.store| >= cap then CapacityFull
    else Ok
  }

  function Released(t: Tables, key: Key): map<Name, Key>
  {
    if Unnamed(t.store, key) then t.byName else t.byName - {Normal(t.store[key])}
  }

  function DoRegister(t: Tables, key: Key, name: Name, cap: nat): Tables
  {
    var norm := Normal(name);
    if Judge(t, key, norm, cap) != Ok then t
    else Tables(t.store[key := norm], Released(t, key)[norm := key])
  }

  function DoClear(t: Tables, key: Key): Tables
  {
    if Unnamed(t.store, key) then t else Tables(t.store - {key}, Released(t, key))
  }

  function Emplace(m: map<Name, Key>, n: Name, key: Key): map<Name, Key>
  {
    if n in m then m else m[n := key]
  }

  /** The reverse index that iteration in this order builds; the first key of a name wins. */
  function Rebuild(store: map<Key, Name>, order: seq<Key>): map<Name, Key>
  {
    if order == [] then map[]
    else
      var done, key := Rebuild(store, order[..|order| - 1]), order[|order| - 1];
      if Unnamed(store, key) then done else Emplace(done, Normal(store[key]), key)
  }

  function Elements(order: seq<Key>): set<Key>
  {
    if order == [] then {} else Elements(order[..|order| - 1]) + {order[|order| - 1]}
  }

  predicate Enumerates(order: seq<Key>, keys: set<Key>)
  {
    Elements(order) == keys
  }

  lemma {:induction false} ElementsIn(order: seq<Key>)
    ensures forall k :: k in Elements(order) <==> k in order
  {
    if order != [] {
      ElementsIn(order[..|order| - 1]);
      assert order == order[..|order| - 1] + [order[|order| - 1]];
    }
  }

  /** Iteration visits exactly the keys of the store that is scanned. */
  ghost predicate Possible(t: Tables, e: Event)
  {
    match e
    case Sweep(dead, order) => Enumerates(order, t.store.Keys - dead)
    case Reload(order) => Enumerates(order, t.store.Keys)
    case _ => true
  }

  function Step(t: Tables, e: Event, cap: nat): Tables
  {
    match e
    case Register(key, name) => DoRegister(t, key, name, cap)
    case Clear(key) => DoClear(t, key)
    case Sweep(dead, order) =>
      var left := t.store - dead;
      Tables(left, if left == t.store then t.byName else Rebuild(left, order))
    case Reload(order) => Tables(t.store, Rebuild(t.store, order))
  }

  // ---- What every run keeps ----

  /** Stored names are valid fixed points of `Normal`. */
  ghost predicate Canon(store: map<Key, Name>)
  {
    forall k :: k in store ==> Proper(store[k])
  }

  predicate Proper(name: Name)
  {
    Normal(name) == name && IsValid(name) && name != Blank
  }

  ghost predicate Inv(t: Tables, cap: nat)
  {
    Canon(t.store) && Inverse(t.store, t.byName) && (cap != 0 ==> |t.store| <= cap)
  }

  lemma ProperNormal(name: Name)
    requires IsValid(Normal(name))
    ensures Proper(Normal(name))
  {
    Idempotent(name);
    assert TextOf(Blank) == [];
  }

  /** On proper names the bookkeeping is that of a plain map and its inverse. */
  lemma ReleasedPlain(t: Tables, key: Key)
    requires Canon(t.store)
    ensures Released(t, key) == Release(t.store, t.byName, key) && (Unnamed(t.store, key) <==> key !in t.store)
  {
    if key in t.store { assert Proper(t.store[key]); }
  }

  lemma {:induction false} RebuildIsScan(store: map<Key, Name>, order: seq<Key>)
    requires Canon(store) && forall k :: k in order ==> k in store
    ensures Rebuild(store, order) == Scan(store, order)
  {
    if order != [] {
      RebuildIsScan(store, order[..|order| - 1]);
      assert Proper(store[order[|order| - 1]]);
    }
  }

  /** Rebuilding, in any iteration order, gives the index that was kept step by step. */
  lemma RebuildIsIncremental(t: Tables, order: seq<Key>)
    requires Canon(t.store) && Inverse(t.store, t.byName) && Enumerates(order, t.store.Keys)
    ensures Rebuild(t.store, order) == t.byName
  {
    InverseInjective(t.store, t.byName);
    RebuildInverts(t.store, order);
    Unique(t.store, Rebuild(t.store, order), t.byName);
  }

  lemma RebuildInverts(store: map<Key, Name>, order: seq<Key>)
    requires Canon(store) && Injective(store) && Enumerates(order, store.Keys)
    ensures Inverse(store, Rebuild(store, order))
  {
    ElementsIn(order);
    RebuildIsScan(store, order);
    ScanIsInverse(store, order);
  }

  lemma RegisterKeeps(t: Tables, key: Key, name: Name, cap: nat)
    requires Inv(t, cap)
    ensures Inv(DoRegister(t, key, name, cap), cap)
  {
    var norm := Normal(name);
    if Judge(t, key, norm, cap) == Ok {
      ProperNormal(name);
      ReleasedPlain(t, key);
      SetKeeps(t.store, t.byName, key, norm);
      CanonSet(t.store, key, norm);
      SizeSet(t.store, key, norm);
    }
  }

  lemma CanonSet(store: map<Key, Name>, key: Key, norm: Name)
    requires Canon(store) && Proper(norm)
    ensures Canon(store[key := norm])
  {
  }

  lemma SizeSet(store: map<Key, Name>, key: Key, norm: Name)
    ensures |store[key := norm]| == |store| + if key in store then 0 else 1
  {
    assert store[key := norm].Keys == store.Keys + {key};
  }

  lemma SizeBelow(store: map<Key, Name>, dead: set<Key>)
    ensures |store - dead| <= |store| && (store - dead).Keys == store.Keys - dead
  {
    assert (store - dead).Keys == store.Keys - dead;
    assert store.Keys == (store.Keys - dead) + (store.Keys * dead);
  }

  lemma ClearKeeps(t: Tables, key: Key, cap: nat)
    requires Inv(t, cap)
    ensures Inv(DoClear(t, key), cap)
  {
    ReleasedPlain(t, key);
    RemoveKeeps(t.store, t.byName, key);
    SizeBelow(t.store, {key});
  }

  /** A sweep that finds nobody to drop changes nothing. */
  lemma NothingSwept(t: Tables, dead: set<Key>, order: seq<Key>, cap: nat)
    requires t.store - dead == t.store
    ensures Step(t, Sweep(dead, order), cap) == t
  {
  }

  lemma SomeSwept(t: Tables, dead: set<Key>, order: seq<Key>, cap: nat)
    requires t.store - dead != t.store
    ensures Step(t, Sweep(dead, order), cap) == Tables(t.store - dead, Rebuild(t.store - dead, order))
  {
  }

  lemma SweepKeeps(t: Tables, dead: set<Key>, order: seq<Key>, cap: nat)
    requires Inv(t, cap) && Enumerates(order, t.store.Keys - dead)
    ensures Inv(Step(t, Sweep(dead, order), cap), cap)
  {
    if t.store - dead == t.store {
      NothingSwept(t, dead, order, cap);
    } else {
      SomeSwept(t, dead, order, cap);
      SizeBelow(t.store, dead);
      SweptInverts(t, dead, order);
    }
  }

  lemma SweptInverts(t: Tables, dead: set<Key>, order: seq<Key>)
    requires Canon(t.store) && Inverse(t.store, t.byName) && Enumerates(order, t.store.Keys - dead)
    ensures Canon(t.store - dead) && Inverse(t.store - dead, Rebuild(t.store - dead, order))
  {
    StoreBelow(t, dead, 0);
    SizeBelow(t.store, dead);
    RebuildInverts(t.store - dead, order);
  }

  /** What is left of the store is proper and within the cap. */
  lemma StoreBelow(t: Tables, dead: set<Key>, cap: nat)
    requires Inv(t, cap)
    ensures Canon(t.store - dead) && Injective(t.store - dead) && (cap != 0 ==> |t.store - dead| <= cap)
  {
    InverseInjective(t.store, t.byName);
    InjectiveBelow(t.store, dead);
    SizeBelow(t.store, dead);
    CanonBelow(t.store, dead);
  }

  lemma CanonBelow(store: map<Key, Name>, dead: set<Key>)
    requires Canon(store)
    ensures Canon(store - dead)
  {
  }

  lemma StepKeeps(t: Tables, e: Event, cap: nat)
    requires Inv(t, cap) && Possible(t, e)
    ensures Inv(Step(t, e, cap), cap)
  {
    match e
    case Register(key, name) => RegisterKeeps(t, key, name, cap);
    case Clear(key) => ClearKeeps(t, key, cap);
    case Sweep(dead, order) => SweepKeeps(t, dead, order, cap);
    case Reload(order) => RebuildIsIncremental(t, order);
  }

  ghost predicate IsRun(events: seq<Event>, cap: nat, t: Tables)
  {
    if events == [] then t == Tables(map[], map[])
    else
      var past, e := events[..|events| - 1], events[|events| - 1];
      exists prior :: IsRun(past, cap, prior) && Leads(prior, e, cap, t)
  }

  ghost predicate Leads(a: Tables, e: Event, cap: nat, b: Tables)
  {
    Possible(a, e) && b == Step(a, e, cap)
  }

  lemma {:induction false} RunKeeps(events: seq<Event>, cap: nat, t: Tables)
    requires IsRun(events, cap, t)
    ensures Inv(t, cap)
  {
    if events != [] {
      var past, e := events[..|events| - 1], events[|events| - 1];
      var prior :| IsRun(past, cap, prior) && Leads(prior, e, cap, t);
      RunKeeps(past, cap, prior);
      StepKeeps(prior, e, cap);
    }
  }

  // ---- What the lookups see ----

  datatype Found<T> = Miss | Hit(value: T)

  function NameForKey(t: Tables, key: Key): Found<Name>
  {
    if Unnamed(t.store, key) then Miss else Hit(t.store[key])
  }

  function KeyForName(t: Tables, name: Name): Found<Key>
  {
    if name in t.byName then Hit(t.byName[name]) else Miss
  }

  /** One key per name and one name per key: each lookup undoes the other. */
  lemma LookupsAgree(events: seq<Event>, cap: nat, t: Tables, key: Key, name: Name)
    requires IsRun(events, cap, t)
    ensures NameForKey(t, key) == Hit(name) <==> KeyForName(t, name) == Hit(key)
  {
    RunKeeps(events, cap, t);
    if key in t.store { assert Proper(t.store[key]); }
  }

  ghost predicate HeldByAnother(t: Tables, key: Key, norm: Name)
  {
    exists other :: other != key && NameForKey(t, other) == Hit(norm)
  }

  lemma TakenMeansHeld(events: seq<Event>, cap: nat, t: Tables, key: Key, norm: Name)
    requires IsRun(events, cap, t)
    ensures norm in t.byName && t.byName[norm] != key <==> HeldByAnother(t, key, norm)
  {
    if norm in t.byName && t.byName[norm] != key {
      LookupsAgree(events, cap, t, t.byName[norm], norm);
      assert NameForKey(t, t.byName[norm]) == Hit(norm);
    }
    forall other | other != key && NameForKey(t, other) == Hit(norm)
      ensures norm in t.byName && t.byName[norm] != key
    {
      LookupsAgree(events, cap, t, other, norm);
    }
  }

  /** Why a registration is refused, in terms of who holds what. */
  lemma RegisterVerdict(events: seq<Event>, cap: nat, t: Tables, key: Key, norm: Name)
    requires IsRun(events, cap, t)
    ensures Judge(t, key, norm, cap) ==
      if !IsValid(norm) then BadName
      else if HeldByAnother(t, key, norm) then NameTaken
      else if NameForKey(t, key) == Miss && |t.store| == cap != 0 then CapacityFull
      else Ok
  {
    RunKeeps(events, cap, t);
    TakenMeansHeld(events, cap, t, key, norm);
  }

  /**
   * After an accepted registration every spelling of the name finds the key, the old name
   * of the key is free, and no other lookup changed.
   */
  lemma RegisteredIsFound(events: seq<Event>, cap: nat, t: Tables, key: Key, name: Name, asked: Name)
    requires IsRun(events, cap, t) && Judge(t, key, Normal(name), cap) == Ok
    ensures var u := DoRegister(t, key, name, cap);
      && NameForKey(u, key) == Hit(Normal(name))
      && KeyForName(u, Normal(asked))
         == (if Normal(asked) == Normal(name) then Hit(key)
             else if KeyForName(t, Normal(asked)) == Hit(key) then Miss
             else KeyForName(t, Normal(asked)))
  {
    RunKeeps(events, cap, t);
    ProperNormal(name);
    ReleasedPlain(t, key);
    ReleaseFrees(t.store, t.byName, key, Normal(asked));
  }

  lemma ReleaseFrees(store: map<Key, Name>, byName: map<Name, Key>, key: Key, n: Name)
    requires Inverse(store, byName)
    ensures n in Release(store, byName, key) <==> n in byName && byName[n] != key
    ensures n in Release(store, byName, key) ==> Release(store, byName, key)[n] == byName[n]
  {
  }

  /** Clearing undoes it: the key has no name and the name no key, and nothing else moved. */
  lemma ClearedIsGone(events: seq<Event>, cap: nat, t: Tables, key: Key, asked: Name)
    requires IsRun(events, cap, t)
    ensures var u := DoClear(t, key);
      && NameForKey(u, key) == Miss
      && KeyForName(u, asked) == (if KeyForName(t, asked) == Hit(key) then Miss else KeyForName(t, asked))
  {
    RunKeeps(events, cap, t);
    ReleasedPlain(t, key);
    ReleaseFrees(t.store, t.byName, key, asked);
  }

  /**
   * The reverse lookup takes its argument as it stands.  It answers as if it had normalised
   * it exactly when the argument is in normal form or its normal form is not registered.
   */
  lemma VerbatimLookup(events: seq<Event>, cap: nat, t: Tables, name: Name)
    requires IsRun(events, cap, t)
    ensures KeyForName(t, name) == KeyForName(t, Normal(name))
            <==> IsNormal(name) || KeyForName(t, Normal(name)) == Miss
  {
    RunKeeps(events, cap, t);
    FixedPoints(name);
    if name in t.byName {
      assert Proper(t.store[t.byName[name]]);
    }
  }

  lemma RebuildSnoc(store: map<Key, Name>, order: seq<Key>, key: Key)
    ensures Rebuild(store, order + [key])
            == var done := Rebuild(store, order);
               if Unnamed(store, key) then done else Emplace(done, Normal(store[key]), key)
  {
    assert (order + [key])[..|order|] == order;
  }

  const Spaced: Text := [0x61, SPACE, 0x62]
  const Flat: Text := [0x61, UNDERSCORE, 0x62]

  lemma SpacedNormal()
    ensures Normal(Padded(Spaced)) == Padded(Flat) != Padded(Spaced)
  {
    TextOfPadded(Spaced, 29);
    assert JoinWords(Spaced) == Flat;
    assert Lead(Flat, 0) == 0 && Trail(Flat, 0, 3) == 3;
    assert Padded(Flat)[1] != Padded(Spaced)[1];
  }

  lemma FlatValid()
    ensures IsValid(Padded(Flat))
  {
    TextOfPadded(Flat, 29);
  }

  /** "a b" is registered as "a_b"; the verbatim lookup of "a b" then misses. */
  lemma SpaceMisses(key: Key)
    ensures var t := DoRegister(Tables(map[], map[]), key, Padded(Spaced), 0);
      KeyForName(t, Padded(Spaced)) == Miss && KeyForName(t, Normal(Padded(Spaced))) == Hit(key)
  {
    SpacedNormal();
    FlatValid();
  }

  /** `maxKeyName` is the server's setting, the same on every call; 0 means no cap. */
  class KeyNameTable {
    const maxKeyName: nat
    var store: map<Key, Name>
    var byName: map<Name, Key>

    ghost function View(): Tables
      reads this
    {
      Tables(store, byName)
    }

    /** Both maps say the same, every name is proper and held once, and the cap holds. */
    ghost predicate Valid()
      reads this
    {
      Inv(View(), maxKeyName)
    }

    /** Loading: the forward store is read back, the reverse index derived from it. */
    constructor (loaded: map<Key, Name>, cap: nat)
      ensures store == loaded && maxKeyName == cap
      ensures exists order :: Enumerates(order, loaded.Keys) && byName == Rebuild(loaded, order)
      ensures Canon(loaded) && Injective(loaded) && (cap != 0 ==> |loaded| <= cap) ==> Valid()
    {
      maxKeyName := cap;
      store := loaded;
      byName := map[];
      new;
      RebuildReverse();
    }

    /** In any iteration order; of a proper store it gives the inverse, whatever the index was before. */
    method RebuildReverse()
      modifies this`byName
      ensures exists order :: Enumerates(order, store.Keys) && byName == Rebuild(store, order)
      ensures Canon(store) && Injective(store) ==> Inverse(store, byName)
    {
      byName := map[];
      var left := store.Keys;
      ghost var order: seq<Key> := [];
      while left != {}
        invariant byName == Rebuild(store, order)
        invariant left <= store.Keys && Enumerates(order, store.Keys - left)
        decreases left
      {
        var key :| key in left;
        RebuildSnoc(store, order, key);
        IndexOne(key);
        assert (order + [key])[..|order|] == order;
        assert store.Keys - (left - {key}) == store.Keys - left + {key};
        order, left := order + [key], left - {key};
      }
      assert store.Keys - {} == store.Keys;
      if Canon(store) && Injective(store) { RebuildInverts(store, order); }
    }

    method IndexOne(key: Key)
      requires key in store
      modifies this`byName
      ensures byName == if Unnamed(store, key) then old(byName) else Emplace(old(byName), Normal(store[key]), key)
    {
      if store[key] != Blank {
        var norm := Normalize(store[key]);
        if norm !in byName { byName := byName[norm := key]; }
      }
    }

    /** Once accepted, the key and the normal form of the name find each other. */
    method RegisterName(key: Key, name: Name) returns (res: RegisterResult)
      requires Valid()
      modifies this
      ensures Valid() && View() == Step(old(View()), Register(key, name), maxKeyName)
      ensures res == Judge(old(View()), key, Normal(name), maxKeyName)
      ensures res == Ok ==> NameForKey(View(), key) == Hit(Normal(name)) && KeyForName(View(), Normal(name)) == Hit(key)
    {
      RegisterKeeps(View(), key, name, maxKeyName);
      res := DoRegisterName(key, name);
      if res == Ok { ProperNormal(name); }
    }

    method DoRegisterName(key: Key, name: Name) returns (res: RegisterResult)
      modifies this
      ensures View() == DoRegister(old(View()), key, name, maxKeyName)
      ensures res == Judge(old(View()), key, Normal(name), maxKeyName)
    {
      var norm := Normalize(name);
      var ok := ValidName(norm);
      if !ok { return BadName; }
      if norm in byName && byName[norm] != key { return NameTaken; }
      var isNew := key !in store || store[key] == Blank;
      if isNew && maxKeyName != 0 && |store| >= maxKeyName { return CapacityFull; }
      if key in store && store[key] != Blank {
        var held := Normalize(store[key]);
        byName := byName - {held};
      }
      store := store[key := norm];
      byName := byName[norm := key];
      res := Ok;
    }

    /** True exactly when there was a name; either way the key has none left. */
    method ClearName(key: Key) returns (ok: bool)
      requires Valid()
      modifies this
      ensures Valid() && View() == Step(old(View()), Clear(key), maxKeyName)
      ensures ok == (NameForKey(old(View()), key) != Miss) && NameForKey(View(), key) == Miss
    {
      ClearKeeps(View(), key, maxKeyName);
      if key !in store || store[key] == Blank { return false; }
      var held := Normalize(store[key]);
      byName := byName - {held};
      store := store - {key};
      ok := true;
    }

    /** The daily sweep: entries are erased from the store directly, then the index is rebuilt. */
    method Reclaim(dead: set<Key>)
      requires Valid()
      modifies this
      ensures Valid() && store == old(store) - dead
    {
      StoreBelow(View(), dead, maxKeyName);
      var kept := store - dead;
      if kept != store {
        store := kept;
        RebuildReverse();
      }
    }
  }
}
