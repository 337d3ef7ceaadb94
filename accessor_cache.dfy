/**
 * `AccessorCache<T>`: the per-model-type store of compiled accessors and
 * their display names, keyed by member descriptor.
 */
module Caching {
  import opened Wrappers
  import opened Expressions
  import opened DisplayNames

  /** A compiled accessor delegate. Delegates are compared by identity: the
      compiler gives each one it produces a fresh `id`. */
  datatype Accessor = Accessor(id: nat, source: Lambda)

  /** The host's expression compiler (`Expression.Compile`), reduced to what
      the cache observes of it: every compilation yields a new delegate. */
  class Compiler {
    var issued: nat

    constructor ()
      ensures issued == 0
    {
      issued := 0;
    }

    method Compile(expr: Lambda) returns (a: Accessor)
      modifies this
      ensures a == Accessor(old(issued), expr)
      ensures issued == old(issued) + 1
    {
      a := Accessor(issued, expr);
      issued := issued + 1;
    }
  }

  /** A cache entry: the compiled accessor and the display name kept with it
      (absent when names were not being cached or no name was resolved). */
  datatype Entry = Entry(accessor: Accessor, displayName: Option<string>)

  type Store = map<MemberDescriptor, Entry>

  /** What one lookup returns, and the state of the store, the policy and
      the compiler after it. */
  datatype Outcome = Outcome(
    accessor: Accessor,
    displayName: Option<string>,
    store: Store,
    options: Options,
    issued: nat)

  /** Every stored accessor was compiled before: its id is below the
      compiler's counter. */
  predicate StoreValid(store: Store, issued: nat) {
    forall k :: k in store ==> store[k].accessor.id < issued
  }

  /** The specification of `GetCachedAccessor(member, expr, out name)` for the
      cache of `modelType`. A known member is a hit and answers from its
      entry. Otherwise the expression is compiled; the name comes from the
      resolver unless names are not being cached, in which case it is absent
      and the resolver is not invoked; and the new entry is stored under the
      member when there is one. */
  function Lookup(store: Store, options: Options, issued: nat, modelType: TypeName,
                  member: Option<MemberDescriptor>, expr: Lambda): (r: Outcome)
    ensures forall k :: k in store ==> k in r.store && r.store[k] == store[k]
    ensures forall k :: k in r.store ==> k in store || member == Some(k)
    ensures member.Some? ==> member.value in r.store
                             && r.store[member.value] == Entry(r.accessor, r.displayName)
  {
    if member.Some? && member.value in store then
      var entry := store[member.value];
      Outcome(entry.accessor, entry.displayName, store, options, issued)
    else
      var accessor := Accessor(issued, expr);
      var name := if options.disableDisplayNameCache then None
                  else ResolvedName(options, modelType, member, expr);
      var options' := if options.disableDisplayNameCache then options else AfterResolving(options);
      var store' := if member.Some? then store[member.value := Entry(accessor, name)] else store;
      Outcome(accessor, name, store', options', issued + 1)
  }

  /** A lookup keeps the store valid, and a miss hands out an accessor that
      differs from every accessor stored before it. */
  lemma LookupKeepsStoreValid(store: Store, options: Options, issued: nat, t: TypeName,
                              member: Option<MemberDescriptor>, expr: Lambda)
    requires StoreValid(store, issued)
    ensures var r := Lookup(store, options, issued, t, member, expr);
            StoreValid(r.store, r.issued)
            && (r.issued != issued ==> forall k :: k in store ==> store[k].accessor != r.accessor)
  {
  }

  /** Identity on repeat lookup: once a member has been looked up, looking it
      up again, with any expression, returns the identical accessor and name,
      and neither compiles nor invokes the resolver. The key is the member,
      not the expression. */
  lemma RepeatLookupHits(store: Store, options: Options, issued: nat, t: TypeName,
                         member: MemberDescriptor, expr1: Lambda, expr2: Lambda)
    ensures var r1 := Lookup(store, options, issued, t, Some(member), expr1);
            var r2 := Lookup(r1.store, r1.options, r1.issued, t, Some(member), expr2);
            r2.accessor == r1.accessor && r2.displayName == r1.displayName
            && r2.store == r1.store && r2.options == r1.options && r2.issued == r1.issued
  {
  }

  /** A lookup is a miss exactly when the member is absent or not yet stored,
      and a miss compiles the given expression into a fresh accessor. */
  lemma MissCompiles(store: Store, options: Options, issued: nat, t: TypeName,
                     member: Option<MemberDescriptor>, expr: Lambda)
    ensures var r := Lookup(store, options, issued, t, member, expr);
            (r.issued == issued + 1 <==> member.None? || member.value !in store)
            && (r.issued == issued + 1 ==> r.accessor == Accessor(issued, expr))
            && (r.issued == issued ==> r.accessor == store[member.value].accessor)
  {
  }

  /** Without a member there is nothing to key on: nothing is stored and two
      lookups hand out two different accessors. */
  lemma AbsentMemberNeverCached(store: Store, options: Options, issued: nat, t: TypeName, expr: Lambda)
    ensures var r1 := Lookup(store, options, issued, t, None, expr);
            var r2 := Lookup(r1.store, r1.options, r1.issued, t, None, expr);
            r1.store == store && r2.store == store && r1.accessor != r2.accessor
  {
  }

  /** While names are not cached, a miss returns no name and leaves the
      resolver untouched, whatever the resolver would have answered. */
  lemma NoNameWhileCacheDisabled(store: Store, options: Options, issued: nat, t: TypeName,
                                 member: Option<MemberDescriptor>, expr: Lambda)
    requires options.disableDisplayNameCache
    requires member.None? || member.value !in store
    ensures var r := Lookup(store, options, issued, t, member, expr);
            r.displayName == None && r.options == options
  {
  }

  /** Installing a resolver and doing nothing else means a miss yields no
      name, even from a counting resolver that always has an answer. */
  lemma InstalledResolverYieldsNoName(store: Store, options: Options, issued: nat, t: TypeName,
                                      member: MemberDescriptor, expr: Lambda, prefix: string, count: nat)
    requires member !in store
    ensures ResolvedName(WithResolver(options, Some(Counting(prefix, count))), t, Some(member), expr).Some?
    ensures Lookup(store, WithResolver(options, Some(Counting(prefix, count))), issued, t, Some(member), expr).displayName == None
  {
    NoNameWhileCacheDisabled(store, WithResolver(options, Some(Counting(prefix, count))), issued, t, Some(member), expr);
  }

  /** Name frozen after the first miss: with a counting resolver and name
      caching on, the first lookup of a member takes the resolver's current
      output, later lookups return that same name, and they do so although
      the resolver would now answer differently. */
  lemma NameFrozenAfterFirstMiss(store: Store, issued: nat, t: TypeName, member: MemberDescriptor,
                                 expr1: Lambda, expr2: Lambda, prefix: string, count: nat)
    requires member !in store
    ensures var o := Options(Some(Counting(prefix, count)), false);
            var r1 := Lookup(store, o, issued, t, Some(member), expr1);
            var r2 := Lookup(r1.store, r1.options, r1.issued, t, Some(member), expr2);
            r1.displayName == Some(prefix + DecimalString(count))
            && r2.displayName == r1.displayName
            && ResolvedName(r2.options, t, Some(member), expr2) != r2.displayName
  {
    var o := Options(Some(Counting(prefix, count)), false);
    var r1 := Lookup(store, o, issued, t, Some(member), expr1);
    RepeatLookupHits(store, o, issued, t, member, expr1, expr2);
    assert r1.options.resolver == Some(Counting(prefix, count + 1));
    CountingNeverRepeats(prefix, count + 1, count, t, Some(member), expr2);
  }

  /** After the store is emptied, a lookup of a member that was cached before
      is a miss again: it hands out an accessor different from the one
      cached before, and a counting resolver is asked for a new name, which
      differs from the name cached before. */
  lemma ClearForcesRecompute(store: Store, options: Options, issued: nat, t: TypeName,
                             member: MemberDescriptor, expr: Lambda, prefix: string, count: nat, earlier: nat)
    requires StoreValid(store, issued) && member in store
    requires options == Options(Some(Counting(prefix, count)), false)
    requires earlier < count && store[member].displayName == Some(prefix + DecimalString(earlier))
    ensures var r := Lookup(map[], options, issued, t, Some(member), expr);
            r.issued == issued + 1
            && r.accessor != store[member].accessor
            && r.displayName != store[member].displayName
  {
    CountingNeverRepeats(prefix, count, earlier, t, Some(member), expr);
  }

  /** `AccessorCache<T>` for one model type `T`. Every accessor it stores
      was compiled by its own compiler, so a new compilation never yields an
      accessor already in the store. */
  class AccessorCache {
    const modelType: TypeName
    const compiler: Compiler
    var entries: Store

    ghost predicate Valid()
      reads this, compiler
    {
      StoreValid(entries, compiler.issued)
    }

    constructor (modelType: TypeName, compiler: Compiler)
      ensures this.modelType == modelType && this.compiler == compiler
      ensures entries == map[] && Valid()
    {
      this.modelType := modelType;
      this.compiler := compiler;
      entries := map[];
    }

    /** Empties the store; accessors already handed out are unaffected. */
    method Clear()
      requires Valid()
      modifies this
      ensures entries == map[] && Valid()
    {
      entries := map[];
    }

    /** `GetCachedAccessor(member, expr, out displayName)`. */
    method GetCachedAccessor(member: Option<MemberDescriptor>, expr: Lambda, options: ValidatorOptions)
      returns (accessor: Accessor, displayName: Option<string>)
      requires Valid()
      modifies this, options, compiler
      ensures Valid()
      ensures var r := Lookup(old(entries), old(options.Current()), old(compiler.issued), modelType, member, expr);
              accessor == r.accessor && displayName == r.displayName
              && entries == r.store && options.Current() == r.options && compiler.issued == r.issued
      ensures compiler.issued != old(compiler.issued) ==>
                forall k :: k in old(entries) ==> old(entries)[k].accessor != accessor
    {
      LookupKeepsStoreValid(entries, options.Current(), compiler.issued, modelType, member, expr);
      if member.Some? && member.value in entries {
        var entry := entries[member.value];
        return entry.accessor, entry.displayName;
      }
      accessor := compiler.Compile(expr);
      if options.disableDisplayNameCache {
        displayName := None;
      } else {
        displayName := options.ResolveDisplayName(modelType, member, expr);
      }
      if member.Some? {
        entries := entries[member.value := Entry(accessor, displayName)];
      }
    }
  }
}
