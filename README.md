# FluentValidation accessor cache, modelled in Dafny

FluentValidation builds validation rules from member references written as
lambdas (`RuleFor(x => x.Surname)`). Compiling such a lambda into a delegate
is costly. So the library keeps `AccessorCache<T>`, one store per model type
`T`, which maps a member descriptor to the compiled accessor. The store can
also keep a display name for that member, computed by the process-wide
`ValidatorOptions.DisplayNameResolver`. This model covers three parts:

- **Member extraction** (`Expressions`, file `expressions.dfy`). A lambda body
  is a closed datatype: a variable, a member access, a call, or a constant.
  `GetMember` returns the last member of a member-access chain that starts
  at the lambda's parameter. For any other shape it returns `None`.
- **Display-name policy** (`DisplayNames`, file `display_names.dfy`). The
  `ValidatorOptions` class holds the installed resolver and the
  `DisableDisplayNameCache` flag. Installing a resolver turns name caching
  off. Only an explicit `SetDisableDisplayNameCache(false)` turns it back
  on. A resolver is a value. `Counting(prefix, count)` is the stateful
  `(t, m, e) => prefix + count++` used by the tests, and it carries its own
  counter. `Table(names)` is a stateless resolver that has no opinion on
  members it does not list.
- **Accessor cache** (`Caching`, file `accessor_cache.dfy`). The `Compiler`
  class stands for `Expression.Compile`: each compilation returns an
  accessor with a new id, so delegate identity can be checked.
  `AccessorCache` holds the store as a `map` field. Its `GetCachedAccessor`
  method is proved against the pure function `Lookup`, and the lemmas
  beside `Lookup` state the cache's promises.

`accessor_cache_tests.dfy` (module `AccessorCacheTests`) replays each test
of the suite on the model. Each cache test starts from whatever state the
earlier tests left behind. It first empties the `Person` cache, as the
suite's constructor does.

Design decisions, where the tests leave a choice open:

- On a miss with a member, the entry is always stored. When name caching is
  off, the stored name is absent and the resolver is not invoked. Another
  reading is possible: a miss while name caching is off could return the
  resolver's name and store nothing. `AccessorCacheTests.cs:96` requires
  the name to be absent, so the model returns none. Storing the accessor
  whatever the flag is keeps `Gets_accessor` true in any test order. That
  matters because `Does_not_cache_display_name_with_custom_resolver` leaves
  the flag on.
- A hit returns the stored entry as it is, even if the policy has changed
  since. Cached names are not invalidated after the fact. Callers call
  `Clear` for that.
- With no member, the lambda is compiled on every call and nothing is
  stored. The name follows the same rule as a miss (resolver output, or
  absent while name caching is off).
- Removing the resolver (`SetDisplayNameResolver(None)`) leaves the flag
  as it is.
- A member descriptor is only the final member of a path, as
  `AccessorCacheTests.cs:44-49` compares it. So `x => x.Address.Line1` and
  `x => x.PreviousAddress.Line1` extract equal descriptors, and
  `ExtractedMembersEqual` proves equality exactly when the final members
  agree. The store is keyed by that descriptor alone, so the two lambdas
  share one cache entry (see "## Left out").
- Each cache compiles with one fixed `Compiler`, given when the cache is
  built, and every stored accessor was compiled by it. That is the
  invariant `AccessorCache.Valid()`.

## Model

| member | source | states |
|---|---|---|
| Expressions.GetMember | src/FluentValidation.Tests/AccessorCacheTests.cs:44-46 | whatever member is extracted is read off the lambda's own parameter through member accesses only |
| Expressions.ChainRootedAt | src/FluentValidation.Tests/AccessorCacheTests.cs:55-56 | a member-access chain acts on the model instance exactly when it starts at the lambda's parameter, not at a call, another variable or a constant |
| Expressions.GetMemberOfChain | src/FluentValidation.Tests/AccessorCacheTests.cs:55-65 | a non-empty member chain extracts to its last member when it starts at the parameter (nested chains included), and to nothing when it starts at a call on the parameter or anywhere else |
| Expressions.GetMemberOnlyOfChains | src/FluentValidation.Tests/AccessorCacheTests.cs:58-59 | conversely, an extracted member is always the last step of a non-empty member path applied to the parameter |
| Expressions.ExtractedMembersEqual | src/FluentValidation.Tests/AccessorCacheTests.cs:40-49 | two lambdas built separately, with any parameter names, extract equal descriptors if and only if their paths end in the same member |
| DisplayNames.ParseDecimalString | src/FluentValidation.Tests/AccessorCacheTests.cs:72 | the decimal rendering of the resolver's counter reads back as the counter |
| DisplayNames.DecimalStringInjective | src/FluentValidation.Tests/AccessorCacheTests.cs:72 | two counter values render the same if and only if they are equal |
| DisplayNames.CountingNeverRepeats | src/FluentValidation.Tests/AccessorCacheTests.cs:72 | the counting resolver `"foo" + count++` gives equal names at two counter values if and only if the values are equal |
| DisplayNames.ValidatorOptions.SetDisplayNameResolver | src/FluentValidation.Tests/AccessorCacheTests.cs:72-73 | installing a resolver puts it in force and turns name caching off; removing it leaves the flag unchanged |
| DisplayNames.ValidatorOptions.SetDisableDisplayNameCache | src/FluentValidation.Tests/AccessorCacheTests.cs:73 | sets the flag and leaves the installed resolver alone |
| DisplayNames.ValidatorOptions.ResolveDisplayName | src/FluentValidation.Tests/AccessorCacheTests.cs:72 | returns the installed resolver's answer, or none when no resolver is installed, and advances the resolver's counter |
| Caching.Compiler.Compile | src/FluentValidation.Tests/AccessorCacheTests.cs:25-28 | every compilation by a compiler returns a delegate whose identity that compiler never returned before |
| Caching.Lookup | src/FluentValidation.Tests/AccessorCacheTests.cs:30-31 | a lookup never replaces an existing entry, adds at most the looked-up member, and leaves that member's entry holding exactly the accessor and name it returned |
| Caching.LookupKeepsStoreValid | src/FluentValidation.Tests/AccessorCacheTests.cs:25-33 | every stored accessor was compiled earlier, so a miss hands out an accessor that differs from every stored one |
| Caching.MissCompiles | src/FluentValidation.Tests/AccessorCacheTests.cs:30-31 | a lookup compiles if and only if the member is absent or not yet stored; a miss compiles the given expression, and a hit returns the stored accessor |
| Caching.RepeatLookupHits | src/FluentValidation.Tests/AccessorCacheTests.cs:30-33 | a second lookup of the same member, with any expression, returns the identical accessor and name without compiling or resolving |
| Caching.AbsentMemberNeverCached | src/FluentValidation.Tests/AccessorCacheTests.cs:76 | when the extractor finds no member, nothing is stored and two lookups return two different accessors |
| Caching.NoNameWhileCacheDisabled | src/FluentValidation.Tests/AccessorCacheTests.cs:89-96 | while name caching is off, a miss returns no name and does not invoke the resolver |
| Caching.InstalledResolverYieldsNoName | src/FluentValidation.Tests/AccessorCacheTests.cs:92-96 | after a counting resolver is installed, a miss returns no name even though the resolver has one to give |
| Caching.NameFrozenAfterFirstMiss | src/FluentValidation.Tests/AccessorCacheTests.cs:71-79 | with a counting resolver and name caching on, the first lookup takes the resolver's current name and later lookups return that same name, although the resolver would now answer differently |
| Caching.ClearForcesRecompute | src/FluentValidation.Tests/AccessorCacheTests.cs:18 | after the store is emptied, a lookup of a previously cached member compiles a new accessor and gets a name from the counting resolver that differs from the cached one |
| Caching.AccessorCache.Clear | src/FluentValidation.Tests/AccessorCacheTests.cs:18 | empties the store and keeps the cache invariant |
| Caching.AccessorCache.GetCachedAccessor | src/FluentValidation.Tests/AccessorCacheTests.cs:30-31 | returns the accessor and name given by `Lookup`, leaves the store, the policy state and the cache's compiler as `Lookup` says, keeps every stored accessor compiled by the cache's own compiler, and on a miss returns an accessor different from every accessor stored before |
| AccessorCacheTests.GetsAccessor | src/FluentValidation.Tests/AccessorCacheTests.cs:22-34 | two compilations of `x => 1` differ; two cached lookups under `Id` with that body return the same accessor |
| AccessorCacheTests.EqualityComparisonCheck | src/FluentValidation.Tests/AccessorCacheTests.cs:38-50 | `x => x.Surname` and a separately built `y => y.Surname` extract equal descriptors; `x => x.Forename` extracts a different one |
| AccessorCacheTests.IdentifiesIfMemberExpActsOnModelInstance | src/FluentValidation.Tests/AccessorCacheTests.cs:53-60 | `x => DoStuffToPerson(x).Surname` extracts nothing; `x => x.Surname` extracts a member |
| AccessorCacheTests.GetsMemberForNestedProperty | src/FluentValidation.Tests/AccessorCacheTests.cs:63-66 | `x => x.Address.Line1` extracts a member |
| AccessorCacheTests.CachesDisplayName | src/FluentValidation.Tests/AccessorCacheTests.cs:69-86 | from any prior state, with the counting "foo" resolver installed and caching turned back on, both lookups return "foo0"; the resolver is then removed |
| AccessorCacheTests.DoesNotCacheDisplayNameWithCustomResolver | src/FluentValidation.Tests/AccessorCacheTests.cs:89-102 | from any prior state, installing the counting resolver alone makes the lookup return no name; the resolver is then removed |

## Left out

- Real expression compilation and reflection (`Expression.Compile`, `GetTypeInfo().GetProperty`) are host calls. A compiled accessor is an id plus the lambda it came from, and a member descriptor is a declaring-type and name pair with structural equality.
- Thread safety of the concurrent dictionary is not modelled. Calls are sequential, so redundant concurrent misses and races between `Clear` and lookups are not represented.
- Compilation failures and exceptions thrown by a resolver are not modelled. Both are failures passed to the caller, and the cache records nothing for them.
- Caching.RepeatLookupHits: two lambdas whose member paths end in the same member (`x => x.Address.Line1`, `x => x.PreviousAddress.Line1`) share one cached entry. The second lookup returns the accessor compiled from the first lambda, because the store is keyed by the final member only.
- The resolver's counter is an unbounded `nat`. The 32-bit wrap-around of the C# `int` after 2^31 invocations is not modelled.
- Unary conversion nodes, indexers and other expression kinds are not among the modelled shapes. Anything other than a variable, member access, call or constant is out of scope.
- `GetMember` on a constant body (`x => 1`) or an identity body (`x => x`) returns `None`, but no property is stated about it, because no test asserts a result.
- The model has no registry from types to caches. Each `AccessorCache` object is the cache of one model type, and the frames of its methods keep different caches independent.
- The `Bemchmark` timing test, the `BenchmarkValidator` rule definitions and `CacheTestModel` with its `[Display]` attribute are outside the cache. Attribute-based display names are not part of this model.
- The `try`/`finally` resets are modelled only as `SetDisplayNameResolver(None)`. They do not restore the caching flag.
