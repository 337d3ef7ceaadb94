/**
 * The accessor-cache test suite, replayed on the model. Each cache test
 * starts from whatever state earlier tests left behind and first empties the
 * `Person` cache, as the suite's constructor does.
 */
module AccessorCacheTests {
  import opened Wrappers
  import opened Expressions
  import opened DisplayNames
  import opened Caching

  const ID := MemberDescriptor("Person", "Id")
  const SURNAME := MemberDescriptor("Person", "Surname")
  const FORENAME := MemberDescriptor("Person", "Forename")
  const ADDRESS := MemberDescriptor("Person", "Address")
  const LINE1 := MemberDescriptor("Address", "Line1")

  /** `x => x.Surname` */
  const SURNAME_EXPR := Lambda("x", Access(Var("x"), SURNAME))

  /** Gets_accessor: two compilations of `x => 1` are different delegates;
      two cached lookups under `Id` (whose key is the member, not the
      unrelated body) are the same delegate. */
  method GetsAccessor(cache: AccessorCache, options: ValidatorOptions)
    returns (compiled1: Accessor, compiled2: Accessor, compiled3: Accessor, compiled4: Accessor)
    requires cache.Valid()
    modifies cache, options, cache.compiler
    ensures compiled1 != compiled2
    ensures compiled3 == compiled4
  {
    cache.Clear();
    var expr1 := Lambda("x", Const(1));
    compiled1 := cache.compiler.Compile(expr1);
    compiled2 := cache.compiler.Compile(expr1);
    var name;
    compiled3, name := cache.GetCachedAccessor(Some(ID), expr1, options);
    compiled4, name := cache.GetCachedAccessor(Some(ID), expr1, options);
  }

  /** Equality_comparison_check: separately built Surname lambdas (here with
      different parameter names) extract equal descriptors; `x => x.Forename`
      extracts another one. */
  lemma EqualityComparisonCheck()
    ensures GetMember(Lambda("x", Access(Var("x"), SURNAME)))
            == GetMember(Lambda("y", Access(Var("y"), SURNAME)))
    ensures GetMember(Lambda("x", Access(Var("x"), SURNAME)))
            != GetMember(Lambda("x", Access(Var("x"), FORENAME)))
  {
    assert Access(Var("x"), SURNAME) == Chain(Var("x"), [SURNAME]);
    assert Access(Var("y"), SURNAME) == Chain(Var("y"), [SURNAME]);
    assert Access(Var("x"), FORENAME) == Chain(Var("x"), [FORENAME]);
    ExtractedMembersEqual("x", [SURNAME], "y", [SURNAME]);
    ExtractedMembersEqual("x", [SURNAME], "x", [FORENAME]);
  }

  /** Identifies_if_memberexp_acts_on_model_instance: a member read off the
      result of a call on the parameter extracts to nothing; read directly
      off the parameter it extracts to a member. */
  lemma IdentifiesIfMemberExpActsOnModelInstance()
    ensures GetMember(Lambda("x", Access(Call("DoStuffToPerson", Var("x")), SURNAME))) == None
    ensures GetMember(Lambda("x", Access(Var("x"), SURNAME))) != None
  {
    assert Access(Call("DoStuffToPerson", Var("x")), SURNAME) == Chain(Call("DoStuffToPerson", Var("x")), [SURNAME]);
    GetMemberOfChain("x", Call("DoStuffToPerson", Var("x")), [SURNAME]);
    assert Access(Var("x"), SURNAME) == Chain(Var("x"), [SURNAME]);
    GetMemberOfChain("x", Var("x"), [SURNAME]);
  }

  /** Gets_member_for_nested_property: `x => x.Address.Line1` extracts to a
      member. */
  lemma GetsMemberForNestedProperty()
    ensures GetMember(Lambda("x", Access(Access(Var("x"), ADDRESS), LINE1))) != None
  {
    assert [ADDRESS, LINE1][..1] == [ADDRESS] && [ADDRESS][..0] == [];
    assert Chain(Var("x"), [ADDRESS]) == Access(Var("x"), ADDRESS);
    assert Access(Access(Var("x"), ADDRESS), LINE1) == Chain(Var("x"), [ADDRESS, LINE1]);
    GetMemberOfChain("x", Var("x"), [ADDRESS, LINE1]);
  }

  /** Caches_display_name: with a counting "foo" resolver installed and name
      caching switched back on, both lookups of `x => x.Surname` see "foo0".
      The `finally` block then uninstalls the resolver. */
  method CachesDisplayName(cache: AccessorCache, options: ValidatorOptions)
    returns (name1: Option<string>, name2: Option<string>)
    requires cache.Valid()
    modifies cache, options, cache.compiler
    ensures name1 == Some("foo0") && name2 == Some("foo0")
    ensures options.displayNameResolver == None
  {
    cache.Clear();
    options.SetDisplayNameResolver(Some(Counting("foo", 0)));
    options.SetDisableDisplayNameCache(false);
    var expr := SURNAME_EXPR;
    var accessor;
    accessor, name1 := cache.GetCachedAccessor(GetMember(expr), expr, options);
    assert "foo" + DecimalString(0) == "foo0";
    accessor, name2 := cache.GetCachedAccessor(GetMember(expr), expr, options);
    options.SetDisplayNameResolver(None);
  }

  /** Does_not_cache_display_name_with_custom_resolver: installing the
      counting resolver alone switches name caching off, so the lookup
      returns no name. The `finally` block then uninstalls the resolver. */
  method DoesNotCacheDisplayNameWithCustomResolver(cache: AccessorCache, options: ValidatorOptions)
    returns (name: Option<string>)
    requires cache.Valid()
    modifies cache, options, cache.compiler
    ensures name == None
    ensures options.displayNameResolver == None
  {
    cache.Clear();
    options.SetDisplayNameResolver(Some(Counting("foo", 0)));
    var expr := SURNAME_EXPR;
    var accessor;
    accessor, name := cache.GetCachedAccessor(GetMember(expr), expr, options);
    options.SetDisplayNameResolver(None);
  }
}
