/**
 * The display-name policy: a process-wide, replaceable resolver
 * `(modelType, member, expression) -> name` and the flag that says whether
 * the accessor cache may keep what it returns.
 */
module DisplayNames {
  import opened Wrappers
  import opened Expressions

  /** The model type an accessor cache belongs to (`typeof(T)`). */
  type TypeName = string

  // ----- decimal rendering of a counter, as `count.ToString()` -----

  function DigitChar(d: nat): char
    requires d < 10
  {
    (48 + d) as char
  }

  function DigitValue(c: char): int {
    c as int - 48
  }

  /** The decimal numeral of `n`, without leading zeros. */
  function DecimalString(n: nat): (s: string)
    ensures |s| > 0
  {
    if n < 10 then [DigitChar(n)] else DecimalString(n / 10) + [DigitChar(n % 10)]
  }

  /** The value of a decimal numeral, read most significant digit first. */
  function ParseDecimal(s: string): int {
    if s == [] then 0 else ParseDecimal(s[..|s| - 1]) * 10 + DigitValue(s[|s| - 1])
  }

  /** Reading back a rendered numeral gives the number. */
  lemma {:induction false} ParseDecimalString(n: nat)
    ensures ParseDecimal(DecimalString(n)) == n
  {
    var s := DecimalString(n);
    if n < 10 {
      assert s[..0] == [];
    } else {
      ParseDecimalString(n / 10);
      assert s[..|s| - 1] == DecimalString(n / 10);
    }
  }

  /** Different numbers render as different numerals. */
  lemma DecimalStringInjective(a: nat, b: nat)
    ensures DecimalString(a) == DecimalString(b) <==> a == b
  {
    ParseDecimalString(a);
    ParseDecimalString(b);
  }

  // ----- resolvers -----

  /** A display-name resolver as installed by an application:
      `Counting(prefix, count)` is the stateful `(t, m, e) => prefix + count++`,
      holding its captured counter; `Table(names)` answers from a fixed table
      and has no opinion on members it does not list. */
  datatype Resolver =
    | Counting(prefix: string, count: nat)
    | Table(names: map<MemberDescriptor, string>)

  /** What one invocation of `r` returns. */
  function Output(r: Resolver, modelType: TypeName, member: Option<MemberDescriptor>, expr: Lambda): Option<string> {
    match r
    case Counting(prefix, count) => Some(prefix + DecimalString(count))
    case Table(names) =>
      if member.Some? && member.value in names then Some(names[member.value]) else None
  }

  /** The resolver as it is after one invocation (its counter moved on). */
  function Invoked(r: Resolver): Resolver {
    match r
    case Counting(prefix, count) => Counting(prefix, count + 1)
    case Table(_) => r
  }

  /** A counting resolver never repeats itself: each invocation yields a name
      no other invocation yields. */
  lemma CountingNeverRepeats(prefix: string, i: nat, j: nat, t: TypeName, m: Option<MemberDescriptor>, e: Lambda)
    ensures Output(Counting(prefix, i), t, m, e) == Output(Counting(prefix, j), t, m, e) <==> i == j
  {
    var si, sj := DecimalString(i), DecimalString(j);
    if prefix + si == prefix + sj {
      assert si == (prefix + si)[|prefix|..];
      assert sj == (prefix + sj)[|prefix|..];
    }
    DecimalStringInjective(i, j);
  }

  // ----- the global policy state -----

  /** The process-wide policy: the installed resolver, if any, and whether
      display names are kept out of the cache. */
  datatype Options = Options(resolver: Option<Resolver>, disableDisplayNameCache: bool)

  /** No resolver installed; names are cached. */
  const DEFAULT_OPTIONS := Options(None, false)

  /** Installing a resolver turns name caching off; removing it leaves the
      flag as it was. */
  function WithResolver(o: Options, r: Option<Resolver>): Options {
    Options(r, r.Some? || o.disableDisplayNameCache)
  }

  /** The name the installed resolver gives, absent when none is installed
      or it has no opinion. */
  function ResolvedName(o: Options, modelType: TypeName, member: Option<MemberDescriptor>, expr: Lambda): Option<string> {
    if o.resolver.None? then None else Output(o.resolver.value, modelType, member, expr)
  }

  /** The policy state after the resolver has been invoked once. */
  function AfterResolving(o: Options): Options {
    if o.resolver.None? then o else o.(resolver := Some(Invoked(o.resolver.value)))
  }

  /** `ValidatorOptions`: the mutable holder of the policy state. */
  class ValidatorOptions {
    var displayNameResolver: Option<Resolver>
    var disableDisplayNameCache: bool

    function Current(): Options
      reads this
    {
      Options(displayNameResolver, disableDisplayNameCache)
    }

    constructor ()
      ensures Current() == DEFAULT_OPTIONS
    {
      displayNameResolver := None;
      disableDisplayNameCache := false;
    }

    /** `ValidatorOptions.DisplayNameResolver = r`. */
    method SetDisplayNameResolver(r: Option<Resolver>)
      modifies this
      ensures Current() == WithResolver(old(Current()), r)
    {
      displayNameResolver := r;
      if r.Some? {
        disableDisplayNameCache := true;
      }
    }

    /** `ValidatorOptions.DisableDisplayNameCache = disable`. */
    method SetDisableDisplayNameCache(disable: bool)
      modifies this
      ensures Current() == old(Current()).(disableDisplayNameCache := disable)
    {
      disableDisplayNameCache := disable;
    }

    /** Invokes the installed resolver, if any: returns its answer and lets
        its state move on. */
    method ResolveDisplayName(modelType: TypeName, member: Option<MemberDescriptor>, expr: Lambda)
      returns (name: Option<string>)
      modifies this
      ensures name == ResolvedName(old(Current()), modelType, member, expr)
      ensures Current() == AfterResolving(old(Current()))
    {
      match displayNameResolver
      case None =>
        name := None;
      case Some(r) =>
        name := Output(r, modelType, member, expr);
        displayNameResolver := Some(Invoked(r));
    }
  }
}
