/**
 * Member references written as lambdas (`x => x.Address.Line1`) and the
 * extractor that decides whether such a lambda names a member of the model
 * instance: the `GetMember()` extension on expressions.
 */
module Expressions {
  import opened Wrappers

  /** A reflective handle on a field or property: equal exactly when it is the
      same member of the same declaring type, however it was obtained. */
  datatype MemberDescriptor = MemberDescriptor(declaringType: string, name: string)

  /** The expression shapes a lambda body is built from. */
  datatype Expr =
    | Var(name: string)                               // a parameter or a captured variable
    | Access(target: Expr, member: MemberDescriptor)  // target.Member
    | Call(callee: string, argument: Expr)            // Callee(argument)
    | Const(value: int)                                // a literal such as 1

  /** A one-parameter lambda `param => body`. */
  datatype Lambda = Lambda(param: string, body: Expr)

  /** True when `e` is `param` followed by zero or more member accesses. */
  predicate RootedAt(e: Expr, param: string) {
    match e
    case Var(n) => n == param
    case Access(target, _) => RootedAt(target, param)
    case _ => false
  }

  /** The member a lambda reads off its parameter: the last member of a pure
      member-access chain that starts at the parameter, and nothing for any
      other shape (a call, a constant, another variable at the root). */
  function GetMember(l: Lambda): (r: Option<MemberDescriptor>)
    ensures r.Some? ==> RootedAt(l.body, l.param)
  {
    match l.body
    case Access(target, member) => if RootedAt(target, l.param) then Some(member) else None
    case _ => None
  }

  // ----- an independent description of member paths -----

  /** `root.path[0].path[1]...`: the expression that applies the members of
      `path` one after the other to `root`. */
  function Chain(root: Expr, path: seq<MemberDescriptor>): Expr
    decreases |path|
  {
    if path == [] then root
    else Access(Chain(root, path[..|path| - 1]), path[|path| - 1])
  }

  /** The expression a chain of member accesses starts from. */
  function RootOf(e: Expr): Expr {
    match e
    case Access(target, _) => RootOf(target)
    case _ => e
  }

  /** The members a chain of member accesses applies, outermost last. */
  function PathOf(e: Expr): seq<MemberDescriptor> {
    match e
    case Access(target, member) => PathOf(target) + [member]
    case _ => []
  }

  /** Every expression is its root followed by its path of member accesses,
      and the root is not itself a member access. */
  lemma {:induction false} Decompose(e: Expr)
    ensures !RootOf(e).Access?
    ensures e == Chain(RootOf(e), PathOf(e))
  {
    match e
    case Access(target, member) =>
      Decompose(target);
      var p := PathOf(target) + [member];
      assert p[..|p| - 1] == PathOf(target);
    case _ =>
  }

  /** A chain over a root that is not a member access is rooted at `param`
      exactly when that root is the variable `param`. */
  lemma {:induction false} ChainRootedAt(root: Expr, path: seq<MemberDescriptor>, param: string)
    requires !root.Access?
    ensures RootedAt(Chain(root, path), param) <==> root == Var(param)
    decreases |path|
  {
    if path != [] {
      ChainRootedAt(root, path[..|path| - 1], param);
    }
  }

  /** Extraction on a chain: a non-empty chain yields its last member when it
      starts at the lambda's parameter, and nothing when it starts anywhere
      else (a call on the parameter, another variable, a constant). */
  lemma {:induction false} GetMemberOfChain(param: string, root: Expr, path: seq<MemberDescriptor>)
    requires !root.Access? && |path| > 0
    ensures GetMember(Lambda(param, Chain(root, path)))
            == if root == Var(param) then Some(path[|path| - 1]) else None
  {
    ChainRootedAt(root, path[..|path| - 1], param);
  }

  /** Conversely, whatever GetMember extracts is the last member of a
      non-empty path applied to the parameter. */
  lemma GetMemberOnlyOfChains(l: Lambda)
    ensures GetMember(l).Some? ==>
      exists path :: |path| > 0 && l.body == Chain(Var(l.param), path)
                     && GetMember(l).value == path[|path| - 1]
  {
    if GetMember(l).Some? {
      Decompose(l.body);
      var root, path := RootOf(l.body), PathOf(l.body);
      ChainRootedAt(root, path, l.param);
      assert root == Var(l.param);
      assert path != [];
      GetMemberOfChain(l.param, root, path);
      assert l.body == Chain(Var(l.param), path);
    }
  }

  /** Two lambdas that each read a non-empty member path off their own
      parameter (whatever the parameters are called) extract equal
      descriptors exactly when their paths end in the same member. */
  lemma ExtractedMembersEqual(p1: string, path1: seq<MemberDescriptor>, p2: string, path2: seq<MemberDescriptor>)
    requires |path1| > 0 && |path2| > 0
    ensures GetMember(Lambda(p1, Chain(Var(p1), path1))).Some?
    ensures GetMember(Lambda(p1, Chain(Var(p1), path1))) == GetMember(Lambda(p2, Chain(Var(p2), path2)))
            <==> path1[|path1| - 1] == path2[|path2| - 1]
  {
    GetMemberOfChain(p1, Var(p1), path1);
    GetMemberOfChain(p2, Var(p2), path2);
  }
}
