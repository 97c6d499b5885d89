/** Effective permissions (`auth/permissions.py`): the built-in role, the custom role
    and the roles it inherits from, and the groups, each filtered on read. Each loop of
    the source is a method proved against a set defined without it. */
module Roles {
  import opened Prelude
  import opened ParentWalk
  import opened Scopes

  const MAX_ROLE_DEPTH: nat := 64

  /** One entry of a stored permission list. A compound entry (a list or an object)
      cannot be looked up in a set: the membership test raises. */
  datatype Entry = Text(text: string) | Scalar | Compound

  datatype Role = Role(permissions: seq<Entry>, parent: Option<int>)

  /** A stored group permission value: a list, text holding encoded JSON (`None` when it
      does not decode), or anything else. */
  datatype Stored = Items(entries: seq<Entry>) | Encoded(inner: Option<Stored>) | Unusable

  datatype User = User(role: string, customRole: Option<int>, memberOf: seq<int>, active: bool)

  /** What authorisation reads from the database. */
  datatype Directory = Directory(roles: map<int, Role>, groups: map<int, Stored>)

  // ---- Custom roles ---------------------------------------------------------

  /** `role.parent`: a missing parent row is no parent. */
  function Parents(roles: map<int, Role>): map<int, int> {
    map r | r in roles && roles[r].parent.Some? && roles[r].parent.value in roles
      :: roles[r].parent.value
  }

  function Chain(roles: map<int, Role>, start: int): seq<int> {
    if start in roles then Walk(Parents(roles), start, MAX_ROLE_DEPTH) else []
  }

  lemma ChainInRoles(roles: map<int, Role>, start: int)
    ensures forall r | r in Chain(roles, start) :: r in roles
    ensures NoDup(Chain(roles, start)) && |Chain(roles, start)| <= MAX_ROLE_DEPTH
  {
    if start in roles {
      var p := Parents(roles);
      WalkShape(p, start, MAX_ROLE_DEPTH);
      var w := Chain(roles, start);
      forall i | 0 <= i < |w| ensures w[i] in roles {
        if i > 0 {
          assert w[i] == p[w[i - 1]];
        }
      }
    }
  }

  method CustomRoleChain(roles: map<int, Role>, start: int) returns (chain: seq<int>)
    ensures chain == Chain(roles, start)
  {
    ghost var p := Parents(roles);
    chain := [];
    var seen: set<int> := {};
    var role := if start in roles then Some(start) else None;
    while role.Some? && role.value !in seen && |chain| < MAX_ROLE_DEPTH
      invariant seen == set r | r in chain
      invariant |chain| <= MAX_ROLE_DEPTH
      invariant chain == [] ==> role == if start in roles then Some(start) else None
      invariant chain != [] ==>
        var last := chain[|chain| - 1];
        && start in roles
        && role == (if last in p then Some(p[last]) else None)
        && Continue(p, chain, MAX_ROLE_DEPTH) == Chain(roles, start)
      invariant role.Some? ==> role.value in roles
      decreases MAX_ROLE_DEPTH - |chain|
    {
      if chain == [] {
        assert chain + [role.value] == [start];
      } else {
        assert Continue(p, chain, MAX_ROLE_DEPTH) == Continue(p, chain + [role.value], MAX_ROLE_DEPTH);
      }
      seen := seen + {role.value};
      chain := chain + [role.value];
      var up := roles[role.value].parent;
      role := if up.Some? && up.value in roles then up else None;
    }
  }

  /** `read:certs` is read as `read:certificates`; anything else unchanged. */
  function Normalize(p: string): string {
    if ':' in p && |Category(p)| < |p| && p[|Category(p)| + 1..] == "certs"
    then Category(p) + ":certificates"
    else p
  }

  /** The alias is read after the first colon only, and nothing else is rewritten. */
  lemma NormalizeOf(action: string, resource: string)
    requires ':' !in action
    ensures Normalize(action) == action
    ensures Normalize(action + ":" + resource) ==
            action + ":" + (if resource == "certs" then "certificates" else resource)
  {
    var p := action + ":" + resource;
    CategoryOf(action, resource);
    assert p[|action|] == ':' && p[|action| + 1..] == resource;
    assert action + ":certificates" == action + ":" + "certificates";
  }

  predicate Raises(role: Role) {
    Compound in role.permissions
  }

  /** The scopes of one role that `keep` lets through, as they are read. */
  ghost function Contribution(entries: seq<Entry>, keep: string -> bool): set<string> {
    set e | e in entries && e.Text? && keep(Normalize(e.text)) :: Normalize(e.text)
  }

  /** What one entry contributes. */
  ghost function Worth(e: Entry, keep: string -> bool): set<string> {
    if e.Text? && keep(Normalize(e.text)) then {Normalize(e.text)} else {}
  }

  lemma ContributionSnoc(entries: seq<Entry>, e: Entry, keep: string -> bool)
    ensures Contribution(entries + [e], keep) == Contribution(entries, keep) + Worth(e, keep)
  {
    assert e in entries + [e];
  }

  /** Every scope granted by a role of `chain`. */
  ghost function Contributions(roles: map<int, Role>, chain: seq<int>, keep: string -> bool): set<string> {
    set r, p | r in chain && r in roles && p in Contribution(roles[r].permissions, keep) :: p
  }

  lemma ContributionsSnoc(roles: map<int, Role>, chain: seq<int>, r: int, keep: string -> bool)
    requires r in roles
    ensures Contributions(roles, chain + [r], keep)
         == Contributions(roles, chain, keep) + Contribution(roles[r].permissions, keep)
  {
  }

  /** A lookup that raises anywhere on the chain loses the whole grant. */
  ghost function CustomGrants(roles: map<int, Role>, start: Option<int>): set<string> {
    if start.None? || start.value == 0 then {}
    else
      var chain := Chain(roles, start.value);
      if exists r :: r in chain && r in roles && Raises(roles[r]) then {}
      else Contributions(roles, chain, CustomGrantable)
  }

  /** One entry added to what is granted so far, unless it is there already. */
  method AddEntry(e: Entry, keep: string -> bool, granted: seq<string>) returns (r: seq<string>)
    requires NoDup(granted)
    ensures NoDup(r) && Elems(r) == Elems(granted) + Worth(e, keep)
  {
    r := granted;
    if e.Text? {
      var p := Normalize(e.text);
      if keep(p) && p !in granted {
        ElemsSnoc(granted, p);
        r := granted + [p];
      }
    }
  }

  /** One role's entries added to what is granted so far; `None` when an entry raises. */
  method AddRole(role: Role, keep: string -> bool, granted: seq<string>) returns (r: Option<seq<string>>)
    requires NoDup(granted)
    ensures r.None? <==> Raises(role)
    ensures r.Some? ==> NoDup(r.value) && Elems(r.value) == Elems(granted) + Contribution(role.permissions, keep)
  {
    var entries, acc := role.permissions, granted;
    for i := 0 to |entries|
      invariant Compound !in entries[..i]
      invariant NoDup(acc) && Elems(acc) == Elems(granted) + Contribution(entries[..i], keep)
    {
      EntriesTaken(entries, i, keep);
      if entries[i].Compound? {
        return None;
      }
      acc := AddEntry(entries[i], keep, acc);
    }
    assert entries[..|entries|] == entries;
    return Some(acc);
  }

  lemma EntriesTaken(entries: seq<Entry>, i: nat, keep: string -> bool)
    requires i < |entries|
    ensures Contribution(entries[..i + 1], keep) == Contribution(entries[..i], keep) + Worth(entries[i], keep)
    ensures Compound in entries[..i + 1] <==> Compound in entries[..i] || entries[i].Compound?
    ensures entries[i].Compound? ==> Compound in entries
  {
    TakeSnoc(entries, i);
    ContributionSnoc(entries[..i], entries[i], keep);
  }

  method CustomRolePermissions(roles: map<int, Role>, start: Option<int>) returns (granted: seq<string>)
    ensures NoDup(granted) && Elems(granted) == CustomGrants(roles, start)
  {
    granted := [];
    if start.None? || start.value == 0 {
      return;
    }
    var chain := CustomRoleChain(roles, start.value);
    ChainInRoles(roles, start.value);
    for i := 0 to |chain|
      invariant NoDup(granted)
      invariant forall r | r in chain[..i] :: r in roles && !Raises(roles[r])
      invariant Elems(granted) == Contributions(roles, chain[..i], CustomGrantable)
    {
      TakeSnoc(chain, i);
      assert chain[i] in Chain(roles, start.value);
      ContributionsSnoc(roles, chain[..i], chain[i], CustomGrantable);
      var more := AddRole(roles[chain[i]], CustomGrantable, granted);
      if more.None? {
        return [];
      }
      granted := more.value;
    }
    assert chain[..|chain|] == chain;
  }

  // ---- Groups ---------------------------------------------------------------

  function Texts(entries: seq<Entry>): (r: seq<string>)
    ensures forall p :: p in r <==> Text(p) in entries
  {
    if entries == [] then []
    else (if entries[0].Text? then [entries[0].text] else []) + Texts(entries[1..])
  }

  /** `permission_list`: text is decoded, repeatedly if needed; only strings are kept. */
  function PermissionList(value: Stored): seq<string> {
    match value
    case Items(entries) => Texts(entries)
    case Encoded(Some(inner)) => PermissionList(inner)
    case Encoded(None) => []
    case Unusable => []
  }

  /** `value` encoded as text so many times over. */
  function Wrapped(value: Stored, times: nat): Stored {
    if times == 0 then value else Encoded(Some(Wrapped(value, times - 1)))
  }

  /** However often it was encoded, a stored list means its strings and nothing else. */
  lemma {:induction false} ReadAtAnyDepth(entries: seq<Entry>, times: nat, p: string)
    ensures p in PermissionList(Wrapped(Items(entries), times)) <==> Text(p) in entries
    ensures PermissionList(Wrapped(Unusable, times)) == PermissionList(Wrapped(Encoded(None), times)) == []
  {
    if times > 0 {
      ReadAtAnyDepth(entries, times - 1, p);
    }
  }

  ghost function GroupGrants(groups: map<int, Stored>, memberOf: seq<int>, keep: string -> bool): set<string> {
    set g, p | g in memberOf && g in groups && p in PermissionList(groups[g]) && keep(p) :: p
  }

  lemma GroupGrantsSnoc(groups: map<int, Stored>, memberOf: seq<int>, g: int, keep: string -> bool)
    ensures GroupGrants(groups, memberOf + [g], keep) == GroupGrants(groups, memberOf, keep)
            + (if g in groups then Kept(PermissionList(groups[g]), keep) else {})
  {
  }

  ghost function Kept(perms: seq<string>, keep: string -> bool): set<string> {
    set p | p in perms && keep(p)
  }

  method AddKept(perms: seq<string>, keep: string -> bool, granted: seq<string>) returns (r: seq<string>)
    requires NoDup(granted)
    ensures NoDup(r) && Elems(r) == Elems(granted) + Kept(perms, keep)
  {
    r := granted;
    for j := 0 to |perms|
      invariant NoDup(r)
      invariant Elems(r) == Elems(granted) + Kept(perms[..j], keep)
    {
      TakeSnoc(perms, j);
      if keep(perms[j]) && perms[j] !in r {
        ElemsSnoc(r, perms[j]);
        r := r + [perms[j]];
      }
    }
    assert perms[..|perms|] == perms;
  }

  method GroupPermissions(groups: map<int, Stored>, memberOf: seq<int>, keep: string -> bool)
    returns (granted: seq<string>)
    ensures NoDup(granted) && Elems(granted) == GroupGrants(groups, memberOf, keep)
  {
    granted := [];
    for i := 0 to |memberOf|
      invariant NoDup(granted)
      invariant Elems(granted) == GroupGrants(groups, memberOf[..i], keep)
    {
      TakeSnoc(memberOf, i);
      GroupGrantsSnoc(groups, memberOf[..i], memberOf[i], keep);
      if memberOf[i] in groups {
        granted := AddKept(PermissionList(groups[memberOf[i]]), keep, granted);
      }
    }
    assert memberOf[..|memberOf|] == memberOf;
  }

  // ---- Effective permissions --------------------------------------------------

  /** What the user holds now. */
  ghost function Effective(d: Directory, u: User): set<string> {
    var base := Elems(RolePermissions(u.role));
    if "*" in base then base
    else base + CustomGrants(d.roles, u.customRole) + GroupGrants(d.groups, u.memberOf, GroupGrantable)
  }

  method EffectivePermissions(d: Directory, u: User) returns (perms: seq<string>)
    ensures Elems(perms) == Effective(d, u)
  {
    perms := RolePermissions(u.role);
    if "*" in perms {
      return;
    }
    var custom := CustomRolePermissions(d.roles, u.customRole);
    var group := GroupPermissions(d.groups, u.memberOf, GroupGrantable);
    perms := AppendNew(perms, custom);
    perms := AppendNew(perms, group);
  }

  method AppendNew(perms: seq<string>, extra: seq<string>) returns (r: seq<string>)
    ensures Elems(r) == Elems(perms) + Elems(extra)
    ensures NoDup(perms) && NoDup(extra) ==> NoDup(r)
  {
    r := perms;
    for i := 0 to |extra|
      invariant Elems(r) == Elems(perms) + Elems(extra[..i])
      invariant NoDup(perms) && NoDup(extra) ==> NoDup(r)
    {
      TakeSnoc(extra, i);
      assert forall p :: p in r <==> p in Elems(r);
      if extra[i] !in perms {
        ElemsSnoc(r, extra[i]);
        r := r + [extra[i]];
      }
    }
    assert extra[..|extra|] == extra;
  }

  // ---- What holds for every directory -----------------------------------------

  lemma EffectiveIsOrdinary(d: Directory, u: User, p: string)
    requires u.role != "admin" && p in Effective(d, u)
    ensures Ordinary(p)
  {
    if p in Elems(RolePermissions(u.role)) {
      RoleGrantsAreOrdinary(u.role, p);
    } else if p in CustomGrants(d.roles, u.customRole) {
      CustomGrantsAreOrdinary(p);
    } else {
      GroupGrantsAreOrdinary(p);
    }
  }

  /** Whatever the stored role graph, group contents and spellings: a reserved scope is
      satisfied exactly by the built-in administrator. */
  lemma ReservedOnlyForAdmin(d: Directory, u: User, p: string)
    requires Reserved(p)
    ensures Grants(Effective(d, u), p) <==> u.role == "admin"
  {
    var held := Effective(d, u);
    if u.role == "admin" {
      assert RolePermissions(u.role)[0] == "*";
    } else {
      var w := Wildcard(Category(p));
      assert "*"[0] == '*' && w[|w| - 1] == '*';
      if q :| q in held && q in {"*", p, w} {
        EffectiveIsOrdinary(d, u, q);
      }
    }
  }

  /** The chain covers the parent's chain if and only if at most 64 roles are reachable. */
  lemma ChainCoversParentIff(roles: map<int, Role>, child: int)
    requires child in Parents(roles)
    ensures Elems(Chain(roles, Parents(roles)[child])) <= Elems(Chain(roles, child))
       <==> |Reach(Parents(roles), child)| <= MAX_ROLE_DEPTH
  {
    ParentWalkIncludedIff(Parents(roles), child, MAX_ROLE_DEPTH);
  }

  /** The chain lists exactly the reachable roles if and only if they are at most 64. */
  lemma ChainListsReachIff(roles: map<int, Role>, start: int)
    requires start in roles
    ensures Elems(Chain(roles, start)) == Reach(Parents(roles), start)
       <==> |Reach(Parents(roles), start)| <= MAX_ROLE_DEPTH
  {
    WalkListsReachIff(Parents(roles), start, MAX_ROLE_DEPTH);
  }

  lemma GrantsFollowChainSet(roles: map<int, Role>, a: int, b: int)
    requires a != 0 && b != 0 && Elems(Chain(roles, a)) == Elems(Chain(roles, b))
    ensures CustomGrants(roles, Some(a)) == CustomGrants(roles, Some(b))
  {
    assert forall r :: r in Chain(roles, a) <==> r in Elems(Chain(roles, a));
    assert forall r :: r in Chain(roles, b) <==> r in Elems(Chain(roles, b));
  }

  /** Two roles on one cycle walk the same chain, if and only if the cycle has at most 64 roles. */
  lemma CycleSharesChainIff(roles: map<int, Role>, a: int, b: int)
    requires a in roles && b in roles
    requires b in Reach(Parents(roles), a) && a in Reach(Parents(roles), b)
    ensures Elems(Chain(roles, a)) == Elems(Chain(roles, b))
       <==> a == b || |Reach(Parents(roles), a)| <= MAX_ROLE_DEPTH
  {
    CycleSharesWalkIff(Parents(roles), a, b, MAX_ROLE_DEPTH);
  }

  ghost predicate SameGraph(roles: map<int, Role>, others: map<int, Role>) {
    roles.Keys == others.Keys && forall r | r in roles :: roles[r].parent == others[r].parent
  }

  lemma SameGraphSameChain(roles: map<int, Role>, others: map<int, Role>, a: int)
    requires SameGraph(roles, others)
    ensures Parents(roles) == Parents(others) && Chain(roles, a) == Chain(others, a)
  {
    assert forall r :: (r in roles <==> r in roles.Keys) && (r in others <==> r in others.Keys);
    var p, q := Parents(roles), Parents(others);
    forall r ensures r in p <==> r in q {
      assert r in roles ==> roles[r].parent == others[r].parent;
    }
    assert p.Keys == q.Keys;
    assert forall r | r in p :: p[r] == q[r];
  }

  /** The graph with one role that grants something. */
  function OnlyAt(roles: map<int, Role>, c: int): map<int, Role> {
    map r | r in roles :: Role(if r == c then [Text("read:users")] else [], roles[r].parent)
  }

  lemma ReadUsersGrantable()
    ensures CustomGrantable("read:users") && Normalize("read:users") == "read:users"
  {
    assert CUSTOM_READ[22] == "users" && On("read", CUSTOM_READ)[22] == "read" + ":" + "users";
    NormalizeOf("read", "users");
    assert "read" + ":" + "users" == "read:users" && "users" != "certs";
  }

  lemma ContributionOne(p: string, keep: string -> bool)
    requires keep(p) && Normalize(p) == p
    ensures Contribution([Text(p)], keep) == {p} && Contribution([], keep) == {}
  {
    assert Text(p) in [Text(p)];
  }

  lemma ContributionsAt(roles: map<int, Role>, chain: seq<int>, c: int, p: string, keep: string -> bool)
    requires c in roles && keep(p) && Normalize(p) == p
    requires forall r | r in roles :: roles[r].permissions == if r == c then [Text(p)] else []
    ensures p in Contributions(roles, chain, keep) <==> c in chain
  {
    ContributionOne(p, keep);
  }

  lemma MarkContributes(roles: map<int, Role>, c: int, chain: seq<int>)
    requires c in roles
    ensures "read:users" in Contributions(OnlyAt(roles, c), chain, CustomGrantable) <==> c in chain
  {
    ReadUsersGrantable();
    ContributionsAt(OnlyAt(roles, c), chain, c, "read:users", CustomGrantable);
  }

  lemma NothingRaises(roles: map<int, Role>, start: int)
    requires start != 0 && forall r | r in roles :: !Raises(roles[r])
    ensures CustomGrants(roles, Some(start)) == Contributions(roles, Chain(roles, start), CustomGrantable)
  {
  }

  lemma GrantsOnlyAt(roles: map<int, Role>, c: int, a: int)
    requires c in roles && a != 0
    ensures "read:users" in CustomGrants(OnlyAt(roles, c), Some(a)) <==> c in Chain(roles, a)
  {
    SameGraphSameChain(roles, OnlyAt(roles, c), a);
    MarkContributes(roles, c, Chain(roles, a));
    NothingRaises(OnlyAt(roles, c), a);
  }

  ghost predicate SameGrants(roles: map<int, Role>, a: int, b: int) {
    CustomGrants(roles, Some(a)) == CustomGrants(roles, Some(b))
  }

  /** Two roles on one cycle grant the same scopes whatever the roles on it hold, if and only if the
      cycle has at most 64 roles. */
  lemma CycleSharesGrantsIff(roles: map<int, Role>, a: int, b: int)
    requires a != 0 && b != 0 && a in roles && b in roles
    requires b in Reach(Parents(roles), a) && a in Reach(Parents(roles), b)
    ensures (forall others | SameGraph(roles, others) :: SameGrants(others, a, b))
       <==> a == b || |Reach(Parents(roles), a)| <= MAX_ROLE_DEPTH
  {
    CycleSharesChainIff(roles, a, b);
    if Elems(Chain(roles, a)) == Elems(Chain(roles, b)) {
      forall others | SameGraph(roles, others) ensures SameGrants(others, a, b) {
        SameGraphSameChain(roles, others, a);
        SameGraphSameChain(roles, others, b);
        GrantsFollowChainSet(others, a, b);
      }
    } else {
      ChainInRoles(roles, a);
      ChainInRoles(roles, b);
      var up, other := Elems(Chain(roles, a)), Elems(Chain(roles, b));
      var c: int;
      if up <= other {
        c := NotSubset(other, up);
      } else {
        c := NotSubset(up, other);
      }
      GrantsOnlyAt(roles, c, a);
      GrantsOnlyAt(roles, c, b);
      assert SameGraph(roles, OnlyAt(roles, c)) && !SameGrants(OnlyAt(roles, c), a, b);
    }
  }

  lemma ChainIsChildThenParent(roles: map<int, Role>, child: int)
    requires child in Parents(roles) && |Reach(Parents(roles), child)| <= MAX_ROLE_DEPTH
    ensures Elems(Chain(roles, child)) == {child} + Elems(Chain(roles, Parents(roles)[child]))
  {
    var p := Parents(roles);
    var c, up := Elems(Chain(roles, child)), Elems(Chain(roles, p[child]));
    ChainCoversParentIff(roles, child);
    assert Nth(p, child, 0) == Some(child) && Nth(p, child, 1) == Some(p[child]);
    NthInRange(p, child, 1, p[child]);
    ReachTransitive(p, child, p[child]);
    SubsetSize(Reach(p, p[child]), Reach(p, child));
    ChainListsReachIff(roles, child);
    ChainListsReachIff(roles, p[child]);
    AncestorsOfParentSuffice(p, child, {child} + up);
    NthInRange(p, child, 0, child);
  }

  /** With at most 64 roles reachable, a role grants its own scopes and its parent's, except
      when its own list raises; that is the one way the parent's scopes can be lost. */
  lemma ChildGrants(roles: map<int, Role>, child: int)
    requires child != 0 && child in Parents(roles) && Parents(roles)[child] != 0
    requires |Reach(Parents(roles), child)| <= MAX_ROLE_DEPTH
    ensures var parent := Parents(roles)[child];
            var above := CustomGrants(roles, Some(parent));
            && (above <= CustomGrants(roles, Some(child)) <==> (Raises(roles[child]) ==> above == {}))
            && ((forall r | r in Chain(roles, child) && r in roles :: !Raises(roles[r])) ==>
                  CustomGrants(roles, Some(child)) ==
                  Contribution(roles[child].permissions, CustomGrantable) + above)
  {
    var parent := Parents(roles)[child];
    ChainIsChildThenParent(roles, child);
    var c, up := Chain(roles, child), Chain(roles, parent);
    assert forall r :: r in c <==> r == child || r in up by {
      assert forall r :: r in c <==> r in Elems(c);
      assert forall r :: r in up <==> r in Elems(up);
    }
    assert Contributions(roles, c, CustomGrantable)
        == Contribution(roles[child].permissions, CustomGrantable) + Contributions(roles, up, CustomGrantable);
  }

  ghost predicate Inherits(roles: map<int, Role>, child: int, parent: int) {
    CustomGrants(roles, Some(parent)) <= CustomGrants(roles, Some(child))
  }

  /** Whatever the roles hold, as long as the child's own list does not raise, the child grants what
      its parent grants, if and only if at most 64 roles are reachable. */
  lemma ChildInheritsIff(roles: map<int, Role>, child: int)
    requires child != 0 && child in Parents(roles) && Parents(roles)[child] != 0
    ensures (forall others | SameGraph(roles, others) && !Raises(others[child]) ::
               Inherits(others, child, Parents(roles)[child]))
       <==> |Reach(Parents(roles), child)| <= MAX_ROLE_DEPTH
  {
    var parent := Parents(roles)[child];
    ChainCoversParentIff(roles, child);
    if |Reach(Parents(roles), child)| <= MAX_ROLE_DEPTH {
      forall others | SameGraph(roles, others) && !Raises(others[child]) ensures Inherits(others, child, parent) {
        SameGraphSameChain(roles, others, child);
        ChildGrants(others, child);
      }
    } else {
      var c := NotSubset(Elems(Chain(roles, parent)), Elems(Chain(roles, child)));
      ChainInRoles(roles, parent);
      GrantsOnlyAt(roles, c, parent);
      GrantsOnlyAt(roles, c, child);
      var others := OnlyAt(roles, c);
      assert SameGraph(roles, others) && !Raises(others[child]) && !Inherits(others, child, parent);
    }
  }

  // ---- Where inheritance stops short ------------------------------------------------

  function Up(a: int, n: nat): seq<int> {
    seq(n, i => a + i)
  }

  lemma {:induction false} ContinueUp(parent: map<int, int>, a: int, n: nat, limit: nat)
    requires 0 < n <= limit && forall x | a <= x < a + limit - 1 :: x in parent && parent[x] == x + 1
    ensures Continue(parent, Up(a, n), limit) == Up(a, limit)
    decreases limit - n
  {
    if n < limit {
      ContinueUp(parent, a, n + 1, limit);
      assert Up(a, n + 1) == Up(a, n) + [a + n];
    }
  }

  function Next(i: int): Option<int> {
    if i < 65 then Some(i + 1) else None
  }

  /** 65 roles in a row, each the parent of the one before. */
  function Row(): map<int, Role> {
    map i | 1 <= i <= 65 :: Role([], Next(i))
  }

  lemma RowChains()
    ensures Chain(Row(), 1) == Up(1, MAX_ROLE_DEPTH) && Chain(Row(), 2) == Up(2, MAX_ROLE_DEPTH)
  {
    var parent := Parents(Row());
    assert forall x | 1 <= x < 65 :: x in parent && parent[x] == x + 1;
    assert Up(1, 1) == [1] && Up(2, 1) == [2];
    ContinueUp(parent, 1, 1, MAX_ROLE_DEPTH);
    ContinueUp(parent, 2, 1, MAX_ROLE_DEPTH);
  }

  /** When only the last role of the row grants something, that is out of the first one's reach: the
      second role of the row inherits from the last one, the first role does not. */
  lemma DeepRoleLost()
    ensures var roles := OnlyAt(Row(), 65);
            && roles[1].parent == Some(2)
            && "read:users" in CustomGrants(roles, Some(2)) && "read:users" !in CustomGrants(roles, Some(1))
  {
    RowChains();
    assert Up(2, MAX_ROLE_DEPTH)[63] == 65;
    GrantsOnlyAt(Row(), 65, 1);
    GrantsOnlyAt(Row(), 65, 2);
  }

  /** One entry that cannot be looked up costs a role everything its parent grants. */
  lemma CompoundEntryLosesParent(roles: map<int, Role>, p: string)
    requires p == "read:users" && roles == map[1 := Role([Compound], Some(2)), 2 := Role([Text(p)], None)]
    ensures p in CustomGrants(roles, Some(2)) && CustomGrants(roles, Some(1)) == {}
  {
    FirstOnChain(roles, 1);
    RootChain(roles, 2);
    OneContributes(roles, 2, p);
    assert Raises(roles[1]) && !Raises(roles[2]);
  }

  lemma RootChain(roles: map<int, Role>, a: int)
    requires a in roles && roles[a].parent.None?
    ensures Chain(roles, a) == [a]
  {
  }

  lemma OneContributes(roles: map<int, Role>, r: int, p: string)
    requires r in roles && p == "read:users" && roles[r].permissions == [Text(p)]
    ensures p in Contributions(roles, [r], CustomGrantable)
  {
    ReadUsersGrantable();
    ContributionOne(p, CustomGrantable);
  }

  lemma FirstOnChain(roles: map<int, Role>, a: int)
    requires a in roles
    ensures a in Chain(roles, a)
  {
    WalkShape(Parents(roles), a, MAX_ROLE_DEPTH);
  }
}
