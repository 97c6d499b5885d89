/** API keys (`auth/unified.py`): a key's stored scopes are re-bound on every request to
    what its owner holds at that moment. */
module ApiKeys {
  import opened Prelude
  import opened Scopes
  import opened Roles

  // ---- Re-binding -----------------------------------------------------------

  /** The owner's scopes a category wildcard of the key stands for. */
  ghost function Expanded(key: set<string>, owner: set<string>): set<string> {
    set k, p | k in key && EndsInWildcard(k) && p in owner && (p == k || Category(p) == Category(k)) :: p
  }

  /** The concrete scopes of the key its owner still holds. */
  ghost function Retained(key: set<string>, owner: set<string>): set<string> {
    set k | k in key && !EndsInWildcard(k) && Grants(owner, k)
  }

  /** The scopes of the key, one by one, against what the owner holds. */
  ghost function Narrowed(key: set<string>, owner: set<string>): set<string> {
    Expanded(key, owner) + Retained(key, owner)
  }

  ghost function Rebound(key: set<string>, owner: set<string>): set<string> {
    if "*" in owner then key
    else if "*" in key then owner
    else Narrowed(key, owner)
  }

  /** The matcher on a list, as the code evaluates it. */
  predicate HasPermission(required: string, held: seq<string>)
    ensures HasPermission(required, held) <==> Grants(Elems(held), required)
  {
    "*" in held || required in held || (':' in required && Wildcard(Category(required)) in held)
  }

  method Match(k: string, owner: seq<string>) returns (matched: seq<string>)
    ensures Elems(matched) == Narrowed({k}, Elems(owner))
  {
    matched := [];
    if ':' in k && EndsInWildcard(k) {
      for i := 0 to |owner|
        invariant Elems(matched) == Expanded({k}, Elems(owner[..i]))
      {
        TakeSnoc(owner, i);
        if owner[i] == k || Category(owner[i]) == Category(k) {
          ElemsSnoc(matched, owner[i]);
          matched := matched + [owner[i]];
        }
      }
      assert owner[..|owner|] == owner;
    } else if HasPermission(k, owner) {
      matched := [k];
    }
    assert EndsInWildcard(k) ==> ':' in k by {
      if EndsInWildcard(k) {
        assert k[|k| - 2] == k[|k| - 2..][0];
      }
    }
  }

  lemma ExpandedSnoc(key: seq<string>, k: string, owner: set<string>)
    ensures Expanded(Elems(key + [k]), owner) == Expanded(Elems(key), owner) + Expanded({k}, owner)
  {
    ElemsSnoc(key, k);
  }

  lemma RetainedSnoc(key: seq<string>, k: string, owner: set<string>)
    ensures Retained(Elems(key + [k]), owner) == Retained(Elems(key), owner) + Retained({k}, owner)
  {
    ElemsSnoc(key, k);
  }

  lemma NarrowedSnoc(key: seq<string>, k: string, owner: set<string>)
    ensures Narrowed(Elems(key + [k]), owner) == Narrowed(Elems(key), owner) + Narrowed({k}, owner)
  {
    ExpandedSnoc(key, k, owner);
    RetainedSnoc(key, k, owner);
  }

  method Narrow(key: seq<string>, owner: seq<string>) returns (rebound: seq<string>)
    ensures Elems(rebound) == Narrowed(Elems(key), Elems(owner)) && NoDup(rebound)
  {
    rebound := [];
    for i := 0 to |key|
      invariant NoDup(rebound)
      invariant Elems(rebound) == Narrowed(Elems(key[..i]), Elems(owner))
    {
      TakeSnoc(key, i);
      NarrowedSnoc(key[..i], key[i], Elems(owner));
      var matched := Match(key[i], owner);
      rebound := AppendMissing(rebound, matched);
    }
    assert key[..|key|] == key;
  }

  method Rebind(key: seq<string>, owner: seq<string>) returns (rebound: seq<string>)
    ensures Elems(rebound) == Rebound(Elems(key), Elems(owner))
    ensures "*" !in owner && "*" !in key ==> NoDup(rebound)
  {
    if "*" in owner {
      return key;
    }
    if "*" in key {
      return owner;
    }
    rebound := Narrow(key, owner);
  }

  method AppendMissing(acc: seq<string>, extra: seq<string>) returns (r: seq<string>)
    ensures Elems(r) == Elems(acc) + Elems(extra)
    ensures NoDup(acc) ==> NoDup(r)
  {
    r := acc;
    for i := 0 to |extra|
      invariant Elems(r) == Elems(acc) + Elems(extra[..i])
      invariant NoDup(acc) ==> NoDup(r)
    {
      TakeSnoc(extra, i);
      if extra[i] !in r {
        ElemsSnoc(r, extra[i]);
        r := r + [extra[i]];
      }
    }
    assert extra[..|extra|] == extra;
  }

  // ---- The re-bound list is a meet --------------------------------------------

  /** For any stored text whatever: a key grants nothing its owner does not hold. */
  lemma NeverWidens(key: set<string>, owner: set<string>, required: string)
    requires Grants(Rebound(key, owner), required)
    ensures Grants(owner, required)
  {
  }

  ghost predicate IsMeet(r: set<string>, key: set<string>, owner: set<string>) {
    forall required :: Grants(r, required) <==> Grants(key, required) && Grants(owner, required)
  }

  /** Every owner scope a wildcard of the key pulls in is one the key grants. */
  ghost predicate NoStray(key: set<string>, owner: set<string>) {
    || "*" in owner
    || forall k, p | k in key && p in owner && EndsInWildcard(k) && Category(p) == Category(k) :: Grants(key, p)
  }

  lemma ExpandedIsGranted(key: set<string>, owner: set<string>, p: string)
    requires NoStray(key, owner) && "*" !in owner && p in Expanded(key, owner)
    ensures Grants(key, p)
  {
  }

  /** `q` covers `required`: the scope itself or the wildcard of its category. */
  predicate Covers(q: string, required: string) {
    q == required || (':' in required && q == Wildcard(Category(required)))
  }

  /** Without `*` on either side, what is granted is granted by a scope that covers it. */
  lemma ReboundWitness(key: set<string>, owner: set<string>, required: string) returns (q: string)
    requires "*" !in owner && "*" !in key && Grants(Rebound(key, owner), required)
    ensures Covers(q, required) && (q in Expanded(key, owner) || q in key)
  {
    q := if required in Rebound(key, owner) then required else Wildcard(Category(required));
  }

  lemma CoveringGrants(held: set<string>, q: string, required: string)
    requires Covers(q, required) && Grants(held, q)
    ensures Grants(held, required)
  {
    WildcardShape(required);
  }

  lemma BothGrant(key: set<string>, owner: set<string>, required: string)
    requires Grants(key, required) && Grants(owner, required)
    ensures Grants(Rebound(key, owner), required)
  {
    if "*" !in owner && "*" !in key {
      var w := Wildcard(Category(required));
      WildcardShape(required);
      if required in key && !EndsInWildcard(required) {
        assert required in Retained(key, owner);
      } else {
        var k := if required in key then required else w;
        var p := if required in owner then required else w;
        assert Category(k) == Category(p) == Category(required);
        assert p in Expanded(key, owner);
      }
    }
  }

  lemma MeetAt(key: set<string>, owner: set<string>, required: string)
    requires NoStray(key, owner)
    ensures Grants(Rebound(key, owner), required) <==> Grants(key, required) && Grants(owner, required)
  {
    if Grants(key, required) && Grants(owner, required) {
      BothGrant(key, owner, required);
    }
    if Grants(Rebound(key, owner), required) {
      NeverWidens(key, owner, required);
      if "*" !in owner && "*" !in key {
        var q := ReboundWitness(key, owner, required);
        if q in Expanded(key, owner) {
          ExpandedIsGranted(key, owner, q);
        }
        CoveringGrants(key, q, required);
      }
    }
  }

  /** The re-bound list grants exactly what key and owner both grant, if and only if no
      wildcard of the key pulls in an owner scope the key does not grant. */
  lemma MeetIff(key: set<string>, owner: set<string>)
    ensures IsMeet(Rebound(key, owner), key, owner) <==> NoStray(key, owner)
  {
    if NoStray(key, owner) {
      forall required ensures Grants(Rebound(key, owner), required) <==>
                              Grants(key, required) && Grants(owner, required) {
        MeetAt(key, owner, required);
      }
    } else {
      var k, p :| k in key && p in owner && EndsInWildcard(k) && Category(p) == Category(k) && !Grants(key, p);
      StrayFails(key, owner, k, p);
    }
  }

  lemma StrayFails(key: set<string>, owner: set<string>, k: string, p: string)
    requires "*" !in owner && k in key && p in owner && EndsInWildcard(k) && Category(p) == Category(k)
    requires !Grants(key, p)
    ensures !IsMeet(Rebound(key, owner), key, owner)
  {
    assert p in Expanded(key, owner);
    assert Grants(Rebound(key, owner), p);
  }

  ghost predicate AllWellFormed(scopes: set<string>) {
    forall s | s in scopes :: WellFormed(s)
  }

  /** Well-formed scopes never stray, so their re-binding is a meet. */
  lemma WellFormedMeet(key: set<string>, owner: set<string>)
    requires AllWellFormed(key) && AllWellFormed(owner)
    ensures IsMeet(Rebound(key, owner), key, owner)
  {
    forall k, p | k in key && "*" !in owner && p in owner && EndsInWildcard(k) && Category(p) == Category(k)
      ensures Grants(key, p)
    {
      WellFormedWildcard(k);
    }
    MeetIff(key, owner);
  }

  /** Every wildcard of the key comes with that of its category. */
  ghost predicate Tidy(key: set<string>) {
    "*" in key || forall k | k in key && EndsInWildcard(k) :: Wildcard(Category(k)) in key
  }

  /** A key meets every owner whose scopes are well-formed, as every owner's are, if and only if it is
      tidy: a condition on the key alone. */
  lemma MeetsEveryOwnerIff(key: set<string>)
    ensures (forall owner | AllWellFormed(owner) :: IsMeet(Rebound(key, owner), key, owner)) <==> Tidy(key)
  {
    if Tidy(key) {
      forall owner | AllWellFormed(owner) ensures IsMeet(Rebound(key, owner), key, owner) {
        MeetIff(key, owner);
      }
    } else {
      var k :| k in key && EndsInWildcard(k) && Wildcard(Category(k)) !in key;
      UntidyFails(key, k);
    }
  }

  lemma WellFormedIsTidy(key: set<string>)
    requires AllWellFormed(key)
    ensures Tidy(key)
  {
    forall k | k in key && EndsInWildcard(k) ensures Wildcard(Category(k)) in key {
      WellFormedWildcard(k);
    }
  }

  lemma WildcardIsWellFormed(s: string)
    ensures WellFormed(Wildcard(Category(s)))
  {
    OneColonOf(Category(s), s);
  }

  lemma OneColonOf(category: string, s: string)
    requires category == Category(s)
    ensures OneColon(Wildcard(category))
  {
    var w := Wildcard(category);
    WildcardShape(s);
    assert Category(w) == category && |w| == |category| + 2;
    assert w[|category|..] == ":*" && w[|category| + 1..] == ['*'];
    assert ':' !in ['*'];
  }

  lemma WildcardGrantedIff(key: set<string>, s: string)
    ensures var w := Wildcard(Category(s));
            && Category(w) == Category(s) && w != "*"
            && (Grants(key, w) <==> "*" in key || w in key)
  {
    WildcardShape(s);
    assert |Wildcard(Category(s))| >= 2;
  }

  lemma UntidyFails(key: set<string>, k: string)
    requires "*" !in key && k in key && EndsInWildcard(k) && Wildcard(Category(k)) !in key
    ensures var owner := {Wildcard(Category(k))};
            AllWellFormed(owner) && !IsMeet(Rebound(key, owner), key, owner)
  {
    var w := Wildcard(Category(k));
    WildcardIsWellFormed(k);
    WildcardGrantedIff(key, k);
    StrayFails(key, {w}, k, w);
  }

  /** The key scope `action:resource:*` is worth every owner scope of the action. */
  lemma StrayAt(owner: set<string>, action: string, resource: string, other: string)
    requires ':' !in action && other != resource + ":*"
    requires "*" !in owner && action + ":" + other in owner
    ensures var k, p := action + ":" + (resource + ":*"), action + ":" + other;
            Grants(Rebound({k}, owner), p) && !Grants({k}, p)
  {
    var k, p := action + ":" + (resource + ":*"), action + ":" + other;
    CategoryOf(action, resource + ":*");
    CategoryOf(action, other);
    assert k[|k| - 2..] == ":*";
    assert |Wildcard(action)| < |k| && |"*"| < |k|;
    assert k[|action| + 1..] == resource + ":*" && p[|action| + 1..] == other;
    assert p in Expanded({k}, owner);
  }

  /** A stored `read:cas:*`, or any other resource in its place, gives the key of any viewer
      `read:certificates`, which the key does not grant. */
  lemma StrayWildcard(d: Directory, u: User, resource: string)
    requires u.role == "viewer"
    ensures var k, p := "read" + ":" + (resource + ":*"), "read" + ":" + "certificates";
            Grants(Rebound({k}, Effective(d, u)), p) && !Grants({k}, p)
  {
    ViewerReads(d, u);
    assert "certificates"[11] == 's' && (resource + ":*")[|resource| + 1] == '*';
    StrayAt(Effective(d, u), "read", resource, "certificates");
  }

  lemma ViewerReads(d: Directory, u: User)
    requires u.role == "viewer"
    ensures "read" + ":" + "certificates" in Effective(d, u) && "*" !in Effective(d, u)
  {
    assert RolePermissions("viewer")[0] == "read" + ":" + VIEWER_READ[0];
    assert RolePermissions("viewer")[0] in Elems(RolePermissions("viewer"));
    OnlyAdminHoldsStar(d, u);
  }

  lemma OnlyAdminHoldsStar(d: Directory, u: User)
    requires u.role != "admin"
    ensures "*" !in Effective(d, u)
  {
    if "*" in Effective(d, u) {
      EffectiveIsOrdinary(d, u, "*");
    }
  }

  /** Re-binding twice is re-binding once, for any text. */
  lemma RebindIdempotent(key: set<string>, owner: set<string>)
    ensures Rebound(Rebound(key, owner), owner) == Rebound(key, owner)
  {
  }

  /** `more` grants whatever `held` grants. */
  ghost predicate AtMost(held: set<string>, more: set<string>) {
    forall q :: Grants(held, q) ==> Grants(more, q)
  }

  /** More rights for the owner never mean fewer for a tidy key. */
  lemma RebindMonotone(key: set<string>, owner: set<string>, more: set<string>)
    requires Tidy(key) && AllWellFormed(owner) && AllWellFormed(more) && AtMost(owner, more)
    ensures AtMost(Rebound(key, owner), Rebound(key, more))
  {
    MeetsEveryOwnerIff(key);
  }

  /** Re-binding is monotone in the owner, if and only if the key is tidy. */
  lemma RebindMonotoneIff(key: set<string>)
    ensures (forall owner, more | AllWellFormed(owner) && AllWellFormed(more) && AtMost(owner, more) ::
               AtMost(Rebound(key, owner), Rebound(key, more))) <==> Tidy(key)
  {
    if Tidy(key) {
      forall owner, more | AllWellFormed(owner) && AllWellFormed(more) && AtMost(owner, more)
        ensures AtMost(Rebound(key, owner), Rebound(key, more)) {
        RebindMonotone(key, owner, more);
      }
    } else {
      var k :| k in key && EndsInWildcard(k) && Wildcard(Category(k)) !in key;
      UntidyShrinks(key, k);
    }
  }

  lemma UntidyShrinks(key: set<string>, k: string)
    requires "*" !in key && k in key && EndsInWildcard(k) && Wildcard(Category(k)) !in key
    ensures var owner, more := {Wildcard(Category(k))}, {"*"};
            && AllWellFormed(owner) && AllWellFormed(more) && AtMost(owner, more)
            && !AtMost(Rebound(key, owner), Rebound(key, more))
  {
    var w := Wildcard(Category(k));
    WildcardIsWellFormed(k);
    WildcardGrantedIff(key, k);
    assert w in Expanded(key, {w});
    assert Grants(Rebound(key, {w}), w) && !Grants(Rebound(key, {"*"}), w);
  }

  /** The key of any viewer with a stored `read:cas:*`, or any other resource in its place, passes
      `read:certificates`, and no longer does once its owner is made administrator. */
  lemma PromotionShrinks(d: Directory, viewer: User, admin: User, resource: string)
    requires viewer.role == "viewer" && admin.role == "admin"
    ensures var k, p := "read" + ":" + (resource + ":*"), "read" + ":" + "certificates";
            && Grants(Rebound({k}, Effective(d, viewer)), p)
            && !Grants(Rebound({k}, Effective(d, admin)), p)
  {
    StrayWildcard(d, viewer, resource);
    AdminHoldsStar(d, admin);
  }

  lemma AdminHoldsStar(d: Directory, u: User)
    requires u.role == "admin"
    ensures "*" in Effective(d, u)
  {
    assert RolePermissions(u.role)[0] == "*";
  }

  // ---- A key whose owner holds all of it ------------------------------------------

  /** A scope that a user other than an administrator holds is held as such and is no wildcard. */
  lemma HeldPlainly(d: Directory, u: User, k: string)
    requires u.role != "admin" && Grants(Effective(d, u), k)
    ensures k in Effective(d, u) && '*' !in k
  {
    var held, w := Effective(d, u), Wildcard(Category(k));
    assert "*"[0] == '*' && w[|w| - 1] == '*';
    if q :| q in held && q in {"*", k, w} {
      EffectiveIsOrdinary(d, u, q);
    }
  }

  lemma WildcardsHaveStars(k: string)
    ensures EndsInWildcard(k) || k == "*" ==> '*' in k
  {
    if EndsInWildcard(k) {
      assert k[|k| - 1] == k[|k| - 2..][1];
    } else if k == "*" {
      assert k[0] == '*';
    }
  }

  lemma HeldKeyIsWhole(d: Directory, u: User, key: set<string>)
    requires u.role != "admin" && forall k | k in key :: Grants(Effective(d, u), k)
    ensures Rebound(key, Effective(d, u)) == key
  {
    var held := Effective(d, u);
    OnlyAdminHoldsStar(d, u);
    forall k | k in key ensures k in held && !EndsInWildcard(k) && k != "*" {
      HeldPlainly(d, u, k);
      WildcardsHaveStars(k);
    }
    assert Expanded(key, held) == {} && Retained(key, held) == key;
  }

  /** For any stored text: re-binding leaves the key as it is stored, if and only if its owner holds
      every stored scope. */
  lemma WholeKeyIff(d: Directory, u: User, key: set<string>)
    ensures Rebound(key, Effective(d, u)) == key <==> forall k | k in key :: Grants(Effective(d, u), k)
  {
    var held := Effective(d, u);
    if u.role == "admin" {
      AdminHoldsStar(d, u);
    } else {
      if forall k | k in key :: Grants(held, k) {
        HeldKeyIsWhole(d, u, key);
      }
      if Rebound(key, held) == key {
        forall k | k in key ensures Grants(held, k) {
          NeverWidens(key, held, k);
        }
      }
    }
  }

  // ---- Requests over histories --------------------------------------------------

  /** A stored key. `scopes` is `None` when the stored text is not JSON. */
  datatype ApiKey = ApiKey(owner: int, active: bool, expiresAt: Option<int>,
                           scopes: Option<seq<string>>, lastUsed: Option<int>)

  datatype State = State(directory: Directory, users: map<int, User>, keys: map<int, ApiKey>)

  datatype Event =
    | SetUser(user: int, account: User)
    | RemoveUser(user: int)
    | SetRole(role: int, definition: Role)
    | RemoveRole(role: int)
    | SetGroup(group: int, permissions: Stored)
    | RemoveGroup(group: int)
    | Use(key: int, now: int)

  /** The key is active, unexpired, and its owner exists and is active. */
  ghost predicate Usable(s: State, key: int, now: int) {
    && key in s.keys && s.keys[key].active
    && (s.keys[key].expiresAt.Some? ==> s.keys[key].expiresAt.value >= now)
    && s.keys[key].owner in s.users && s.users[s.keys[key].owner].active
  }

  ghost function StoredScopes(k: ApiKey): set<string> {
    if k.scopes.Some? then Elems(k.scopes.value) else {}
  }

  ghost function OwnerHolds(s: State, key: int): set<string>
    requires key in s.keys && s.keys[key].owner in s.users
  {
    Effective(s.directory, s.users[s.keys[key].owner])
  }

  /** The request presents `key` at `now` and passes the check for `required`. */
  ghost predicate KeyPasses(s: State, key: int, now: int, required: string) {
    && Usable(s, key, now)
    && Grants(Rebound(StoredScopes(s.keys[key]), OwnerHolds(s, key)), required)
  }

  ghost predicate OwnerPasses(s: State, key: int, required: string)
    requires key in s.keys && s.keys[key].owner in s.users
  {
    Grants(OwnerHolds(s, key), required)
  }

  ghost function Apply(s: State, e: Event): State {
    match e
    case SetUser(u, account) => s.(users := s.users[u := account])
    case RemoveUser(u) => s.(users := s.users - {u})
    case SetRole(r, definition) => s.(directory := s.directory.(roles := s.directory.roles[r := definition]))
    case RemoveRole(r) => s.(directory := s.directory.(roles := s.directory.roles - {r}))
    case SetGroup(g, p) => s.(directory := s.directory.(groups := s.directory.groups[g := p]))
    case RemoveGroup(g) => s.(directory := s.directory.(groups := s.directory.groups - {g}))
    case Use(k, now) =>
      if Usable(s, k, now) then s.(keys := s.keys[k := s.keys[k].(lastUsed := Some(now))]) else s
  }

  ghost function After(s: State, history: seq<Event>): State {
    if history == [] then s
    else Apply(After(s, history[..|history| - 1]), history[|history| - 1])
  }

  /** Authenticating a key: the new state is that of a `Use` event, and the permissions
      returned are the re-bound scopes. */
  class KeyStore {
    var directory: Directory
    var users: map<int, User>
    var keys: map<int, ApiKey>

    ghost function View(): State
      reads this
    {
      State(directory, users, keys)
    }

    method VerifyApiKey(key: int, now: int) returns (perms: Option<seq<string>>)
      modifies `keys
      ensures View() == Apply(old(View()), Use(key, now))
      ensures perms.Some? <==> old(Usable(View(), key, now))
      ensures perms.Some? ==>
        Elems(perms.value) == old(Rebound(StoredScopes(keys[key]), OwnerHolds(View(), key)))
    {
      if key !in keys || !keys[key].active {
        return None;
      }
      var k := keys[key];
      if k.expiresAt.Some? && k.expiresAt.value < now {
        return None;
      }
      if k.owner !in users || !users[k.owner].active {
        return None;
      }
      keys := keys[key := k.(lastUsed := Some(now))];
      var stored := if k.scopes.Some? then k.scopes.value else [];
      var held := EffectivePermissions(directory, users[k.owner]);
      var rebound := Rebind(stored, held);
      return Some(rebound);
    }
  }

  lemma {:induction false} ScopesNeverChange(s: State, history: seq<Event>, key: int)
    requires key in s.keys
    ensures var t := After(s, history);
            key in t.keys && t.keys[key].scopes == s.keys[key].scopes && t.keys[key].owner == s.keys[key].owner
  {
    if history != [] {
      ScopesNeverChange(s, history[..|history| - 1], key);
    }
  }

  lemma EffectiveWellFormed(d: Directory, u: User)
    ensures AllWellFormed(Effective(d, u))
  {
    forall p | p in Effective(d, u) ensures WellFormed(p) {
      if u.role != "admin" {
        EffectiveIsOrdinary(d, u, p);
      }
    }
  }

  /** After any history of role, group and account changes and requests: a key passes only
      checks its owner passes at that moment. With tidy stored scopes, as well-formed ones are, it
      passes exactly those of them its stored scopes grant. */
  lemma KeyPowerOverHistory(s: State, history: seq<Event>, key: int, now: int, required: string)
    requires key in s.keys
    ensures var t := After(s, history);
            && (KeyPasses(t, key, now, required) ==> OwnerPasses(t, key, required))
            && (Tidy(StoredScopes(s.keys[key])) && Usable(t, key, now) ==>
                  (KeyPasses(t, key, now, required) <==>
                   OwnerPasses(t, key, required) && Grants(StoredScopes(s.keys[key]), required)))
  {
    var t := After(s, history);
    ScopesNeverChange(s, history, key);
    if Usable(t, key, now) {
      var held := OwnerHolds(t, key);
      var stored := StoredScopes(s.keys[key]);
      if Grants(Rebound(stored, held), required) {
        NeverWidens(stored, held, required);
      }
      if Tidy(stored) {
        EffectiveWellFormed(t.directory, t.users[t.keys[key].owner]);
        MeetsEveryOwnerIff(stored);
      }
    }
  }

  /** After any history and for any stored text: the key is back to its stored scopes, neither more
      nor less, if and only if its owner holds every one of them, and then it passes exactly what
      they grant. */
  lemma RestorationOverHistory(s: State, history: seq<Event>, key: int, now: int, required: string)
    requires key in s.keys && Usable(After(s, history), key, now)
    ensures var t, stored := After(s, history), StoredScopes(s.keys[key]);
            && (Rebound(StoredScopes(t.keys[key]), OwnerHolds(t, key)) == stored <==>
                (forall k | k in stored :: OwnerPasses(t, key, k)))
            && ((forall k | k in stored :: OwnerPasses(t, key, k)) ==>
                  (KeyPasses(t, key, now, required) <==> Grants(stored, required)))
  {
    var t := After(s, history);
    ScopesNeverChange(s, history, key);
    WholeKeyIff(t.directory, t.users[t.keys[key].owner], StoredScopes(s.keys[key]));
  }

  /** A reserved scope is passed by a key exactly when its owner is the built-in
      administrator and its stored scopes grant it. */
  lemma ReservedThroughKey(s: State, key: int, now: int, required: string)
    requires Usable(s, key, now) && Reserved(required)
    ensures KeyPasses(s, key, now, required) <==>
            s.users[s.keys[key].owner].role == "admin" && Grants(StoredScopes(s.keys[key]), required)
  {
    var u := s.users[s.keys[key].owner];
    var stored, held := StoredScopes(s.keys[key]), OwnerHolds(s, key);
    ReservedOnlyForAdmin(s.directory, u, required);
    if u.role == "admin" {
      assert RolePermissions(u.role)[0] == "*";
    } else if Grants(Rebound(stored, held), required) {
      NeverWidens(stored, held, required);
    }
  }
}
