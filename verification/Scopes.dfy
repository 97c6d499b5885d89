/** Permission scopes as text, the wildcard matcher of `auth/unified.py`, and the
    tables of `auth/permissions.py`. */
module Scopes {

  /** The text before the first colon; all of it when there is none. */
  function Category(s: string): string {
    if s == [] || s[0] == ':' then [] else [s[0]] + Category(s[1..])
  }

  /** The category wildcard `c:*`. */
  function Wildcard(category: string): string {
    category + ":*"
  }

  predicate EndsInWildcard(s: string) {
    |s| >= 2 && s[|s| - 2..] == ":*"
  }

  /** `action:resource` or `category:*`: one colon, no more. */
  predicate OneColon(s: string) {
    ':' in s && |Category(s)| < |s| && ':' !in s[|Category(s)| + 1..]
  }

  /** The shapes a scope is meant to have. */
  predicate WellFormed(s: string) {
    s == "*" || OneColon(s)
  }

  /** The matcher: `*`, an exact entry, or the wildcard of the category. */
  ghost predicate Grants(held: set<string>, required: string) {
    || "*" in held
    || required in held
    || (':' in required && Wildcard(Category(required)) in held)
  }

  lemma {:induction false} CategoryShape(s: string)
    ensures |Category(s)| <= |s| && Category(s) == s[..|Category(s)|] && ':' !in Category(s)
    ensures ':' in s <==> |Category(s)| < |s|
    ensures ':' in s ==> s[|Category(s)|] == ':'
  {
    if s != [] && s[0] != ':' {
      CategoryShape(s[1..]);
      assert s == [s[0]] + s[1..];
    }
  }

  lemma {:induction false} CategoryOf(category: string, rest: string)
    requires ':' !in category
    ensures Category(category + ":" + rest) == category
  {
    if category == [] {
    } else {
      CategoryOf(category[1..], rest);
      assert (category + ":" + rest)[1..] == category[1..] + ":" + rest;
    }
  }

  lemma WildcardShape(s: string)
    ensures ':' in Wildcard(Category(s)) && EndsInWildcard(Wildcard(Category(s)))
    ensures Category(Wildcard(Category(s))) == Category(s)
  {
    CategoryShape(s);
    CategoryOf(Category(s), "*");
    assert Wildcard(Category(s)) == Category(s) + ":" + "*";
  }

  /** A well-formed scope ending in `:*` is the wildcard of its category. */
  lemma WellFormedWildcard(s: string)
    requires OneColon(s) && EndsInWildcard(s)
    ensures s == Wildcard(Category(s))
  {
    CategoryShape(s);
    var n := |Category(s)|;
    forall i | n + 1 <= i < |s| ensures s[i] != ':' {
      assert s[n + 1..][i - n - 1] == s[i];
    }
    assert s[|s| - 2..][0] == ':' && s[|s| - 2..][1] == '*';
  }

  // ---- The tables -----------------------------------------------------------

  /** `action:r` for each resource. */
  function On(action: string, resources: seq<string>): (r: seq<string>)
    ensures |r| == |resources|
    ensures forall i | 0 <= i < |r| :: r[i] == action + ":" + resources[i]
  {
    seq(|resources|, i requires 0 <= i < |resources| => action + ":" + resources[i])
  }

  const OPERATOR_READ: seq<string> :=
    ["certificates", "user_certificates", "cas", "csrs", "templates", "truststore", "crl", "acme",
     "scep", "est", "xcep", "wstep", "kerberos", "ad_connector", "hsm", "ssh", "ssh_cas", "policies",
     "approvals", "key_recovery", "audit", "settings", "groups"]

  const OPERATOR_WRITE: seq<string> :=
    ["certificates", "user_certificates", "cas", "csrs", "truststore", "crl", "acme", "ssh",
     "ssh_cas", "approvals", "key_recovery", "settings", "groups"]

  const OPERATOR_DELETE: seq<string> := ["user_certificates", "csrs", "acme", "ssh", "ssh_cas"]

  const AUDITOR_READ: seq<string> :=
    ["certificates", "user_certificates", "cas", "csrs", "templates", "truststore", "crl", "acme",
     "scep", "est", "xcep", "wstep", "kerberos", "ad_connector", "hsm", "ssh", "ssh_cas", "policies",
     "approvals", "audit", "groups"]

  const VIEWER_READ: seq<string> :=
    ["certificates", "user_certificates", "cas", "csrs", "templates", "truststore", "ssh", "ssh_cas"]

  function Operator(): seq<string> {
    On("read", OPERATOR_READ) + On("write", OPERATOR_WRITE) + On("delete", OPERATOR_DELETE)
  }

  /** `get_role_permissions`: an unknown role holds nothing. */
  function RolePermissions(role: string): seq<string> {
    if role == "admin" then ["*"]
    else if role == "operator" then Operator()
    else if role == "auditor" then On("read", AUDITOR_READ)
    else if role == "viewer" then On("read", VIEWER_READ)
    else []
  }

  predicate GroupGrantable(p: string) {
    && (p in Operator() || p in On("read", AUDITOR_READ) || p in On("read", VIEWER_READ))
    && ':' in p && Category(p) != "admin"
  }

  const CUSTOM_READ: seq<string> :=
    ["acme", "ad_connector", "approvals", "audit", "cas", "certificates", "crl", "csrs", "est",
     "groups", "hsm", "kerberos", "key_recovery", "policies", "private_keys", "scep", "settings",
     "ssh", "ssh_cas", "templates", "truststore", "user_certificates", "users", "wstep", "xcep"]

  const CUSTOM_WRITE: seq<string> :=
    ["acme", "approvals", "cas", "certificates", "crl", "csrs", "est", "groups", "kerberos",
     "key_recovery", "policies", "scep", "settings", "ssh", "ssh_cas", "templates", "truststore",
     "user_certificates", "wstep", "xcep"]

  const CUSTOM_DELETE: seq<string> :=
    ["acme", "cas", "certificates", "csrs", "groups", "hsm", "policies", "settings", "ssh",
     "ssh_cas", "templates", "truststore", "user_certificates"]

  predicate CustomGrantable(p: string) {
    || p in On("read", CUSTOM_READ)
    || p in On("write", CUSTOM_WRITE)
    || p in On("delete", CUSTOM_DELETE)
    || p in On("export", ["audit"])
  }

  const RESERVED_READ: seq<string> := ["sso", "deploy", "system"]
  const RESERVED_WRITE: seq<string> := ["users", "sso", "deploy", "ad_connector", "hsm"]
  const RESERVED_DELETE: seq<string> := ["users", "sso", "deploy", "audit"]

  /** The reserved resources of an action. */
  function ReservedUnder(action: string): seq<string> {
    if action == "read" then RESERVED_READ
    else if action == "write" then RESERVED_WRITE
    else if action == "delete" then RESERVED_DELETE
    else []
  }

  predicate Listed(p: string) {
    || p in On("read", ReservedUnder("read"))
    || p in On("write", ReservedUnder("write"))
    || p in On("delete", ReservedUnder("delete"))
  }

  /** What only an administrator may hold: a wildcard, an `admin` action, or a listed scope. */
  predicate Reserved(p: string) {
    '*' in p || Category(p) == "admin" || Listed(p)
  }

  /** A concrete scope that is not kept for administrators. */
  predicate Ordinary(p: string) {
    OneColon(p) && !Reserved(p)
  }

  predicate Word(w: string) {
    forall i | 0 <= i < |w| :: w[i] != '*' && w[i] != ':'
  }

  lemma OnShape(action: string, resource: string)
    requires Word(action) && Word(resource)
    ensures var p := action + ":" + resource;
            OneColon(p) && '*' !in p && Category(p) == action && p[|action| + 1..] == resource
  {
    CategoryOf(action, resource);
  }

  lemma RowParts(action: string, resources: seq<string>, p: string)
    requires ':' !in action
    ensures p in On(action, resources) ==>
              Category(p) == action && |p| > |action| && p[|action| + 1..] in resources
  {
    if p in On(action, resources) {
      var i :| 0 <= i < |resources| && On(action, resources)[i] == p;
      CategoryOf(action, resources[i]);
      assert p[|action| + 1..] == resources[i];
    }
  }

  /** Every resource name the role and custom-role tables use. */
  const NAMES_A: seq<string> := ["acme", "ad_connector", "approvals", "audit", "cas", "certificates", "crl"]
  const NAMES_C: seq<string> := ["csrs", "est", "groups", "hsm", "kerberos", "key_recovery", "policies"]
  const NAMES_P: seq<string> := ["private_keys", "scep", "settings", "ssh", "ssh_cas", "templates"]
  const NAMES_T: seq<string> := ["truststore", "user_certificates", "users", "wstep", "xcep"]
  const NAMES: seq<string> := NAMES_A + NAMES_C + NAMES_P + NAMES_T

  lemma WordsA() ensures forall r | r in NAMES_A :: Word(r) {}
  lemma WordsC() ensures forall r | r in NAMES_C :: Word(r) {}
  lemma WordsP() ensures forall r | r in NAMES_P :: Word(r) {}
  lemma WordsT() ensures forall r | r in NAMES_T :: Word(r) {}

  lemma NamesAreWords()
    ensures forall r | r in NAMES :: Word(r)
    ensures Word("read") && Word("write") && Word("delete") && Word("export")
  {
    WordsA();
    WordsC();
    WordsP();
    WordsT();
  }

  lemma CustomNames()
    ensures forall r | r in CUSTOM_READ :: r in NAMES
    ensures forall r | r in CUSTOM_WRITE :: r in NAMES
    ensures forall r | r in CUSTOM_DELETE :: r in NAMES
  {
  }

  /** A table row whose scopes are all ordinary. */
  predicate CleanRow(action: string, resources: seq<string>) {
    && Word(action) && action != "admin"
    && forall r | r in resources :: Word(r) && r !in ReservedUnder(action)
  }

  lemma ListedParts(p: string)
    requires Listed(p)
    ensures var action := Category(p); |p| > |action| && p[|action| + 1..] in ReservedUnder(action)
  {
    if p in On("read", ReservedUnder("read")) {
      RowParts("read", ReservedUnder("read"), p);
    } else if p in On("write", ReservedUnder("write")) {
      RowParts("write", ReservedUnder("write"), p);
    } else {
      RowParts("delete", ReservedUnder("delete"), p);
    }
  }

  lemma CleanRowIsOrdinary(action: string, resources: seq<string>, p: string)
    requires CleanRow(action, resources) && p in On(action, resources)
    ensures Ordinary(p)
  {
    var i :| 0 <= i < |resources| && On(action, resources)[i] == p;
    OnShape(action, resources[i]);
    if Listed(p) {
      ListedParts(p);
      assert false;
    }
  }

  lemma CustomReads() ensures forall r | r in CUSTOM_READ :: r !in RESERVED_READ {}
  lemma CustomWrites() ensures forall r | r in CUSTOM_WRITE :: r !in RESERVED_WRITE {}
  lemma CustomDeletes() ensures forall r | r in CUSTOM_DELETE :: r !in RESERVED_DELETE {}

  lemma CustomRowsAreClean()
    ensures CleanRow("read", CUSTOM_READ)
    ensures CleanRow("write", CUSTOM_WRITE)
    ensures CleanRow("delete", CUSTOM_DELETE)
    ensures CleanRow("export", ["audit"])
  {
    NamesAreWords();
    CustomNames();
    CustomReads();
    CustomWrites();
    CustomDeletes();
    assert "audit" in NAMES_A;
  }

  /** No custom role can grant what is kept for administrators. */
  lemma CustomGrantsAreOrdinary(p: string)
    requires CustomGrantable(p)
    ensures Ordinary(p)
  {
    CustomRowsAreClean();
    if p in On("read", CUSTOM_READ) {
      CleanRowIsOrdinary("read", CUSTOM_READ, p);
    } else if p in On("write", CUSTOM_WRITE) {
      CleanRowIsOrdinary("write", CUSTOM_WRITE, p);
    } else if p in On("delete", CUSTOM_DELETE) {
      CleanRowIsOrdinary("delete", CUSTOM_DELETE, p);
    } else {
      CleanRowIsOrdinary("export", ["audit"], p);
    }
  }

  lemma RolesWithinCustom()
    ensures forall r | r in OPERATOR_READ :: r in CUSTOM_READ
    ensures forall r | r in OPERATOR_WRITE :: r in CUSTOM_WRITE
    ensures forall r | r in OPERATOR_DELETE :: r in CUSTOM_DELETE
    ensures forall r | r in AUDITOR_READ :: r in CUSTOM_READ
    ensures forall r | r in VIEWER_READ :: r in CUSTOM_READ
  {
  }

  lemma OnWithin(action: string, small: seq<string>, large: seq<string>, p: string)
    requires forall r | r in small :: r in large
    ensures p in On(action, small) ==> p in On(action, large)
  {
    if p in On(action, small) {
      var i :| 0 <= i < |small| && On(action, small)[i] == p;
      assert small[i] in large;
      var j :| 0 <= j < |large| && large[j] == small[i];
      assert On(action, large)[j] == p;
    }
  }

  /** Every built-in role but `admin` grants only what a custom role could. */
  lemma RoleGrantsAreOrdinary(role: string, p: string)
    requires role != "admin" && p in RolePermissions(role)
    ensures CustomGrantable(p) && Ordinary(p)
  {
    RolesWithinCustom();
    OnWithin("read", OPERATOR_READ, CUSTOM_READ, p);
    OnWithin("write", OPERATOR_WRITE, CUSTOM_WRITE, p);
    OnWithin("delete", OPERATOR_DELETE, CUSTOM_DELETE, p);
    OnWithin("read", AUDITOR_READ, CUSTOM_READ, p);
    OnWithin("read", VIEWER_READ, CUSTOM_READ, p);
    CustomGrantsAreOrdinary(p);
  }

  lemma GroupGrantsAreOrdinary(p: string)
    requires GroupGrantable(p)
    ensures Ordinary(p)
  {
    RoleGrantsAreOrdinary(
      if p in Operator() then "operator" else if p in On("read", AUDITOR_READ) then "auditor" else "viewer", p);
  }
}
