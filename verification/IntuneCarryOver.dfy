/** Migration 092: Intune credentials move from the SCEP profiles that held them to shared
    application rows, one per distinct tenant, client and plain secret. */
module IntuneCarryOver {
  import opened Prelude
  import opened FreshNames

  /** When and how the credentials were last tried. */
  datatype Trial = Trial(at: Option<string>, result: Option<string>)

  datatype App = App(id: int, name: string, tenant: string, client: string, secret: string, trial: Trial)

  /** An empty text stands for NULL. */
  datatype Profile = Profile(id: int, name: string, tenant: string, client: string, secret: string,
                             trial: Trial, app: Option<int>)

  /** Tenant, client and plain secret. */
  type Key = (string, string, string)

  function AppKey(plain: string -> string, a: App): Key {
    (a.tenant, a.client, plain(a.secret))
  }

  function ProfileKey(plain: string -> string, p: Profile): Key {
    (p.tenant, p.client, plain(p.secret))
  }

  /** Profiles that carry credentials of their own. */
  predicate Legacy(p: Profile) {
    p.app.None? && p.tenant != "" && p.client != "" && p.secret != ""
  }

  ghost predicate UniqueIds(apps: seq<App>) {
    forall i, j | 0 <= i < j < |apps| :: apps[i].id != apps[j].id
  }

  ghost predicate UniqueNames(apps: seq<App>) {
    forall i, j | 0 <= i < j < |apps| :: apps[i].name != apps[j].name
  }

  ghost function Names(apps: seq<App>): set<string> {
    set i | 0 <= i < |apps| :: apps[i].name
  }

  /** `id` is an application with key `k`. */
  ghost predicate HasApp(plain: string -> string, apps: seq<App>, id: int, k: Key) {
    exists j | 0 <= j < |apps| :: apps[j].id == id && AppKey(plain, apps[j]) == k
  }

  /** `byKey` finds, for each key, an application with that key, and misses none. */
  ghost predicate Finds(plain: string -> string, apps: seq<App>, byKey: map<Key, int>) {
    && (forall k | k in byKey :: HasApp(plain, apps, byKey[k], k))
    && (forall j | 0 <= j < |apps| :: AppKey(plain, apps[j]) in byKey)
  }

  /** The profile after its credentials moved to application `id`. */
  function Bound(p: Profile, id: int): Profile {
    p.(app := Some(id), tenant := "", client := "", secret := "")
  }

  /** `a` was made from `p`: its secret and trial as stored, and the first name made from the
      profile's that was not `taken`. */
  ghost predicate MadeFrom(plain: string -> string, a: App, p: Profile, taken: set<string>) {
    && AppKey(plain, a) == ProfileKey(plain, p) && a.secret == p.secret && a.trial == p.trial
    && NamedFrom(a.name, p.name, taken)
  }

  ghost predicate NamedFrom(name: string, wanted: string, taken: set<string>) {
    exists n: nat :: n <= |taken| + 2 && FirstFree(PyTake(wanted, NAME_LIMIT), AppNames(wanted), taken, n, name)
  }

  /** `i` is the first legacy profile with its key. */
  ghost predicate FirstWithKey(plain: string -> string, profiles: seq<Profile>, i: nat) {
    && i < |profiles| && Legacy(profiles[i])
    && forall j | 0 <= j < i && Legacy(profiles[j]) :: ProfileKey(plain, profiles[j]) != ProfileKey(plain, profiles[i])
  }

  /** The profiles up to `n` are carried over: legacy ones bound through `byKey`, others as they were. */
  ghost predicate ProfilesCarried(plain: string -> string, before: seq<Profile>, after: seq<Profile>,
                                  byKey: map<Key, int>, n: nat)
    requires n <= |before|
  {
    && |after| == |before|
    && (forall i | 0 <= i < n && !Legacy(before[i]) :: after[i] == before[i])
    && (forall i | 0 <= i < n && Legacy(before[i]) ::
          ProfileKey(plain, before[i]) in byKey && after[i] == Bound(before[i], byKey[ProfileKey(plain, before[i])]))
    && (forall i | n <= i < |before| :: after[i] == before[i])
  }

  /** `a` was made from the first profile with its key, among the first `n`. */
  ghost predicate FromFirst(plain: string -> string, a: App, profiles: seq<Profile>, n: nat, taken: set<string>) {
    exists i: nat :: i < n && FirstWithKey(plain, profiles, i) && MadeFrom(plain, a, profiles[i], taken)
  }

  /** The applications added: existing rows untouched, one new row for each key that had none,
      made from the first profile with that key. */
  ghost predicate AppsAdded(plain: string -> string, before: seq<App>, after: seq<App>, profiles: seq<Profile>, n: nat)
    requires n <= |profiles|
  {
    && before <= after
    && (forall j | |before| <= j < |after| ::
          FromFirst(plain, after[j], profiles, n, Names(after[..j])))
    && (forall j, k | |before| <= j < |after| && 0 <= k < j :: AppKey(plain, after[j]) != AppKey(plain, after[k]))
  }

  /** The first `n` profiles are dealt with. */
  ghost predicate Reached(plain: string -> string, first: seq<App>, rows: seq<Profile>,
                          apps: seq<App>, profiles: seq<Profile>, byKey: map<Key, int>, n: nat)
  {
    && n <= |rows|
    && Finds(plain, apps, byKey)
    && ProfilesCarried(plain, rows, profiles, byKey, n)
    && AppsAdded(plain, first, apps, rows, n)
  }

  ghost predicate CarriedOver(plain: string -> string, apps: seq<App>, profiles: seq<Profile>,
                              apps': seq<App>, profiles': seq<Profile>, byKey: map<Key, int>)
  {
    Reached(plain, apps, profiles, apps', profiles', byKey, |profiles|) && UniqueIds(apps') && UniqueNames(apps')
  }

  /** `p` was given application `id`: one the index finds, or a new one made from `p` and indexed. */
  ghost predicate Served(plain: string -> string, p: Profile, apps: seq<App>, byKey: map<Key, int>,
                         apps': seq<App>, byKey': map<Key, int>, id: int)
  {
    var k := ProfileKey(plain, p);
    if k in byKey then apps' == apps && byKey' == byKey && id == byKey[k]
    else
      && |apps'| == |apps| + 1 && apps <= apps' && apps'[|apps|].id == id
      && MadeFrom(plain, apps'[|apps|], p, Names(apps)) && byKey' == byKey[k := id]
  }

  /** `p` became `p'`: bound to the application it was given if it was legacy, otherwise untouched. */
  ghost predicate RowDone(plain: string -> string, p: Profile, apps: seq<App>, byKey: map<Key, int>,
                          p': Profile, apps': seq<App>, byKey': map<Key, int>)
  {
    if Legacy(p) then
      p'.app.Some? && p' == Bound(p, p'.app.value) && Served(plain, p, apps, byKey, apps', byKey', p'.app.value)
    else p' == p && apps' == apps && byKey' == byKey
  }

  class Tables {
    var apps: seq<App>
    var profiles: seq<Profile>      // in order of id
    var nextId: int

    ghost predicate Valid()
      reads this
    {
      && UniqueIds(apps) && UniqueNames(apps)
      && forall i | 0 <= i < |apps| :: apps[i].id < nextId
    }

    /** The index of existing applications; of two with one key the later wins. */
    method IndexApps(plain: string -> string) returns (byKey: map<Key, int>, taken: set<string>)
      ensures Finds(plain, apps, byKey)
      ensures taken == Names(apps)
    {
      byKey, taken := map[], {};
      for i := 0 to |apps|
        invariant Finds(plain, apps[..i], byKey)
        invariant taken == Names(apps[..i])
      {
        assert apps[..i + 1] == apps[..i] + [apps[i]];
        FindsMore(plain, apps[..i], apps[i], byKey);
        NamesMore(apps[..i], apps[i]);
        byKey := byKey[AppKey(plain, apps[i]) := apps[i].id];
        taken := taken + {apps[i].name};
      }
      assert apps[..|apps|] == apps;
    }

    /** A new application for a profile whose key has none. */
    method NewApp(plain: string -> string, p: Profile, taken: set<string>) returns (app: App)
      ensures MadeFrom(plain, app, p, taken) && app.id == nextId && app.name !in taken
    {
      var name, n := UniqueName(taken, p.name);
      app := App(nextId, name, p.tenant, p.client, p.secret, p.trial);
    }

    method Insert(app: App)
      requires Valid() && app.id == nextId && app.name !in Names(apps)
      modifies `apps, `nextId
      ensures Valid() && apps == old(apps) + [app]
    {
      NamesMore(apps, app);
      apps := apps + [app];
      nextId := nextId + 1;
    }

    /** The application for a profile: the one the index finds, or a new one. */
    method AppFor(plain: string -> string, p: Profile, byKey: map<Key, int>, taken: set<string>)
      returns (id: int, byKey': map<Key, int>, taken': set<string>)
      requires Valid() && taken == Names(apps)
      modifies `apps, `nextId
      ensures Valid() && taken' == Names(apps)
      ensures Served(plain, p, old(apps), byKey, apps, byKey', id)
    {
      var k := ProfileKey(plain, p);
      if k in byKey {
        return byKey[k], byKey, taken;
      }
      var app := NewApp(plain, p, taken);
      NamesMore(apps, app);
      Insert(app);
      return app.id, byKey[k := app.id], taken + {app.name};
    }

    /** One profile: a legacy one is bound to its application and its own copy cleared. */
    method CarryRow(plain: string -> string, i: nat, byKey: map<Key, int>, taken: set<string>)
      returns (byKey': map<Key, int>, taken': set<string>)
      requires Valid() && taken == Names(apps) && i < |profiles|
      modifies this
      ensures Valid() && taken' == Names(apps)
      ensures |profiles| == old(|profiles|) && profiles == old(profiles)[i := profiles[i]]
      ensures RowDone(plain, old(profiles[i]), old(apps), byKey, profiles[i], apps, byKey')
    {
      byKey', taken' := byKey, taken;
      if Legacy(profiles[i]) {
        var id;
        id, byKey', taken' := AppFor(plain, profiles[i], byKey, taken);
        profiles := profiles[i := Bound(profiles[i], id)];
      }
    }

    method CarryOver(plain: string -> string) returns (byKey: map<Key, int>)
      requires Valid()
      modifies this
      ensures Valid() && CarriedOver(plain, old(apps), old(profiles), apps, profiles, byKey)
    {
      var taken;
      byKey, taken := IndexApps(plain);
      ghost var first, rows := apps, profiles;
      ReachedNone(plain, apps, profiles, byKey);
      var i := 0;
      while i < |profiles|
        invariant Valid() && taken == Names(apps)
        invariant i <= |profiles| == |rows| && Reached(plain, first, rows, apps, profiles, byKey, i)
      {
        ghost var sofar, index, was := apps, byKey, profiles;
        byKey, taken := CarryRow(plain, i, byKey, taken);
        ReachedRow(plain, first, rows, sofar, was, index, i, profiles[i], apps, byKey);
        i := i + 1;
      }
    }
  }

  lemma ReachedNone(plain: string -> string, apps: seq<App>, profiles: seq<Profile>, byKey: map<Key, int>)
    requires Finds(plain, apps, byKey)
    ensures Reached(plain, apps, profiles, apps, profiles, byKey, 0)
  {
  }

  lemma NamesMore(apps: seq<App>, a: App)
    ensures Names(apps + [a]) == Names(apps) + {a.name}
    ensures UniqueNames(apps) && a.name !in Names(apps) ==> UniqueNames(apps + [a])
  {
    var more := apps + [a];
    assert more[|apps|] == a && forall j | 0 <= j < |apps| :: more[j] == apps[j];
    assert forall j | 0 <= j < |apps| :: apps[j].name in Names(apps);
  }

  lemma CarriedOne(plain: string -> string, before: seq<Profile>, after: seq<Profile>,
                   byKey: map<Key, int>, byKey': map<Key, int>, n: nat)
    requires n < |before| && ProfilesCarried(plain, before, after, byKey, n) && Legacy(before[n])
    requires ProfileKey(plain, before[n]) in byKey'
    requires forall k | k in byKey :: k in byKey' && byKey'[k] == byKey[k]
    ensures ProfilesCarried(plain, before, after[n := Bound(before[n], byKey'[ProfileKey(plain, before[n])])],
                            byKey', n + 1)
  {
  }

  lemma AddedNone(plain: string -> string, before: seq<App>, apps: seq<App>, profiles: seq<Profile>, n: nat)
    requires n < |profiles| && AppsAdded(plain, before, apps, profiles, n)
    ensures AppsAdded(plain, before, apps, profiles, n + 1)
  {
  }

  lemma AddedOne(plain: string -> string, before: seq<App>, apps: seq<App>, a: App,
                 profiles: seq<Profile>, carried: seq<Profile>, byKey: map<Key, int>, n: nat)
    requires n < |profiles| && AppsAdded(plain, before, apps, profiles, n)
    requires Finds(plain, apps, byKey) && ProfilesCarried(plain, profiles, carried, byKey, n)
    requires Legacy(profiles[n]) && ProfileKey(plain, profiles[n]) !in byKey 
    requires MadeFrom(plain, a, profiles[n], Names(apps))
    ensures AppsAdded(plain, before, apps + [a], profiles, n + 1)
  {
    var more := apps + [a];
    assert forall j | 0 <= j <= |apps| :: more[..j] == apps[..j];
    assert apps[..|apps|] == apps && FirstWithKey(plain, profiles, n);
    assert FromFirst(plain, a, profiles, n + 1, Names(apps));
    forall j | |before| <= j < |more| ensures FromFirst(plain, more[j], profiles, n + 1, Names(more[..j])) {
      if j < |apps| {
        assert FromFirst(plain, apps[j], profiles, n, Names(apps[..j]));
      }
    }
  }

  lemma ReachedNew(plain: string -> string, first: seq<App>, rows: seq<Profile>, apps: seq<App>,
                   profiles: seq<Profile>, byKey: map<Key, int>, i: nat, a: App)
    requires Reached(plain, first, rows, apps, profiles, byKey, i) && i < |rows| && Legacy(rows[i])
    requires ProfileKey(plain, rows[i]) !in byKey && MadeFrom(plain, a, rows[i], Names(apps))
    ensures Reached(plain, first, rows, apps + [a], profiles[i := Bound(rows[i], a.id)],
                    byKey[ProfileKey(plain, rows[i]) := a.id], i + 1)
  {
    FindsMore(plain, apps, a, byKey);
    AddedOne(plain, first, apps, a, rows, profiles, byKey, i);
    CarriedOne(plain, rows, profiles, byKey, byKey[ProfileKey(plain, rows[i]) := a.id], i);
  }

  /** One more profile is dealt with once it is bound to the application it was given. */
  lemma ReachedNext(plain: string -> string, first: seq<App>, rows: seq<Profile>, apps: seq<App>,
                    profiles: seq<Profile>, byKey: map<Key, int>, i: nat,
                    apps': seq<App>, byKey': map<Key, int>, id: int)
    requires Reached(plain, first, rows, apps, profiles, byKey, i) && i < |rows| && Legacy(rows[i])
    requires Served(plain, rows[i], apps, byKey, apps', byKey', id)
    ensures Reached(plain, first, rows, apps', profiles[i := Bound(rows[i], id)], byKey', i + 1)
  {
    if ProfileKey(plain, rows[i]) in byKey {
      AddedNone(plain, first, apps, rows, i);
      CarriedOne(plain, rows, profiles, byKey, byKey, i);
    } else {
      assert apps' == apps + [apps'[|apps|]];
      ReachedNew(plain, first, rows, apps, profiles, byKey, i, apps'[|apps|]);
    }
  }

  lemma ReachedRow(plain: string -> string, first: seq<App>, rows: seq<Profile>, apps: seq<App>,
                   profiles: seq<Profile>, byKey: map<Key, int>, i: nat,
                   p: Profile, apps': seq<App>, byKey': map<Key, int>)
    requires Reached(plain, first, rows, apps, profiles, byKey, i) && i < |profiles|
    requires RowDone(plain, profiles[i], apps, byKey, p, apps', byKey')
    ensures Reached(plain, first, rows, apps', profiles[i := p], byKey', i + 1)
  {
    assert profiles[i] == rows[i];
    if Legacy(rows[i]) {
      ReachedNext(plain, first, rows, apps, profiles, byKey, i, apps', byKey', p.app.value);
    } else {
      AddedNone(plain, first, apps, rows, i);
      assert profiles[i := p] == profiles;
    }
  }

  lemma FindsMore(plain: string -> string, apps: seq<App>, a: App, byKey: map<Key, int>)
    requires Finds(plain, apps, byKey)
    ensures Finds(plain, apps + [a], byKey[AppKey(plain, a) := a.id])
  {
    var more, byKey' := apps + [a], byKey[AppKey(plain, a) := a.id];
    forall k | k in byKey' ensures HasApp(plain, more, byKey'[k], k) {
      if k == AppKey(plain, a) {
        assert more[|apps|] == a;
      } else {
        var j :| 0 <= j < |apps| && apps[j].id == byKey[k] && AppKey(plain, apps[j]) == k;
        assert more[j] == apps[j];
      }
    }
  }

  // ---- What the migration preserves ---------------------------------------------------

  /** Each legacy profile ends bound to an application with the tenant, client and plain secret it
      held, its own copy cleared; every other profile and every existing application is as before. */
  lemma MeaningPreserved(plain: string -> string, apps: seq<App>, profiles: seq<Profile>,
                         apps': seq<App>, profiles': seq<Profile>, byKey: map<Key, int>, i: nat)
    requires CarriedOver(plain, apps, profiles, apps', profiles', byKey) && i < |profiles|
    ensures apps <= apps' && |profiles'| == |profiles|
    ensures !Legacy(profiles[i]) ==> profiles'[i] == profiles[i]
    ensures Legacy(profiles[i]) ==>
              && profiles'[i].app.Some? && profiles'[i] == Bound(profiles[i], profiles'[i].app.value)
              && exists j | 0 <= j < |apps'| ::
                   && apps'[j].id == profiles'[i].app.value
                   && AppKey(plain, apps'[j]) == ProfileKey(plain, profiles[i])
  {
  }

  /** Two carried profiles share an application exactly when tenant, client and plain secret agree. */
  lemma SharedExactly(plain: string -> string, apps: seq<App>, profiles: seq<Profile>,
                      apps': seq<App>, profiles': seq<Profile>, byKey: map<Key, int>, i: nat, j: nat)
    requires CarriedOver(plain, apps, profiles, apps', profiles', byKey)
    requires i < |profiles| && j < |profiles| && Legacy(profiles[i]) && Legacy(profiles[j])
    ensures profiles'[i].app == profiles'[j].app <==>
            ProfileKey(plain, profiles[i]) == ProfileKey(plain, profiles[j])
  {
  }

  ghost function Keys(plain: string -> string, apps: seq<App>): seq<Key> {
    seq(|apps|, i requires 0 <= i < |apps| => AppKey(plain, apps[i]))
  }

  ghost function LegacyKeys(plain: string -> string, profiles: seq<Profile>): set<Key> {
    set i | 0 <= i < |profiles| && Legacy(profiles[i]) :: ProfileKey(plain, profiles[i])
  }

  lemma InsertedIsNew(plain: string -> string, apps: seq<App>, profiles: seq<Profile>, apps': seq<App>)
    requires AppsAdded(plain, apps, apps', profiles, |profiles|)
    ensures var inserted := Keys(plain, apps'[|apps|..]);
            NoDup(inserted) && Elems(inserted) <= LegacyKeys(plain, profiles) - Elems(Keys(plain, apps))
  {
  }

  lemma NewIsInserted(plain: string -> string, apps: seq<App>, apps': seq<App>, byKey: map<Key, int>, k: Key)
    requires apps <= apps' && Finds(plain, apps', byKey) && k in byKey && k !in Keys(plain, apps)
    ensures k in Keys(plain, apps'[|apps|..])
  {
    assert HasApp(plain, apps', byKey[k], k);
    var j :| 0 <= j < |apps'| && AppKey(plain, apps'[j]) == k;
    assert forall i | 0 <= i < |apps| :: Keys(plain, apps)[i] == AppKey(plain, apps'[i]);
    assert Keys(plain, apps'[|apps|..])[j - |apps|] == k;
  }

  /** Exactly one application is inserted per key that had none. */
  lemma OneAppPerNewKey(plain: string -> string, apps: seq<App>, profiles: seq<Profile>,
                        apps': seq<App>, profiles': seq<Profile>, byKey: map<Key, int>)
    requires CarriedOver(plain, apps, profiles, apps', profiles', byKey)
    ensures var inserted := Keys(plain, apps'[|apps|..]);
            && NoDup(inserted)
            && Elems(inserted) == LegacyKeys(plain, profiles) - Elems(Keys(plain, apps))
            && |apps'| - |apps| == |LegacyKeys(plain, profiles) - Elems(Keys(plain, apps))|
  {
    InsertedIsNew(plain, apps, profiles, apps');
    forall k | k in LegacyKeys(plain, profiles) - Elems(Keys(plain, apps))
      ensures k in Keys(plain, apps'[|apps|..]) {
      NewIsInserted(plain, apps, apps', byKey, k);
    }
    NoDupSize(Keys(plain, apps'[|apps|..]));
  }

  lemma {:induction false} NamesSize(apps: seq<App>)
    ensures |Names(apps)| <= |apps|
  {
    if apps != [] {
      var front, last := apps[..|apps| - 1], apps[|apps| - 1];
      NamesSize(front);
      NamesMore(front, last);
      assert apps == front + [last];
    }
  }

  lemma FirstIsOne(plain: string -> string, profiles: seq<Profile>, i: nat, j: nat)
    requires FirstWithKey(plain, profiles, i) && FirstWithKey(plain, profiles, j)
    requires ProfileKey(plain, profiles[i]) == ProfileKey(plain, profiles[j])
    ensures i == j
  {
  }

  /** The name of an inserted application is within 100 characters exactly when the cut name of its
      profile, or a candidate with a short number, was free when it was inserted, as it is in every
      table of fewer than `10^97` rows. */
  lemma InsertedNameFitsIff(plain: string -> string, apps: seq<App>, profiles: seq<Profile>,
                            apps': seq<App>, profiles': seq<Profile>, byKey: map<Key, int>, j: nat, i: nat)
    requires CarriedOver(plain, apps, profiles, apps', profiles', byKey) && |apps| <= j < |apps'|
    requires FirstWithKey(plain, profiles, i) && ProfileKey(plain, profiles[i]) == AppKey(plain, apps'[j])
    ensures var wanted, taken := profiles[i].name, Names(apps'[..j]);
            |apps'[j].name| <= NAME_LIMIT <==>
            PyTake(wanted, NAME_LIMIT) !in taken || FreeBelow(AppNames(wanted), taken, NAME_NUMBERS)
    ensures j + 2 < NAME_NUMBERS ==> |apps'[j].name| <= NAME_LIMIT
  {
    var taken := Names(apps'[..j]);
    assert FromFirst(plain, apps'[j], profiles, |profiles|, taken);
    var f: nat :| f < |profiles| && FirstWithKey(plain, profiles, f) && MadeFrom(plain, apps'[j], profiles[f], taken);
    FirstIsOne(plain, profiles, f, i);
    var n: nat :| n <= |taken| + 2 &&
      FirstFree(PyTake(profiles[i].name, NAME_LIMIT), AppNames(profiles[i].name), taken, n, apps'[j].name);
    AppNameFound(profiles[i].name, taken, n, apps'[j].name);
    NamesSize(apps'[..j]);
  }

  lemma LastAdded(plain: string -> string, before: seq<App>, after: seq<App>, profiles: seq<Profile>)
    requires AppsAdded(plain, before, after, profiles, |profiles|)
    ensures after == before || FromFirst(plain, after[|after| - 1], profiles, |profiles|, Names(after[..|after| - 1]))
  {
  }

  /** After the migration no profile carries credentials of its own, and running it again changes
      neither table. */
  lemma RerunChangesNothing(plain: string -> string, apps: seq<App>, profiles: seq<Profile>, apps': seq<App>,
                            profiles': seq<Profile>, byKey: map<Key, int>,
                            apps'': seq<App>, profiles'': seq<Profile>, byKey': map<Key, int>)
    requires CarriedOver(plain, apps, profiles, apps', profiles', byKey)
    requires CarriedOver(plain, apps', profiles', apps'', profiles'', byKey')
    ensures forall i | 0 <= i < |profiles'| :: !Legacy(profiles'[i])
    ensures apps'' == apps' && profiles'' == profiles'
  {
    forall i | 0 <= i < |profiles'| ensures !Legacy(profiles'[i]) {
      assert Legacy(profiles[i]) || !Legacy(profiles[i]);
    }
    LastAdded(plain, apps', apps'', profiles');
  }
}
