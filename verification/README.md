# Ultimate CA Manager: a verified model of its core protocols

This project models, in Dafny, the parts of Ultimate CA Manager whose correctness depends on
interleavings, crashes, arbitrary stored data or arbitrary byte strings, and proves what they
promise for every such run or input.

- **CRLs on demand** (`CrlProtocol.dfy`, `CdpServer.dfy`). Any number of requests read a CRL store,
  share a guarded table of per-CA locks, re-check under the lock, and then generate, serve what is
  there, or give up. The protocol is a state machine over their steps; the server is the code between
  two scheduling points, and running any schedule of it is proved to reach what the protocol reaches. There is one worker process
  (`backend/gunicorn_config.py`, line 26), so the in-memory locks cover every request. Assumed of the
  code around it: `get_latest_crl` returns the newest row, a generation that succeeds stores a
  non-empty CRL that expires a positive window after the time it read (section 5.1.2.5 of RFC 5280),
  and other writers only add non-empty CRLs that do not expire before the one they replace.
- **Authorisation** (`ParentWalk.dfy`, `Scopes.dfy`, `Roles.dfy`, `ApiKeys.dfy`). Effective permissions
  are the built-in role, a custom role with everything it inherits along a graph that may be cyclic,
  and groups, each filtered on read. An API key is re-bound on every request to what its owner holds.
- **Sessions, gates and second factors** (`Sessions.dfy`, `SecondFactor.dfy`). Session lifetime over
  whole runs, two stacked restriction gates, and factor removals that interleave with enrolments and
  logins, most of them reading their guard under a row lock.
- **The migration ledger** (`Ledger.dfy`, `PgLedger.dfy`, `SqliteLedger.dfy`). A crash-and-restart
  machine: atomic transactions on PostgreSQL, commit before record on SQLite. The schema and what an
  upgrade does to it are abstract.
- **Two data migrations** (`Decimal.dfy`, `FreshNames.dfy`, `IntuneCarryOver.dfy`, `ProxySlugs.dfy`).
  Credentials move from profiles to shared application rows; both migrations search for a free name.
- **EST bodies** (`Base64.dfy`, `EstCodec.dfy`). Base64 as in section 4 of RFC 4648, folded, reframed
  and armoured, against a decoder that tolerates white space.
- **Boot** (`BootChain.dfy`, `MtlsBoot.dfy`). The client CA chain walk and the mTLS setting across
  restarts.

Where the source updates state step by step, the model is a class or a loop proved against a function,
a set or a relation that is defined without it; the theorems are about that definition.

Six things the source or its comments suggest hold only under a condition; each is proved as an if
and only if. All but the last have a failing input beside them.

- The custom-role chain covers the parent's chain exactly when at most 64 roles are reachable, and so
  do the grants (`Roles.ChainCoversParentIff`, `Roles.ChildInheritsIff`, `Roles.DeepRoleLost`); a role
  whose own list raises loses what it inherits (`Roles.ChildGrants`, `Roles.CompoundEntryLosesParent`).
- Re-binding a key is a meet exactly when no wildcard of the key pulls in an owner scope the key does
  not grant (`ApiKeys.MeetIff`, and `ApiKeys.MeetsEveryOwnerIff` on the key alone); a stored text such
  as `read:cas:*` is treated as `read:*` (`ApiKeys.StrayWildcard`). Creating a key refuses such a text (`backend/api/v2/account/apikeys.py`,
  line 92), so it can only be stored by another route. Well-formed scopes always meet
  (`ApiKeys.WellFormedMeet`). More rights for the owner never cost the key any under the same condition
  on the key, and only then (`ApiKeys.RebindMonotoneIff`, `ApiKeys.PromotionShrinks`).
- A key found disabled is deleted without the row lock, although the comment on `_strips_last_factor`
  speaks of the lock. The last factor can be lost exactly when a key is enabled while such a removal
  of it is in flight (`SecondFactor.LossPossibleIff`, `SecondFactor.UnlockedRemovalOvertaken`).
- On SQLite a step that raises `IntegrityError` is reported as already applied but is not recorded, so
  it runs again at every boot. For every list of files in its order, crashes are harmless exactly when
  every upgrade is idempotent and a file that raises that error on some schema changes none that later
  files of the list lead to from there (`SqliteLedger.CrashSafeIff`, `SqliteLedger.OrderMatters`).
- `_reuse_last_known_mtls` says that it keeps the previous start's setting. After mTLS has been on and
  was then turned off, the old chain file is still there and the fallback asks for a certificate again
  (`MtlsBoot.FallbackKeepsSettingIff`, `MtlsBoot.FallbackAfterOff`). The model follows the code.
- A name found for a new row fits its column exactly when a short enough candidate was free
  (`FreshNames.FoundFitsIff`). A failing input would need some 10^97 names in use, or 10^61 slugs.

## Model

| member | source | states |
|---|---|---|
| `CrlProtocol.OneGenerationAtATime` | backend/api/cdp_routes.py:34-45 | In every interleaving at most one request per CA is inside `generate_crl`. |
| `CrlProtocol.OneGenerationPerWindow` | backend/api/cdp_routes.py:93-136 | In every interleaving two successful generations for one CA are at least the earlier CRL's window apart, whatever the number of requests. |
| `CrlProtocol.RepliedHoldsNothing` | backend/api/cdp_routes.py:112-136 | On every exit (fresh, generated, stale, 404, 503) the request holds neither the guard nor any lock. |
| `CrlProtocol.OneLockForEver` | backend/api/cdp_routes.py:39-45 | Once a CA has a lock object it keeps that one for ever, and no other CA shares it. |
| `CrlProtocol.RepliesAreSound` | backend/api/cdp_routes.py:79-149 | A 200 carries a non-empty CRL, unexpired at its last check unless the CA cannot sign or this request's own generation failed; a 404 only when there was no usable CRL and one of the same excuses or an unknown CA. |
| `CrlProtocol.BusyMeansAnother` | backend/api/cdp_routes.py:98-111 | A 503 is sent only while another request is in its critical section for the same CA. |
| `CrlProtocol.RequestsRunOut` | backend/api/cdp_routes.py:68-149 | In every interleaving a request moves at most 12 times, and each move brings its reply closer. |
| `CrlProtocol.StepsRunOut` | backend/api/cdp_routes.py:68-149 | One step of a request lowers its rank, keeps every request, and moves no other one. |
| `CrlProtocol.NoDeadlock` | backend/api/cdp_routes.py:39-45 | In every reachable state with an unanswered request, some request can step. |
| `CrlProtocol.TraceHolds` | backend/api/cdp_routes.py:68-149 | The lock, generation and reply invariants hold in every state of every interleaving. |
| `CrlProtocol.LockStep` | backend/api/cdp_routes.py:39-45 | Every event keeps the lock invariant: guard, table, lock objects and holders agree. |
| `CrlProtocol.GenerationStep` | backend/api/cdp_routes.py:112-134 | Every event keeps generations apart and the stored CRL as long-lived as everything generated. |
| `CrlProtocol.ReplyStep` | backend/api/cdp_routes.py:121-149 | Every event keeps what a reply, or a reply about to be sent, guarantees. |
| `CrlProtocol.RunIsTraced` | backend/api/cdp_routes.py:68-149 | Whatever a schedule of events reaches, passing over those not enabled, an interleaving reaches. |
| `CrlProtocol.TraceIsScheduled` | backend/api/cdp_routes.py:68-149 | Whatever an interleaving reaches, a schedule reaches. |
| `CdpServer.Server.constructor` | backend/api/cdp_routes.py:34-36 | A new process has an empty lock table and nothing held. |
| `CdpServer.Server.Resolve` | backend/api/cdp_routes.py:75-77 | Is the arrival step; an unknown CA is a 404 at once. |
| `CdpServer.Server.Decide` | backend/api/cdp_routes.py:84-97 | Is the step that serves, goes for the lock, or settles for what was read. |
| `CdpServer.Server.LookUpLock` | backend/api/cdp_routes.py:41-42 | Is the table look-up. |
| `CdpServer.Server.TryAcquire` | backend/api/cdp_routes.py:99-111 | Takes a free lock, or sheds load past the timeout, as the two protocol steps. |
| `CdpServer.Server.DecideAgain` | backend/api/cdp_routes.py:116-134 | Is the re-check: generate, or serve what the previous holder stored. |
| `CdpServer.Server.Raise` | backend/api/cdp_routes.py:124-132 | Is a failed generation: the CRL of the first read, or a 404. |
| `CdpServer.Server.Step` | backend/api/cdp_routes.py:68-149 | Every event, of a request, the clock, the CA table or another writer, is served as the protocol step of that event, or passed over exactly when it is not enabled. |
| `CdpServer.Server.Serve` | backend/api/cdp_routes.py:34-149 | After any schedule of any number of requests the server is where the protocol is: generations for one CA are a window apart, at most one request per CA is generating, and a request that replied holds no lock. |
| `CdpServer.ServerIsSafe` | backend/api/cdp_routes.py:34-149 | The same of the last state of every interleaving. |
| `ParentWalk.WalkShape` | backend/auth/permissions.py:215-222 | For every parent map, cyclic or not, the walk starts at the node, follows parents, repeats none, stays within the limit and stops early only at a cycle or a root. |
| `ParentWalk.WalkListsReachIff` | backend/auth/permissions.py:212-222 | The walk lists exactly the reachable nodes if and only if they fit in the limit. |
| `ParentWalk.ParentWalkIncludedIff` | backend/auth/permissions.py:212-222 | A walk covers its parent's walk if and only if everything reachable fits. |
| `ParentWalk.CycleSharesWalkIff` | backend/auth/permissions.py:212-222 | Two different nodes that reach each other walk the same set if and only if it fits in the limit. |
| `ParentWalk.WalkIsFullPath` | backend/boot_config.py:146-171 | A path that ends and fits is walked whole and in order. |
| `Roles.CustomRoleChain` | backend/auth/permissions.py:215-222 | The loop computes the walk of the parent relation with limit 64. |
| `Roles.NormalizeOf` | backend/auth/permissions.py:200-209 | `certs` after the first colon is read as `certificates`; every other text is unchanged. |
| `Roles.AddRole` | backend/auth/permissions.py:230-233 | Adds, without repeats, exactly the normalised grantable scopes of one role; fails exactly on an entry that cannot be looked up. |
| `Roles.CustomRolePermissions` | backend/auth/permissions.py:225-251 | Exactly the grantable scopes of every role on the chain, without repeats; nothing when any lookup on the chain raises. |
| `Roles.ReadAtAnyDepth` | backend/models/group.py:31-40 | However often a stored list was encoded as text, it means exactly its strings; text that does not decode, or no list, means nothing. |
| `Roles.Texts` | backend/models/group.py:40 | Exactly the strings of a stored list. |
| `Roles.AddKept` | backend/auth/permissions.py:284-286 | Adds exactly the grantable entries of one group, without repeats. |
| `Roles.GroupPermissions` | backend/auth/permissions.py:259-287 | Exactly the grantable scopes of the groups the user belongs to, without repeats. |
| `Roles.AppendNew` | backend/auth/permissions.py:299-300 | The union, without repeats when neither list has any. |
| `Roles.EffectivePermissions` | backend/auth/permissions.py:290-301 | Exactly the built-in role's scopes united with the custom role's and the groups', or the wildcard alone. |
| `Roles.ChainInRoles` | backend/auth/permissions.py:215-222 | The chain holds stored roles only, none twice, at most 64. |
| `Roles.ChainListsReachIff` | backend/auth/permissions.py:212-222 | The chain lists exactly the roles reachable by inheritance if and only if they are at most 64. |
| `Roles.ChainCoversParentIff` | backend/auth/permissions.py:212-222 | A child's chain covers its parent's if and only if at most 64 roles are reachable. |
| `Roles.ChildGrants` | backend/auth/permissions.py:225-251 | With at most 64 roles reachable a child grants its own scopes and its parent's; it loses the parent's exactly when its own list raises and the parent had any. |
| `Roles.ChildInheritsIff` | backend/auth/permissions.py:212-251 | Whatever the roles of a graph hold, as long as the child's own list does not raise, the child grants what its parent grants, if and only if at most 64 roles are reachable. |
| `Roles.CycleSharesChainIff` | backend/auth/permissions.py:212-222 | Two different roles on one cycle have the same chain, as a set, if and only if the cycle has at most 64 roles. |
| `Roles.CycleSharesGrantsIff` | backend/auth/permissions.py:215-234 | Two different roles on one cycle grant the same scopes whatever its roles hold, if and only if the cycle has at most 64 roles. |
| `Roles.DeepRoleLost` | backend/auth/permissions.py:212-218 | In a row of 65 roles the second one inherits what the last one grants and the first one does not. |
| `Roles.CompoundEntryLosesParent` | backend/auth/permissions.py:232-251 | A child with one entry that cannot be looked up grants nothing, although its parent grants something. |
| `Roles.EffectiveIsOrdinary` | backend/auth/permissions.py:145-148 | For every stored directory, what a user other than an administrator holds is concrete and not reserved. |
| `Roles.ReservedOnlyForAdmin` | backend/auth/permissions.py:110-148 | For every role graph, group content and legacy spelling, a reserved scope is satisfied if and only if the built-in role is `admin`. |
| `Scopes.CustomGrantsAreOrdinary` | backend/auth/permissions.py:151-179 | Nothing a custom role may grant is reserved. |
| `Scopes.RoleGrantsAreOrdinary` | backend/auth/permissions.py:9-65 | Every built-in role but `admin` grants only what a custom role could, and nothing reserved. |
| `Scopes.GroupGrantsAreOrdinary` | backend/auth/permissions.py:104-115 | Nothing a group may grant is reserved. |
| `Scopes.WellFormedWildcard` | backend/auth/unified.py:443-447 | A scope with one colon that ends in `:*` is the wildcard of its category. |
| `ApiKeys.Match` | backend/auth/unified.py:151-160 | What one stored scope is worth against the owner's list. |
| `ApiKeys.Narrow` | backend/auth/unified.py:149-164 | The loop over the key computes what its scopes are worth together, without repeats. |
| `ApiKeys.AppendMissing` | backend/auth/unified.py:161-163 | The union, keeping a list without repeats. |
| `ApiKeys.Rebind` | backend/auth/unified.py:136-164 | The loops compute the re-bound set, without repeats where no wildcard short-cut applies. |
| `ApiKeys.NeverWidens` | backend/auth/unified.py:129-133 | For any stored text whatever, a re-bound key grants nothing its owner does not hold. |
| `ApiKeys.MeetIff` | backend/auth/unified.py:129-164 | The re-bound list grants exactly what key and owner both grant, if and only if no wildcard of the key strays. |
| `ApiKeys.MeetsEveryOwnerIff` | backend/auth/unified.py:129-164 | A key meets every owner whose scopes are well-formed if and only if it holds `*` or, with each of its wildcards, the one of that category: a condition on the key alone. |
| `ApiKeys.WellFormedIsTidy` | backend/auth/unified.py:141-142 | A key of well-formed scopes satisfies that condition. |
| `ApiKeys.WellFormedMeet` | backend/auth/unified.py:129-164 | Of well-formed scopes the re-bound list is the meet. |
| `ApiKeys.StrayWildcard` | backend/auth/unified.py:151-156 | For any directory and any viewer, a key with the stored text `read:x:*`, for `cas` or any other text in place of `x`, is worth `read:certificates`, which the key does not grant. |
| `ApiKeys.RebindIdempotent` | backend/auth/unified.py:129-164 | Re-binding twice is re-binding once, for any text. |
| `ApiKeys.RebindMonotone` | backend/auth/unified.py:129-164 | For a key that satisfies the condition of `MeetsEveryOwnerIff`, more rights for the owner never mean fewer for the key. |
| `ApiKeys.RebindMonotoneIff` | backend/auth/unified.py:129-164 | Re-binding is monotone over all owners with well-formed scopes if and only if the key satisfies that condition. |
| `ApiKeys.PromotionShrinks` | backend/auth/unified.py:136-156 | The key of any viewer with the stored text `read:x:*` passes `read:certificates`, and no longer does once its owner is made administrator. |
| `ApiKeys.WholeKeyIff` | backend/auth/unified.py:129-164 | For any stored text and any user, re-binding leaves the key exactly as stored if and only if the owner holds every stored scope. |
| `ApiKeys.KeyStore.VerifyApiKey` | backend/auth/unified.py:81-173 | Accepts exactly active, unexpired keys of active owners, records the use, changes nothing else and returns the re-bound scopes. |
| `ApiKeys.ScopesNeverChange` | backend/auth/unified.py:117-127 | No history of changes and requests alters a key's stored scopes. |
| `ApiKeys.EffectiveWellFormed` | backend/auth/permissions.py:290-301 | Whatever is stored, what a user holds is well-formed. |
| `ApiKeys.KeyPowerOverHistory` | backend/auth/unified.py:81-173 | After any history a key passes only checks its owner passes at that moment, and if its stored scopes satisfy the condition of `MeetsEveryOwnerIff`, as well-formed ones do, exactly those of them the stored scopes grant. |
| `ApiKeys.RestorationOverHistory` | backend/auth/unified.py:129-164 | After any history and for any stored text, a usable key is back to exactly its stored scopes if and only if the owner holds every one of them, and then it passes exactly what they grant. |
| `ApiKeys.ReservedThroughKey` | backend/auth/unified.py:134-164 | A key passes a reserved scope if and only if its owner is the built-in administrator and its stored scopes grant it. |
| `Sessions.GateOpens` | backend/auth/unified.py:375-394 | Exactly what passes the two gates in each state: with both restrictions the enrolment paths and the read of preferences; logout always. |
| `Sessions.SessionStore.VerifySession` | backend/auth/unified.py:175-243 | The session after verification and the verdict: expiry clears it, acceptance refreshes its last activity. |
| `Sessions.StampsAreTrue` | backend/auth/unified.py:195-232 | In every run a live session carries the times of its login and of the last accepted request. |
| `Sessions.AcceptedIsTimely` | backend/auth/unified.py:193-232 | In every run each accepted request is within the lifetime of the login and within the inactivity limit of the previous accepted one. |
| `Sessions.DeadUntilLogin` | backend/auth/unified.py:73-79 | Without a session nothing is accepted until a new login. |
| `Sessions.ExpiryIsFinal` | backend/auth/unified.py:201-225 | After one late request nothing is accepted until a new login, whatever the later times and limits. |
| `Sessions.RestrictedUntilEnrolled` | backend/auth/unified.py:375-386 | In every run of a session opened under forced enrolment, until an enrolment succeeds only enrolment paths and the read of preferences pass. |
| `Sessions.WayOut` | backend/auth/password_change_gate.py:18-31 | From every restricted state, enrolment and then a password change pass the gates and leave the session unrestricted. |
| `SecondFactor.LeavesFactorIff` | backend/auth/twofa_enforcement.py:62-92 | A removal leaves a factor if and only if TOTP stays or another enabled key does. |
| `SecondFactor.GuardLeavesFactor` | backend/auth/twofa_enforcement.py:84-92 | Under enforcement the guard refuses exactly the removals that leave no factor. |
| `SecondFactor.StepHolds` | backend/auth/twofa_enforcement.py:95-113 | Every event, unless it deletes without the lock a key that is enabled, keeps: only the lock holder is past its guard, what it may commit leaves a factor, unrestricted sessions have one, and the last factor stays. |
| `SecondFactor.FactorNeverLost` | backend/auth/twofa_enforcement.py:95-113 | In every interleaving of locked and unlocked removals, enrolments and logins under enforcement, an account that has a factor never ends with none, as long as no key is enabled while an unlocked removal of it is in flight. |
| `SecondFactor.LossPossibleIff` | backend/api/v2/webauthn.py:28-38 | From any point of an interleaving that exposed nothing before, removals alone can cost the account its last factor if and only if some key is enabled while an unlocked removal of it is in flight. |
| `SecondFactor.UnlockedRemovalOvertaken` | backend/api/v2/webauthn.py:34-38 | The run that does: a disabled key is found, enabled, TOTP is dropped under the lock, and the key is deleted; each of the six events is enabled in its turn. |
| `SecondFactor.LockedSchedulesKeepFactor` | backend/auth/twofa_enforcement.py:107-113 | No schedule whose removals all take the lock costs an account under enforcement its last factor. |
| `SecondFactor.FullSessionHasFactor` | backend/auth/twofa_enforcement.py:116-127 | At every moment of every such interleaving an unrestricted password session belongs to an account with a factor. |
| `SecondFactor.GuardAloneIsNotEnough` | backend/auth/twofa_enforcement.py:107-113 | Without the lock two removals that each pass the guard leave nothing. |
| `SecondFactor.UserRow.LockForFactorChange` | backend/auth/twofa_enforcement.py:107-113 | Under enforcement the removal is refused exactly when the account, as it is once the lock is held, would be left without a factor. |
| `SecondFactor.UserRow.CommitRemoval` | backend/api/v2/account/twofa.py:161-168 | The removal, with what it does to the key as chosen factor, is the commit step of a locked removal, which gives the lock back, and of an unlocked one, which leaves it alone. |
| `SecondFactor.UserRow.Step` | backend/auth/twofa_enforcement.py:95-127 | Every event is served as the step of that event, or passed over exactly when it is not enabled. |
| `SecondFactor.UserRow.Serve` | backend/auth/twofa_enforcement.py:95-127 | After any schedule the row is where the state machine is; if no removal skips the lock, an account under enforcement that has a factor keeps one. |
| `Ledger.ComputePending` | backend/migration_runner.py:215 | The names not applied, in file order. |
| `Ledger.PendingAfter` | backend/migration_runner.py:214-215 | Recording a prefix of the pending names leaves exactly the rest pending, in order. |
| `Ledger.MigrationIndex` | backend/migration_runner.py:318-330 | The number the leading digits denote, or -1. |
| `PgLedger.RunIsFold` | backend/migration_runner.py:347-386 | Wherever a run stops, the recorded names are a prefix of the pending list, none refused or unloadable, and the schema is the starting schema folded over them; it fails exactly at a migration that cannot be applied. |
| `PgLedger.BootAtCrash` | backend/migration_runner.py:201-223 | The same at every crash point of every boot. |
| `PgLedger.RunSplits` | backend/migration_runner.py:347-386 | Running a prefix and then what is left is running the list. |
| `PgLedger.RerunAfterCrash` | backend/migration_runner.py:201-223 | A crash and then a boot end in the schema, ledger and verdict of the boot alone. |
| `PgLedger.AnyCrashSchedule` | backend/migration_runner.py:184-229 | So does any schedule of crashes. |
| `PgLedger.FreshInstallRunsOnlyNewFiles` | backend/migration_runner.py:168-181 | After a fresh install is marked, only files added later ever run. |
| `PgLedger.Database.RunPending` | backend/migration_runner.py:338-386 | The loop is the run; a dry run changes nothing. |
| `PgLedger.Database.RunAll` | backend/migration_runner.py:184-229 | Is a boot left alone; a fresh database is not touched, a dry run at most creates the table. |
| `PgLedger.Database.MarkAllApplied` | backend/migration_runner.py:168-181 | Adds every file name to the ledger and changes nothing else. |
| `SqliteLedger.RunRecords` | backend/migration_runner.py:246-311 | A pending name is recorded if and only if its turn came, its step went through and raised no `IntegrityError`; a failure stops the list there with nothing changed. |
| `SqliteLedger.MidwayThenFinish` | backend/migration_runner.py:287-295 | After a crash between commit and record, finishing ends as the uninterrupted run does. |
| `SqliteLedger.CutThenFinish` | backend/migration_runner.py:246-311 | After a crash anywhere in a run, running what is left succeeds only if the whole run does, with its schema, and with its ledger but for names that can clash. |
| `SqliteLedger.AnyCrashSchedule` | backend/migration_runner.py:236-311 | With idempotent upgrades and a steady list any schedule of crashes that ends in success reaches the schema of the uninterrupted boot, which succeeds too; the ledgers differ only in names that can clash. |
| `SqliteLedger.NotIdempotentDiverges` | backend/migration_runner.py:287-293 | In any list, an upgrade that is the only one pending and not safe to repeat ends elsewhere after one crash between commit and record. |
| `SqliteLedger.NotSteadyDiverges` | backend/migration_runner.py:296-299 | In any list and database, if the first pending file clashes and changes the schema that the later pending files lead to, one restart ends elsewhere. |
| `SqliteLedger.CrashSafeIff` | backend/migration_runner.py:236-311 | For every list of files in its order: success after crashes means the right schema, in every database and crash schedule, if and only if every upgrade is idempotent and a file that clashes on some schema changes none that later files of the list lead to from there. |
| `SqliteLedger.OrderMatters` | backend/migration_runner.py:88-94 | Two files of which one clashes: in one order a restart ends elsewhere, in the other no crash does any harm. |
| `SqliteLedger.Database.RunOne` | backend/migration_runner.py:264-311 | One migration with its five endings, as the step of the ledger machine. |
| `SqliteLedger.Database.RunPending` | backend/migration_runner.py:236-254 | The loop is the run; a dry run changes nothing. |
| `SqliteLedger.Database.RunAll` | backend/migration_runner.py:184-229 | Is a boot left alone. |
| `FreshNames.Pigeonhole` | backend/migrations/051_acme_proxy_slug.py:30-33 | Distinct candidates that are all in use cannot outnumber the names in use. |
| `FreshNames.AppNamesDistinct` | backend/migrations/092_intune_apps.py:69-70 | Candidates with different numbers differ, whatever is cut off. |
| `FreshNames.FoundFitsIff` | backend/migrations/092_intune_apps.py:65-73 | The name a search finds is within the limit if and only if the first name, or a candidate with a short enough number, is free; few names in use are enough. |
| `FreshNames.UniqueName` | backend/migrations/092_intune_apps.py:65-73 | The first free candidate, found within one more turn than there are names in use; within 100 characters if and only if the cut name or a candidate numbered below 10^97 is free, as with fewer than about 10^97 names in use. |
| `FreshNames.AppNameFitsIff` | backend/migrations/092_intune_apps.py:66-70 | A candidate is within 100 characters if and only if its number has at most 97 digits. |
| `FreshNames.SlugifyShape` | backend/migrations/051_acme_proxy_slug.py:22-24 | Every label gives a non-empty slug of letters, digits and single dashes that starts with a letter or digit, at most 63 characters. |
| `FreshNames.SlugifyKeeps` | backend/migrations/051_acme_proxy_slug.py:22-24 | The slug keeps the label's letters and digits in order, all of them unless cut at 63 characters; a label with none becomes `ca`. |
| `FreshNames.SlugifyFixes` | backend/migrations/051_acme_proxy_slug.py:22-24 | A text that is a proper slug already is left as it is. |
| `FreshNames.SlugNamesDistinct` | backend/migrations/051_acme_proxy_slug.py:31-32 | Candidates with different numbers differ. |
| `FreshNames.UniqueSlug` | backend/migrations/051_acme_proxy_slug.py:27-34 | The first candidate neither reserved nor in use, within one more turn than there are such names; from a base of at most 63 characters it is within 63 if and only if the base or a candidate numbered below 10^61 is free, as with fewer than about 10^61 such names. |
| `FreshNames.SlugNameFitsIff` | backend/migrations/051_acme_proxy_slug.py:31-32 | A candidate is within 63 characters if and only if its number has at most 61 digits. |
| `ProxySlugs.AccountTable.Backfill` | backend/migrations/051_acme_proxy_slug.py:81-106 | Nothing without a known account; otherwise enables it, keeping its slug or giving the first free one. |
| `ProxySlugs.BackfillIsSafe` | backend/migrations/051_acme_proxy_slug.py:37-106 | Slugs stay unique, other accounts are untouched, and a rerun changes nothing; a new slug is in shape, not reserved, and within 63 characters if and only if the label's own slug or one with a short number was free, as with fewer than about 10^61 names in use. |
| `IntuneCarryOver.Tables.IndexApps` | backend/migrations/092_intune_apps.py:91-93 | The index finds an application for each key and misses none. |
| `IntuneCarryOver.Tables.NewApp` | backend/migrations/092_intune_apps.py:104-105 | The new row has the profile's key, secret and trial and the first unused name made from the profile's. |
| `IntuneCarryOver.Tables.Insert` | backend/migrations/092_intune_apps.py:104-105 | Appends the row; ids and names stay unique. |
| `IntuneCarryOver.Tables.AppFor` | backend/migrations/092_intune_apps.py:95-106 | The application the index finds for the key, with nothing changed, or one new row made from the profile and indexed. |
| `IntuneCarryOver.Tables.CarryRow` | backend/migrations/092_intune_apps.py:94-108 | One profile: a legacy one ends bound to the application it was given and cleared; every other profile is untouched. |
| `IntuneCarryOver.Tables.CarryOver` | backend/migrations/092_intune_apps.py:89-108 | The loop carries over every profile; ids and names stay unique. |
| `IntuneCarryOver.MeaningPreserved` | backend/migrations/092_intune_apps.py:89-108 | Each legacy profile ends bound to an application with the tenant, client and plain secret it held; everything else is as before. |
| `IntuneCarryOver.SharedExactly` | backend/migrations/092_intune_apps.py:95-107 | Two carried profiles share an application if and only if tenant, client and plain secret agree. |
| `IntuneCarryOver.OneAppPerNewKey` | backend/migrations/092_intune_apps.py:97-106 | Exactly one application is inserted per distinct key that had none. |
| `IntuneCarryOver.InsertedNameFitsIff` | backend/migrations/092_intune_apps.py:65-106 | The name of an inserted application is within 100 characters if and only if its profile's cut name, or a candidate with a short number, was free when it was inserted, as in every table of fewer than about 10^97 rows. |
| `IntuneCarryOver.RerunChangesNothing` | backend/migrations/092_intune_apps.py:53-62 | Afterwards no profile is legacy, and a rerun changes neither table. |
| `Base64.SextetsAreTheNumber` | backend/api/est_protocol.py:133 | Four sextets are the base-64 digits of the number whose base-256 digits are the three bytes. |
| `Base64.DecodeEncode` | backend/api/est_protocol.py:133 | Decoding an encoding returns the bytes, for every byte string. |
| `Base64.EncodeDecodeIff` | backend/api/est_protocol.py:156 | Of accepted text, encoding what was decoded returns the text if and only if its cut-off bits are zero. |
| `Base64.EncodeIsCoded` | backend/api/est_protocol.py:133 | An encoding uses the alphabet and padding only and has four characters per three bytes begun. |
| `EstCodec.FoldedLines` | backend/api/est_protocol.py:128-134 | Every line is non-empty and at most 64 characters, all but the last exactly 64, and their number is exact. |
| `EstCodec.BodyLines` | backend/api/est_protocol.py:128-134 | Of every emitted body: each line is non-empty and at most 64 characters, within the 76 of section 6.8 of RFC 2045, all but the last exactly 64, and their number follows from the number of bytes. |
| `EstCodec.AnySpacing` | backend/api/est_protocol.py:155-156 | Whatever white space is put into an encoding, and wherever, it decodes to the same bytes. |
| `EstCodec.SpacingIff` | backend/api/est_protocol.py:155-156 | Text without armour decodes canonically to the bytes if and only if it is their encoding with white space in it. |
| `EstCodec.BodyRoundTrip` | backend/api/est_protocol.py:128-156 | Decoding the folded body returns the bytes, for every byte string. |
| `EstCodec.ReframedRoundTrip` | backend/api/est_protocol.py:993-995 | So does decoding it once reframed with carriage returns. |
| `EstCodec.ReframedLines` | backend/api/est_protocol.py:993-995 | The reframed part is exactly the lines of the body with a carriage return and a line feed between them and none after the last. |
| `EstCodec.ArmouredRoundTrip` | backend/api/est_protocol.py:128-154 | Decoding the folded body inside PEM armour returns the bytes, with or without carriage returns. |
| `EstCodec.PayloadCrLf` | backend/api/est_protocol.py:146-149 | In any text the base64 between armour lines is the same with carriage returns before its line feeds. |
| `EstCodec.ArmouredAnyLayout` | backend/api/est_protocol.py:144-154 | Inside PEM armour with any one-line title, whatever the line lengths, blank lines and indentation, and with or without carriage returns, an encoding decodes to its bytes. |
| `BootChain.Glue` | backend/boot_config.py:168-170 | The next certificate starts on a line of its own and nothing before it is altered. |
| `BootChain.ClientCaChain` | backend/boot_config.py:126-173 | A chain exactly when the trusted CA has a usable certificate; then the certificates of the walk in order, and the CA's display name. |
| `BootChain.ChainShape` | backend/boot_config.py:146-171 | For every parent relation, cycles included: the trusted CA and distinct successive parents, at most 65, ending early only at a root, a loop or an unusable certificate. |
| `BootChain.FullChainIff` | backend/boot_config.py:146-171 | For a usable trusted CA the whole stored path is served, in order, if and only if it ends, is usable throughout and has at most 64 ancestors. |
| `BootChain.MtlsClientCa` | backend/boot_config.py:176-192 | mTLS is on exactly when enabled with a usable trusted CA; then its chain and the required flag. |
| `MtlsBoot.FilesTell` | backend/gunicorn_config.py:122-128 | Over every sequence of starts the two files tell the last mode read and the last chain served. |
| `MtlsBoot.UnreadableStart` | backend/gunicorn_config.py:131-155 | A start that cannot read its settings demands a certificate if and only if the most recent readable start did, and serves the chain of the most recent start with mTLS on. |
| `MtlsBoot.FallbackKeepsSettingIff` | backend/gunicorn_config.py:131-138 | The fallback is the last readable setting if and only if that was on or mTLS has never been on. |
| `MtlsBoot.FallbackAfterOff` | backend/gunicorn_config.py:131-155 | mTLS required, then off, then unreadable settings: the socket asks for a certificate of the old chain. |
| `MtlsBoot.Gunicorn.constructor` | backend/gunicorn_config.py:158-160 | A new process starts from the default socket and the files as they are. |
| `MtlsBoot.Gunicorn.LoadConfig` | backend/gunicorn_config.py:158-195 | One start: the files it leaves and the socket it configures, on every path. |
| `MtlsBoot.Restart` | backend/gunicorn_config.py:158-198 | One process after another over the same files: the socket of each start is the one the results above speak of. |

## Left out

- HTTP plumbing: Flask routing, responses and headers, logging, how a CA reference is resolved, and delta CRLs.
- `CRLService`: CRL numbering, signing, and a generation that raises after its row is committed; more than one worker process.
- Authentication details: the validation of new API keys, key hashing, failed telemetry commits, the `session_only` switch and the permission loop of `require_auth`, the role-only `has_permission` of `permissions.py`, `with_ssh_ca_scopes`.
- Stored data outside the declared types: API-key JSON that is not a list of strings, role permission columns that are not lists.
- Sessions: time zones of stored stamps, and sessions shared by several browsers.
- Second factors: disabling a key found disabled, which rewrites no key; an administrator may override the guard or reset 2FA, enforcement may be switched while removals are in flight, and mTLS and WebAuthn logins are exempt.
- Migrations: a failed SQLite upgrade is taken to be rolled back entirely, `_list_migration_names` is taken as a list without repeats, and what the individual migrations do is abstract.
- `MigrationIndex` and slugs: digits are ASCII digits, and a label is taken in lower case already; Unicode digits and case folding are not modelled.
- SQL and secrets: transactions are atomic, row locks are mutexes, and `_plain` and `_decoded_pem` are arbitrary functions.
- mTLS files: a mode file that exists and cannot be opened, and a write that is cut short.
- EST: bytes that are not UTF-8, multipart framing, request authentication and issuance; the decoder is the strict one of Python 3.11 and later, and a carriage return with its line feed counts as two line breaks, the empty line between them being dropped.
- Everything else in the repository (SCEP, WSTEP, XCEP, TSA, OCSP, the remaining migrations, the web front end): mostly sequential refusals, single updates or calls into cryptographic libraries.
