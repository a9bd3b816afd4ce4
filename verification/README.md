# Authup: matchers, configuration passes and token protocols

This project models the algorithms and small concurrent protocols of the Authup monorepo that carry a hard claim, and
proves the claim for every input, every run or every interleaving:

- **The glob matcher and its URL form** (`SimpleMatch`, `UrlMatch`, `WrittenPattern`). The loop that remembers only the
  last `*` decides exactly the full recursive search, in at most (|value| + 1) · (|pattern| + 1) turns. A URL pattern
  without `**` in its authority accepts no URL whose origin does not match the pattern's origin; and it is said exactly
  which patterns the check on the written text keeps to that.
- **The configuration registry** (`ConfigSchema`, `Layering`, `Precedence`, `DottedPaths`, `FileTree`,
  `FileTreeTheorems`, `FileTreeBlindSpot`, `JsonSchema`, `Resolve`, `ResolveSchema`). Recursive passes over one schema:
  layered merging, reading a file by dotted path, reporting what nobody reads, placing every entry in a JSON schema, and
  lazy resolution of derived keys with cycle detection. They are tied together location by location.
- **The command line's token rotation** (`HostLock`, `HostTokens`). Any number of processes, a lock file, one stored
  pair and a server that treats a redeemed refresh token as a replay.
- **The console's forwarding guard** (`ForwardingGuard`, `CountedResponses`). A lazily rolled counting window with
  reservations, the bound over windows that are not aligned with it, and the responses it is about.
- **Single-flight tokens** (`AuthHook`, `AuthRefresh`, `Introspection`), and **lookups where the last request wins**
  (`PathScope`, `EntityStats`). Promise settlements and the callbacks behind them are steps of their own, so anything may
  run between.
- **base64url** (`Base64Url`), section 5 of RFC 4648.

Objects whose methods update their fields are classes; loops that update variables are methods with invariants, proved
against a function or predicate; protocols of several processes are steps over a state. In
`AuthHook`, `Introspection`, `EntityStats` and `PathScope` a pure `After` says what one step makes of the state and `Run`
what a script of them does (an event that cannot happen at its turn is skipped). Every method of the classes does what
`After` says, the method `Interleave` drives them and ends in `Run` of its script, and the claims about all
interleavings are lemmas about `Run`.

## Where the code and its documentation differ

- `entity-stats.ts:150-158` says a 403 takes the previous answer down, and that a scope change does so before loading.
  The code (192-235) leaves the previous answer up while it loads, and on a 403 keeps an answer held for the same scope
  (`EntityStats.RefusedAnswerStays` is the input; `EntityStats.Stats.Fail` says exactly when). The model follows the code.
- `findUnknownSchemaPaths` should leave each part of a document with exactly one fate: read, an extension, or reported.
  A registry path with an `x-` segment that nothing at or above it claims, such as `x-foo.bar`, is read although it lies
  below an extension key (`FileTreeBlindSpot.OnePathBehindExtension`). And since the walk joins with `prefix ? … : name`,
  an empty first segment is lost: under a path that begins with `.` (and no entry at the empty path) a leaf can be
  neither read nor reported at its place, and deleting what is reported can change what is read.
  `FileTreeBlindSpot.AccountingHoldsExactly` and `FileTreeBlindSpot.DeletionHarmlessExactlyWithoutBlindSpot` prove that
  the two properties hold for all documents exactly when a registry has neither kind of path, or only not the second.
- `buildSchemaJSONSchema` compares spellings joined in the same way. Distinct, prefix-free paths are not enough for it:
  `.name` and `name` are refused together (`JsonSchema.LeadingDotCollides`), and a lone `..name` ends in a TypeError
  (`JsonSchema.TwoLeadingDotsHaveNoPlace`). `JsonSchema.PlaceAll` gives the exact condition: the paths are distinct and
  prefix-free, and no two locations at or on the way to entries are spelled alike. The second half always holds where
  no dotted path begins with a dot (`JsonSchema.DotsInsideSpellInjectively`).
- `collectPathPages` takes a missing `meta.total` for the number of rows held, so a server that reports none is read as
  complete after one page (`PathScope.WithoutTotalOnePageIsAll`).
- `constants.ts:53-58` promises that the console's address never reaches the API's limit. That holds exactly if no render
  is refused more than once (`ForwardingGuard.ConsoleStaysBelowTheApiLimit`); in general the bound is twice the limit
  times the refusals one render may meet, and is reached.
- `patternHasGlobstarInAuthority` (142-155) rejects a `**` in the authority of a pattern as it is written, since such a
  pattern accepts every origin; the matcher compares the canonical pattern. The check reads the text behind the first
  `://`, a WHATWG parser the text behind any number of slashes. So `https:///**.example.com/**` passes the check and
  accepts every https URL (`WrittenPattern.HiddenHostAcceptsEverything`, `WrittenPattern.MiscountedSlashesHide`).
  `WrittenPattern.WrittenCheckIsExact` proves for every pattern that passing the check is enough exactly if no `**` of
  its host text is hidden by miscounted slashes or a later `://`, which can be told from the text.
- The lock gives no exclusion once a lock file outlives the stale cut, as `lock.ts:52-54` says itself. Exclusion is proved
  for all runs in which none does, and that no token is replayed for those in which no grant is lost either.
  `HostLock.StaleLockReplays`, `HostLock.StaleHolderDeletesItsSuccessorsLock`, `HostLock.UnstoredGrantReplays` and
  `HostLock.LostAnswerReplays` give the runs that show the assumptions are needed.

## Model

| member | source | states |
|---|---|---|
| SimpleMatch.IsSimpleMatch | packages/kit/src/is-simple-match.ts:50-103 | the one-pass loop with the equality shortcut answers exactly what the full recursive glob search answers, within (value length + 1)(pattern length + 1) turns |
| SimpleMatch.Scan | packages/kit/src/is-simple-match.ts:64-103 | the loop, which goes back only to the last `*`, terminates within that bound and takes exactly its turns' decisions |
| SimpleMatch.TurnsAreTheSearch | packages/kit/src/is-simple-match.ts:68-103 | from any cursor with a literal read behind the last star, those decisions are what the full search from that star finds |
| SimpleMatch.LastStarDecides | packages/kit/src/is-simple-match.ts:68-103 | so from the start they decide the full recursive search: no match is lost by forgetting earlier stars |
| SimpleMatch.MatchesEmpty | packages/kit/src/is-simple-match.ts:15-37 | the rest of a pattern matches the exhausted value exactly when the full search says so, optional slashes included |
| SimpleMatch.IsSimpleMatchAny | packages/kit/src/is-simple-match.ts:54-62 | a list matches iff one of its patterns does |
| SimpleMatch.CommitToLastStar | packages/kit/src/is-simple-match.ts:68-100 | once the literal behind a star has been read up to the next star or to the end of the value, no longer run of that star reaches anything the current one does not |
| SimpleMatch.ShiftedLiteralHasNoSlash | packages/kit/src/is-simple-match.ts:85-99 | a literal read at two places, with no slash between their starts, holds no slash: the barrier never blocks a match that retrying would have found |
| SimpleMatch.LiteralWalk | packages/kit/src/is-simple-match.ts:15-37 | a literal stretch matches iff it is a prefix of the value, or falls one optional slash short of it at the end of the value |
| SimpleMatch.WildcardFreeIsEquality | packages/kit/src/is-simple-match.ts:64-66 | a pattern without wildcards matches exactly itself |
| SimpleMatch.EqualMatches | packages/kit/src/is-simple-match.ts:64-66 | the equality shortcut adds no match: every text matches itself read as a pattern, wildcards and all |
| UrlMatch.HostConfinement | packages/kit/src/is-simple-url-match.ts:70-93 | a match of host and rest against host pattern and rest, without `**` in the host pattern, is a match of the host alone |
| UrlMatch.OriginConfinement | packages/kit/src/is-simple-url-match.ts:94-129 | a canonical pattern without `**` in its authority matches only URLs whose origin alone matches its origin alone, the bare-origin candidate included |
| UrlMatch.OriginScopeIsExact | packages/kit/src/is-simple-url-match.ts:94-129 | the pattern `origin/**` accepts exactly the URLs whose origin matches |
| UrlMatch.AcceptedUrlLiesInAPatternOrigin | packages/kit/src/is-simple-url-match.ts:94-129 | with patterns that are safe in canonical form, whatever the function accepts as an http(s) URL lies in the origin of one of them |
| UrlMatch.OtherSchemesAreCompared | packages/kit/src/is-simple-url-match.ts:94-114 | a value that is no URL is refused; one of another scheme than http(s) is accepted if it is one of the patterns, and against patterns without `*` only then |
| UrlMatch.OriginPatternsDecide | packages/kit/src/is-simple-url-match.ts:94-129 | against a list of `origin/**` patterns an http(s) URL is accepted iff one of them has its scheme and a host pattern its host matches; without wildcards, iff one has its origin |
| UrlMatch.WrittenPatternsAreCompared | packages/kit/src/is-simple-url-match.ts:54-68 | an http(s) URL that matches a pattern which is no http(s) URL, as that is written, is accepted, by its bare origin too if it has nothing behind it; against a list of such patterns only then |
| UrlMatch.OpenPortAcceptsEveryPort | packages/kit/src/is-simple-url-match.ts:94-129 | `http://localhost:*`, which does not parse, accepts every port of the host, for every host text without `*` |
| WrittenPattern.CheckSeesTheHost | packages/kit/src/is-simple-url-match.ts:142-155 | of a pattern whose host text carries `**` the check says so exactly if the host stands behind `://` with no further slash, or, without any `://`, behind no slash |
| WrittenPattern.WrittenCheckIsExact | packages/kit/src/is-simple-url-match.ts:131-155 | for every parser that reads the host from the text, passing the check as written implies passing it in canonical form, exactly if no `**` of the host text is hidden |
| WrittenPattern.CheckedPatternsConfine | packages/core-kit/src/domains/client/validator.ts:52 | patterns that pass the check as written, with their hosts in the open, accept only URLs that lie in the origin of one of them |
| WrittenPattern.CanonicalIsInTheOpen | packages/kit/src/is-simple-url-match.ts:54-68 | a pattern written in canonical form has its host in the open |
| WrittenPattern.HiddenHostAcceptsEverything | packages/server-config/src/helpers/origins.ts:30-37 | a hidden host that begins with `**` passes the check, and the pattern accepts every URL of its scheme |
| WrittenPattern.MiscountedSlashesHide | packages/kit/src/is-simple-url-match.ts:142-155 | one slash too many, or one too few, hides any host |
| UrlMatch.GlobstarCheckReadsTheHost | packages/kit/src/is-simple-url-match.ts:142-155 | of a canonical pattern the check reads exactly the host, and holds iff `**` occurs in it |
| UrlMatch.RawWildcardLeavesTheAuthority | packages/kit/src/is-simple-url-match.ts:70-93 | without canonicalization a host wildcard does reach past the authority: a counterexample for every foreign host and every domain |
| ConfigSchema.PassLookup | packages/server-config-kit/src/source/env.ts:89-117 | a pass over a registry holds, at every location of every nested section, what reading that key yields, and nothing elsewhere |
| ConfigSchema.PutLookup | packages/server-config-kit/src/source/resolve.ts:115-120 | writing one location, creating the sections above it, changes what that location holds and no other |
| Layering.MergeSchemaData | packages/server-config-kit/src/source/merge.ts:24-62 | the in-place merge over a backwards loop of sources is the layering function the lemmas are about |
| Layering.MergeLookup | packages/server-config-kit/src/source/merge.ts:24-62 | at every location of every nested section the merge holds the value of the last source that defines it, and nothing outside the schema |
| Layering.MergeInGroups | packages/server-config-kit/src/source/merge.ts:24-62 | sources may be merged in two groups and the results merged, wherever the list is cut |
| Layering.MergeLeftIsMerge | packages/server-config-kit/src/source/merge.ts:24-62 | merging pairwise from the left equals merging all sources at once |
| Layering.MergeRightIsMerge | packages/server-config-kit/src/source/merge.ts:24-62 | merging pairwise from the right equals merging all sources at once |
| Layering.MergeOfMerged | packages/server-config-kit/src/source/merge.ts:24-62 | merging a merged document again changes nothing |
| Layering.BuildSchemaDefaults | packages/server-config-kit/src/source/defaults.ts:18-50 | the loop yields, for each location, the declared default and nothing else |
| Layering.ReadSchemaFromEnv | packages/server-config-kit/src/source/env.ts:89-117 | the recursive loop over schema and sections yields the pass of the variable readings, which the rows of `Precedence` state on the fields of each entry |
| Precedence.PrecedencePerKey | packages/server-config-kit/src/source/merge.ts:24-62 | each key of each section is what its own variable and reader say; where these say nothing, what the document holds at its path, or at its key if it declares none (null and empty values included); else its default |
| Precedence.VariableDecides | packages/server-config-kit/src/entry/env.ts:28-40 | where an entry's variable is set and its reader answers a value, the key is that value, whatever file and default say |
| Precedence.LayerConfiguration | packages/server-config/src/read/module.ts:15-52 | the three passes and the merge, run one after the other, give every key its precedence, and nothing outside the schema |
| Precedence.OwnVariableOnly | packages/server-config-kit/src/entry/env.ts:28-40 | two environments that agree on the variable of an entry give its key the same value |
| Precedence.UndeclaredVariableChangesNothing | packages/server-config-kit/src/entry/env.ts:28-40 | setting a variable no entry declares changes no key |
| Precedence.SilentEnvironmentChangesNothing | packages/server-config-kit/src/entry/env.ts:28-40 | a key whose variable is unset or read as nothing is what it would be without any environment |
| DottedPaths.SplitJoin | packages/server-config-kit/src/source/file.ts:20-32 | joining dot-free segments and splitting again gives them back |
| FileTree.ReadTreePath | packages/server-config-kit/src/source/file.ts:20-32 | the moving-node loop answers the value the document holds at the dotted path, or nothing |
| FileTree.ReadSchemaFromFileTree | packages/server-config-kit/src/source/file.ts:45-85 | the recursive read yields each entry's value at its own path, with empty sections left out |
| FileTree.CollectSchemaPaths | packages/server-config-kit/src/source/file.ts:91-123 | the two filled sets are every entry's path and every proper prefix of one, whatever was in them before |
| FileTree.Walk | packages/server-config-kit/src/source/file.ts:154-176 | the recursive walk reports exactly the places it descends to that are unclaimed, no extension and not walked through |
| FileTree.FindUnknownSchemaPaths | packages/server-config-kit/src/source/file.ts:143-179 | the list holds exactly the spelled paths of those places, and nothing for a document that is no object |
| FileTreeTheorems.ReportsAreLocations | packages/server-config-kit/src/source/file.ts:143-179 | in a document of dot-free names a path is reported iff it names a place where the walk stops unclaimed |
| FileTreeTheorems.ReportedIffNothingElse | packages/server-config-kit/src/source/file.ts:125-179 | without a blind spot a leaf is at or below a reported path iff it is at or below neither a claimed path nor an unclaimed extension key the walk reaches |
| FileTreeTheorems.ClaimBehindExtension | packages/server-config-kit/src/source/file.ts:154-176 | a leaf that is both read and below such a key shows a registry path that passes through it |
| FileTreeTheorems.WalkAccountsForEveryLeaf | packages/server-config-kit/src/source/file.ts:125-179 | if the registry has neither blind spot nor such a path, every leaf lies at or below exactly one of a claimed path, an unclaimed extension key and a reported path |
| FileTreeTheorems.ClaimedReadingSurvives | packages/server-config-kit/src/source/file.ts:125-179 | deleting every reported path leaves what each claimed path reads as it was |
| FileTreeTheorems.DeletingReportsChangesNoReading | packages/server-config-kit/src/source/file.ts:125-179 | deleting every reported path leaves the whole file read unchanged |
| FileTreeTheorems.ForeignKeyIsReported | packages/server-config-kit/src/source/file.ts:154-176 | a key at the top that no entry has to do with is reported iff it does not begin with `x-` |
| FileTreeBlindSpot.AccountingHoldsExactly | packages/server-config-kit/src/source/file.ts:143-179 | every leaf of every document has exactly one fate iff the registry has no blind spot and reads nothing behind an unclaimed extension key |
| FileTreeBlindSpot.BehindExtensionIsTwice | packages/server-config-kit/src/source/file.ts:154-176 | every registry that does has a document with a leaf of two fates |
| FileTreeBlindSpot.OnePathBehindExtension | packages/server-config-kit/src/source/file.ts:160-164 | one entry at a path of two names, the first beginning with `x-`, such as `x-foo.bar`, is enough |
| FileTreeBlindSpot.DeletionHarmlessExactlyWithoutBlindSpot | packages/server-config-kit/src/source/file.ts:143-179 | deleting what is reported is harmless for every document iff the registry has no blind spot |
| FileTreeBlindSpot.BlindSpotIsALeadingDot | packages/server-config-kit/src/source/file.ts:91-123 | a blind spot is a path that begins with a dot, with no entry at the empty path |
| FileTreeBlindSpot.BlindSpotLosesALeaf | packages/server-config-kit/src/source/file.ts:154-176 | every registry with a blind spot has a document with a leaf nobody accounts for |
| FileTreeBlindSpot.BlindSpotDeletesAReading | packages/server-config-kit/src/source/file.ts:154-176 | every registry with a blind spot has a document whose reported path, deleted, takes a reading with it |
| JsonSchema.CollectSchemaEntries | packages/server-config-kit/src/json-schema/module.ts:50-75 | the entries of all sections are appended in declaration order, nothing lost |
| JsonSchema.Place | packages/server-config-kit/src/json-schema/module.ts:102-133 | one entry is placed without disturbing any earlier one, or refused, under its own key or with a TypeError, only when the entries so far have no place together |
| JsonSchema.PlaceAll | packages/server-config-kit/src/json-schema/module.ts:87-142 | placing succeeds iff the paths are distinct, none is a proper prefix of another, and no two locations at or on the way to them are spelled alike; then each location holds its own value, everything between is a plain object, and there is nothing else |
| JsonSchema.BuildSchemaJSONSchema | packages/server-config-kit/src/json-schema/module.ts:87-142 | the same equivalence and the same tree for the entries of a whole registry |
| JsonSchema.EveryEntryIsPublished | packages/server-config-kit/src/json-schema/module.ts:50-142 | the tree of a registry holds every entry of every section at its path split at the dots, or at its key if it declares none |
| JsonSchema.DotsInsideSpellInjectively | packages/server-config-kit/src/json-schema/module.ts:107-125 | where no dotted path begins with a dot, distinct and prefix-free paths are all it takes |
| JsonSchema.OrderDoesNotMatter | packages/server-config-kit/src/json-schema/module.ts:87-142 | whether the entries have a place, and with which tree, is the same for every order of them |
| JsonSchema.LeadingDotCollides | packages/server-config-kit/src/json-schema/module.ts:107-133 | `.name` and `name` are distinct and prefix-free, and spelled alike |
| JsonSchema.TwoLeadingDotsHaveNoPlace | packages/server-config-kit/src/json-schema/module.ts:107-133 | a lone `..name` is prefix-free and has no place |
| Resolve.Resolution.constructor | packages/server-config-kit/src/source/resolve.ts:83-90 | nothing is resolved or under way at first, and the cells hold the merged values |
| Resolve.Resolution.Get | packages/server-config-kit/src/source/resolve.ts:92-128 | one demand: the key ends finished, finished keys keep their values, `visiting` is as before on every exit, and a failure names a missing key or a real cycle |
| Resolve.Resolution.Run | packages/server-config-kit/src/source/resolve.ts:112-127 | the visited key is written once, with its resolver applied to final values, and marked |
| Resolve.Resolution.Resolve | packages/server-config-kit/src/source/resolve.ts:115-120 | a resolver run sees its own merged value and the final values of all it reads |
| Resolve.ResolveAll | packages/server-config-kit/src/source/resolve.ts:79-135 | it completes iff every read path is in the registry and reads have no cycle; then each slot is its resolver applied to final values, each resolver ran once, after all it reads, and nothing else was written |
| Resolve.FinishedIsClosedAndAcyclic | packages/server-config-kit/src/source/resolve.ts:89-132 | an order in which every key finishes after its reads exists only for a closed, acyclic registry |
| Resolve.CycleFound | packages/server-config-kit/src/source/resolve.ts:106-110 | meeting a key under way again gives a chain of reads whose tail is a cycle |
| Resolve.DisagreementNeverEnds | packages/server-config-kit/src/source/resolve.ts:72-78 | two resolutions of one acyclic document cannot disagree along any chain of reads |
| Resolve.ResolutionIsUnique | packages/server-config-kit/src/source/resolve.ts:72-78 | the final assignment is unique, in any declaration order and any nesting of the cells |
| ResolveSchema.IndexByPath | packages/server-config-kit/src/source/resolve.ts:27-58 | the recursive loop builds the index in declaration order, a later entry taking over an earlier one's path, and lists its paths |
| ResolveSchema.RegistryHoldsTheEntries | packages/server-config-kit/src/source/resolve.ts:27-58 | every slot is an entry of the schema under its own path, every entry's path has a slot, and different paths write different cells |
| ResolveSchema.ResolveSchemaData | packages/server-config-kit/src/source/resolve.ts:79-135 | the whole pass over a schema: exactly when it completes, what it then holds, and what a failure names |
| ResolveSchema.NestingDoesNotMatter | packages/server-config-kit/src/source/resolve.ts:20-26 | two schemas with the same entries at the same paths, nested and ordered however, resolve each path to the same value |
| HostLock.StepKeepsInv | apps/authup/src/host/lock.ts:19-68 | every step of any process, the clock or the server keeps exclusion, the server's ledger and the custody of pairs |
| HostLock.LockExcludes | apps/authup/src/host/lock.ts:19-68 | without a stale lock, whatever else goes wrong: at most one process between its open and its rm, the file exists exactly then, and a release deletes only the file its own open created |
| HostLock.NoTokenIsReplayed | apps/authup/src/host/client.ts:36-73 | with no grant lost on its way or unstored as well: no refresh token is presented twice, and whoever asks presents the stored, still redeemable one |
| HostLock.StoredPairIsAdopted | apps/authup/src/host/client.ts:44-55 | under the lock a process ends up with the stored pair, still redeemable, and goes on to present it only if it held that very pair before |
| HostLock.RefreshRotates | apps/authup/src/host/client.ts:60-66 | in every run without a stale lock or a lost grant, a refresh that is answered and stored leaves process and storage with one pair, just issued and redeemable, the presented token spent, the lock free and everybody else as they were |
| HostLock.LoginBringsItsPair | apps/authup/src/commands/login.ts:65-89 | a login that finds the lock free brings a pair the server has just issued, while nobody else moves; its first write clears the storage or leaves it |
| HostLock.LoginIsStored | apps/authup/src/commands/login.ts:75-92 | its second write leaves that pair in the storage, still redeemable, and the lock free |
| HostLock.WaitIsBounded | apps/authup/src/host/lock.ts:19-50 | a refresh that finds the lock taken looks again until ten seconds have passed and then gives up with nothing changed; a lock file older than thirty seconds it takes away |
| HostLock.LoginGivesUp | apps/authup/src/host/lock.ts:19-50 | a login gives up as late, having written nothing |
| HostLock.StaleLockIsShared | apps/authup/src/host/lock.ts:47-55 | a lock file past the stale cut can have two holders |
| HostLock.StaleLockReplays | apps/authup/src/host/lock.ts:47-55 | and then one refresh token is presented twice |
| HostLock.StaleHolderDeletesItsSuccessorsLock | apps/authup/src/host/lock.ts:56-68 | and the first holder's release deletes the second one's lock file |
| HostLock.UnstoredGrantReplays | apps/authup/src/host/client.ts:55-66 | a grant that could not be stored leads the next process to present a redeemed token |
| HostLock.UnstoredGrantIsDropped | apps/authup/src/host/client.ts:44-66 | and the process that was granted it, though it keeps it in memory, goes back to the redeemed pair at its next refresh |
| HostLock.LostAnswerReplays | apps/authup/src/host/client.ts:60-63 | so does a grant whose answer is lost after the server has redeemed the token |
| HostTokens.AdoptedGrantNeverOutlivesThePair | apps/authup/src/host/client.ts:14-29 | a kept pair has the grant's tokens and expires as many seconds after it as it says; a grant made of a kept pair carries the same tokens and a lifetime rounded down by less than a second, never past the pair's own expiry, and is the original grant when nothing has elapsed |
| ForwardingGuard.SessionForwardingGuard.RollWindow | apps/server-auth-console/src/session.ts:59-68 | a window that has run its length is replaced by one that starts now with no refusals |
| ForwardingGuard.SessionForwardingGuard.Reserve | apps/server-auth-console/src/session.ts:71-90 | capacity is handed out exactly when refusals of the current window and renders under way leave room |
| ForwardingGuard.SessionForwardingGuard.Release | apps/server-auth-console/src/session.ts:80-89 | capacity comes back once, however often the release is called |
| ForwardingGuard.SessionForwardingGuard.OnResponseError | apps/server-auth-console/src/session.ts:21-29 | a 401 whose code says neither expired nor inactive counts in the window of its own time, any other error not at all |
| ForwardingGuard.StepKeepsInv | apps/server-auth-console/src/session.ts:55-103 | refusals of the window plus those the renders may still meet never exceed the limit times the refusals per render, windows start a window apart, and every refusal lies in its own |
| ForwardingGuard.RunKeepsInv | apps/server-auth-console/src/session.ts:55-103 | the same after every run |
| ForwardingGuard.AtMostTwoWindows | apps/server-auth-console/src/constants.ts:53-58 | an interval as long as a window, wherever it begins, meets at most two windows with refusals in it |
| ForwardingGuard.RefusalsAreBounded | apps/server-auth-console/src/constants.ts:53-58 | in every run, every half-open interval of the window's length holds at most twice the limit of refusals, times the number one render may meet while it holds its reservation |
| CountedResponses.EventsAreCounted | apps/server-auth-console/src/session.ts:91-102 | the refusals of the run a script of forwards, responses and ends makes are, in order, its 401 responses whose code says neither expired nor inactive |
| CountedResponses.GuardCountsWhatTheApiCounts | apps/server-auth-console/src/session.ts:16-29 | after every script the guard's count is the number of those responses in its current window |
| CountedResponses.CountedResponsesAreBounded | apps/server-auth-console/src/constants.ts:53-58 | in every script every interval of the window's length holds at most twice the limit of those responses, times the number one render may receive |
| CountedResponses.Drive | apps/server-auth-console/src/session.ts:47-103 | the guard itself, driven by any script through reservations, responses and repeated releases, ends with just that count and keeps that bound |
| ForwardingGuard.ConsoleStaysBelowTheApiLimit | apps/server-auth-console/src/constants.ts:53-61 | with the shipped limits no minute of any run reaches the API's 300, exactly if no render is refused more than once |
| ForwardingGuard.BoundIsReached | apps/server-auth-console/src/constants.ts:53-58 | the bound is exact: for every limit and every number of refusals per render some run reaches it |
| ForwardingGuard.LateRefusalsEscapeTheLimit | apps/server-auth-console/src/session.ts:70-102 | refusals that arrive after their reservation ended are not bounded by the limit at all |
| Introspection.IntrospectionAuthorization.Ask | packages/server-adapter-kit/src/verifier/module.ts:54-83 | exactly when an ask or a retry starts a mint, and which promise it shares otherwise |
| Introspection.IntrospectionAuthorization.Create | packages/server-adapter-kit/src/verifier/module.ts:38-52 | a new mint becomes the pending one |
| Introspection.IntrospectionAuthorization.Settle | packages/server-adapter-kit/src/verifier/module.ts:38-52 | a settlement changes no promise that is shared before its callbacks run |
| Introspection.IntrospectionAuthorization.Forget | packages/server-adapter-kit/src/verifier/module.ts:45-49 | a failed mint is forgotten only while it is still the pending one |
| Introspection.IntrospectionAuthorization.Stamp | packages/server-adapter-kit/src/verifier/module.ts:66-80 | a granted re-mint records when it finished |
| Introspection.IntrospectionAuthorization.Clear | packages/server-adapter-kit/src/verifier/module.ts:66-80 | a re-mint stops being the one to join only when it is still that one |
| Introspection.Interleave | packages/server-adapter-kit/src/verifier/module.ts:29-83 | any interleaving of asks, retries, settlements and callbacks ends in the state that running the script step by step gives |
| Introspection.OneRemintRuns | packages/server-adapter-kit/src/verifier/module.ts:54-80 | in every interleaving at most one re-mint runs |
| Introspection.MintsAreSpared | packages/server-adapter-kit/src/verifier/module.ts:29-83 | in every interleaving in which no mint fails there is one first mint, and re-mints start at least the reuse time apart |
| Introspection.FailedMintIsReplaced | packages/server-adapter-kit/src/verifier/module.ts:45-49 | after every script, a pending mint that fails and is forgotten is not handed out again: the next plain ask starts another |
| Introspection.RemintIsReused | packages/server-adapter-kit/src/verifier/module.ts:54-80 | a retry within five seconds of a granted re-mint shares it, a later one starts another; after a failed one the very next retry does |
| AuthHook.Request.NormalizeRetryState | packages/core-http-kit/src/hook/utils.ts:13-23 | the retry count is on the request afterwards, and is what it was, zero when absent |
| AuthHook.Request.Reject | packages/core-http-kit/src/hook/module.ts:169-178 | a replay that is refused loses its token before the caller sees the error, another request keeps its header |
| AuthHook.ClientAuthenticationHook.SetAuthorizationHeader | packages/core-http-kit/src/hook/module.ts:75-83 | the header is the hook's and every listed client's |
| AuthHook.ClientAuthenticationHook.UnsetAuthorizationHeader | packages/core-http-kit/src/hook/module.ts:85-93 | the header is gone from the hook and every listed client |
| AuthHook.ClientAuthenticationHook.Attach | packages/core-http-kit/src/hook/module.ts:101-203 | the client is listed once, listens and carries the current header |
| AuthHook.ClientAuthenticationHook.Detach | packages/core-http-kit/src/hook/module.ts:205-221 | the client alone leaves the list, without a header and not listening |
| AuthHook.ClientAuthenticationHook.SetTimer | packages/core-http-kit/src/hook/module.ts:225-242 | the previous timer is disarmed, and one is armed exactly when the token lives longer than a minute |
| AuthHook.ClientAuthenticationHook.ClearTimer | packages/core-http-kit/src/hook/module.ts:244-248 | the last timer is disarmed, and only that one |
| AuthHook.ClientAuthenticationHook.Refresh | packages/core-http-kit/src/hook/module.ts:257-264 | a refresh under way is joined, otherwise one creation starts |
| AuthHook.ClientAuthenticationHook.Finish | packages/core-http-kit/src/hook/module.ts:264-296 | the settled creation decides the header (the new token, or none) and the timer |
| AuthHook.ClientAuthenticationHook.RefreshFor | packages/core-http-kit/src/hook/module.ts:154-178 | a request waits for the refresh under way, or for the one it starts, once |
| AuthHook.ClientAuthenticationHook.DropToken | packages/core-http-kit/src/hook/module.ts:141-152 | a key error drops the header of the hook, of every listed client and of the request, which is refused |
| AuthHook.ClientAuthenticationHook.OnResponseError | packages/core-http-kit/src/hook/module.ts:118-199 | with the hook on, the first error of a request waits for a refresh exactly if it is no token endpoint error and no key error, and is a JWT error, a 401, or a 403 without a token; every other ends the request, and a key error drops the header of hook and request |
| AuthHook.ClientAuthenticationHook.Resume | packages/core-http-kit/src/hook/module.ts:154-178 | a waiting request is replayed once with the new token, or rejected without one |
| AuthHook.Interleave | packages/core-http-kit/src/hook/module.ts:75-296 | any interleaving over any clients and requests ends in the hook, clients and requests that running the script step by step gives |
| AuthHook.OneRefreshAtATime | packages/core-http-kit/src/hook/module.ts:225-264 | in every interleaving one token creation is outstanding at most, and one timer armed |
| AuthHook.RequestsAreSpared | packages/core-http-kit/src/hook/module.ts:118-199 | in every interleaving each request is dispatched at most twice with at most one refresh, and one that was never sent is as its caller made it |
| AuthHook.ListedCarryTheHeader | packages/core-http-kit/src/hook/module.ts:75-221 | in every interleaving every listed client listens and carries the hook's current header |
| AuthRefresh.FirstErrorWaitsForARefresh | packages/core-http-kit/src/hook/module.ts:118-199 | after every script: such an error leaves the request waiting for the creation under way, or for one it starts if there is none; every other error starts none and ends the request |
| AuthRefresh.KeyErrorDropsTheToken | packages/core-http-kit/src/hook/module.ts:141-152 | after every script a first key error leaves no header on the hook, on any listed client or on the request |
| AuthRefresh.OnlyTheseStartACreation | packages/core-http-kit/src/hook/module.ts:154-264 | after every script a creation is started exactly by an explicit refresh, by an armed timer that fires, or by such an error, and only while none is under way |
| AuthRefresh.RefusedRequestIsSentAgain | packages/core-http-kit/src/hook/module.ts:154-167 | such an error, a granted token and the continuations: the request is dispatched a second time with `Bearer` and the new token, which the hook and every listed client carry, and a timer is armed for a token longer than a minute |
| AuthRefresh.RefusedRefreshRejects | packages/core-http-kit/src/hook/module.ts:169-178 | if the token is refused the request ends after its one dispatch without a token, and nobody carries one |
| AuthRefresh.WaitsUntilResumed | packages/core-http-kit/src/hook/module.ts:154-178 | a waiting request stays as it is, whatever happens, until its own continuation runs |
| AuthRefresh.WaitingRequestIsReplayed | packages/core-http-kit/src/hook/module.ts:154-178 | whatever happened in between, that continuation dispatches it a second time with the token of the creation it waited for, or ends it without one |
| PathScope.CollectPathPages | apps/client-admin-console/src/composables/path-scope.ts:81-116 | the paging loop makes between one and ten requests and ends with what the walk from the first page yields |
| PathScope.WalkIsCompleteOrSaysSo | apps/client-admin-console/src/composables/path-scope.ts:81-116 | over a stable list with a reported total, an untruncated walk returned every folder, and a walk is truncated exactly when the list outgrows its reach |
| PathScope.WithoutTotalOnePageIsAll | apps/client-admin-console/src/composables/path-scope.ts:95-103 | without a reported total the walk claims completeness after one page, truly so iff the list fits into it |
| PathScope.SeparatorMarksDescendants | packages/client-web-kit/src/core/path/module.ts:12-26 | a path is the folder's or continues it behind a slash exactly if, split at slashes, the folder's names are a prefix of its own, so a sibling that only shares letters is no descendant |
| PathScope.SubtreeIsWhatLiesBelow | apps/client-admin-console/src/composables/path-scope.ts:450-457 | the listing of a folder is the realm's folders whose names the folder's are a prefix of, in the order of the list, each as often as the list has it |
| PathScope.FolderIsInItsSubtree | packages/client-web-kit/src/core/path/module.ts:21-26 | the listing holds exactly the folders of the list that are of the realm and whose names the path's are a prefix of, the folder itself iff the realm has it |
| PathScope.FolderComesFirst | apps/client-admin-console/src/composables/path-scope.ts:450-457 | in a list sorted by path a subtree that holds the folder itself begins with it |
| PathScope.PathScope.constructor | apps/client-admin-console/src/composables/path-scope.ts:486-494 | the first lookup is asked for at once |
| PathScope.PathScope.Resolve | apps/client-admin-console/src/composables/path-scope.ts:410-484 | a lookup is asked for, for the folder and realm of the moment or for none; notices of the previous one come down |
| PathScope.PathScope.Change | apps/client-admin-console/src/composables/path-scope.ts:492-494 | the new situation holds, and a lookup is rerun exactly when the folder or the realm changed |
| PathScope.PathScope.Retry | apps/client-admin-console/src/composables/path-scope.ts:511-513 | one more lookup for the same situation |
| PathScope.PathScope.Settle | apps/client-admin-console/src/composables/path-scope.ts:436-484 | a superseded reply or failure changes nothing; the newest is the answer from then on |
| PathScope.PathScope.Publish | apps/client-admin-console/src/composables/path-scope.ts:477-483 | what an answered lookup leaves: the subtree as far as it was read, or nothing, with the notices that belong to it |
| PathScope.PathScope.FiltersAreShown | apps/client-admin-console/src/composables/path-scope.ts:525-527 | the published filter is the one the course of events calls for, and an empty one carries a notice |
| PathScope.AnswerWasGiven | apps/client-admin-console/src/composables/path-scope.ts:469-471 | an answer that is held was given by one reply, to the lookup asked for last, for the current folder and realm, with none asked for since |
| PathScope.FirstReplyStays | apps/client-admin-console/src/composables/path-scope.ts:469-471 | the first reply to the lookup asked for last is the answer that is held |
| PathScope.LastAskIsForNow | apps/client-admin-console/src/composables/path-scope.ts:410-494 | after any course of events the last lookup is for the current folder and realm, if the permission, the folder and the realm are all there, and for nothing otherwise |
| PathScope.FilterIsHonest | apps/client-admin-console/src/composables/path-scope.ts:278-288 | after any course of events the filter is a list of ids iff the permission is settled and the last lookup, for the current folder and realm, was replied to with it: none if it failed, else the ids of the realm's folders at or below the route by their names, in order, each occurrence once, at most 300 |
| PathScope.MissingMeansGone | apps/client-admin-console/src/composables/path-scope.ts:479-481 | the notice that a folder is gone is raised iff no folder of the realm has its path, also when the walk over the sorted list was cut short |
| PathScope.Interleave | apps/client-admin-console/src/composables/path-scope.ts:336-527 | in every interleaving of changes, retries and replies the filter the object publishes is a list of ids exactly when, and exactly which, `FilterIsHonest` says |
| EntityStats.Stats.Load | apps/client-admin-console/src/composables/entity-stats.ts:192-200 | a read of the scope starts and the previous answer stays up |
| EntityStats.Stats.Watch | apps/client-admin-console/src/composables/entity-stats.ts:241-251 | a read starts iff the scope is not paused and not the one asked for last |
| EntityStats.Stats.Reply | apps/client-admin-console/src/composables/entity-stats.ts:202-209 | the newest reply is shown under its scope, a superseded one changes nothing |
| EntityStats.Stats.Fail | apps/client-admin-console/src/composables/entity-stats.ts:210-235 | the newest failure keeps only an answer held for the same scope and says whether it was a 403, a superseded one changes nothing |
| EntityStats.RefusedAnswerStays | apps/client-admin-console/src/composables/entity-stats.ts:215-225 | a scope that is loaded, answered, loaded again and refused with a 403 still shows its answer |
| EntityStats.Interleave | apps/client-admin-console/src/composables/entity-stats.ts:160-251 | any order of changes, replies and failures ends in the state that running the script step by step gives |
| EntityStats.ShownIsAnswered | apps/client-admin-console/src/composables/entity-stats.ts:160-251 | in every order, with no read in flight nothing is shown, or an answer of the scope requested last |
| EntityStats.ShownWasReplied | apps/client-admin-console/src/composables/entity-stats.ts:202-209 | in every order, what is shown was given by one reply, to the newest read of its time, which was of just that scope |
| EntityStats.SupersededChangesNothing | apps/client-admin-console/src/composables/entity-stats.ts:205-213 | a superseded reply or failure changes neither what is shown nor any flag |
| Base64Url.RoundTrip | packages/kit/src/base64.ts:25-45 | decoding undoes encoding for every byte string |
| Base64Url.EncodedForm | packages/kit/src/base64.ts:25-30 | the encoded form uses only the alphabet of section 5 of RFC 4648, has exactly ⌈4n/3⌉ letters and never a length of 1 modulo 4 |
| Base64Url.EncodedLetters | packages/kit/src/base64.ts:25-30 | the encoded form is the six-bit groups spelled in the url alphabet, without filling |
| Base64Url.LetterOfTable | packages/kit/src/base64.ts:25-30 | the url alphabet is Table 2 of RFC 4648, written out |
| Base64Url.GroupsKeepTheNumber | packages/kit/src/base64.ts:25-30 | each three bytes and the four letters at their place, valued by that table, are the same 24-bit number, the highest digit first |
| Base64Url.RestKeepsTheNumber | packages/kit/src/base64.ts:25-30 | so are the one or two bytes left and the last two or three letters, with zero bits at the end |
| Base64Url.UnfillRestores | packages/kit/src/base64.ts:37-45 | the filling restored from the length is exactly what was removed |
| Base64Url.EncodingIsInjective | packages/kit/src/base64.ts:25-45 | different byte strings have different encodings |
| Base64Url.DecodeAccepts | packages/kit/src/base64.ts:37-45 | any text is accepted iff, but for `=` at its end, its letters are of either alphabet, their number is not 1 modulo 4, and there is no more filling than that number misses; what is decoded is the letters |

## Left out

- WHATWG URL parsing: a parameter answering parsed parts; what is relied on of them (host without authority terminators, path beginning with `/`) is the type `Url`.
- UrlMatch.AcceptedUrlLiesInAPatternOrigin: says nothing about patterns that do not parse as http(s) URLs; what those accept is `UrlMatch.WrittenPatternsAreCompared`.
- WrittenPattern.WrittenCheckIsExact: is about parsers that read the host's stars from the text; a host that is decoded (`%2A%2A`), or joined over a dropped tab or line break between two stars, is outside it.
- Resolve.ResolveAll: resolvers read a fixed list of paths in order; a resolver that chooses its reads by value, throws, or catches a failed read is not modelled.
- Aliasing of containers: configuration values are values, so that a nested section passed in by the caller is written in place, and seen by whoever else holds it, is not captured; nor is a section that holds something other than an object.
- Schema members that are neither entry nor section, defaults that are functions or copied arrays, and the environment readers themselves: the first is excluded by type, the others are abstract.
- JsonSchema.BuildSchemaJSONSchema: the nested property records are one map by location, and what a property says (description, default, variable) is the entry; the order of properties is not modelled.
- JsonSchema.Place: a segment that names a member every object inherits (`constructor`, `__proto__`) is an ordinary name in the model.
- FileTree.FindUnknownSchemaPaths: which paths are listed, not in which order.
- HostLock.NoTokenIsReplayed: one host; sign-out, a process that dies, tokens revoked by the server for other reasons, and errors of the file system other than an existing lock are not modelled; a write of the entry and of the pair are one step each, and removing the pair from a storage that is given up belongs to the first. There is one storage: after a login that switches from the hosts file to the keychain or back, running commands go on reading the old one, which answers nothing, and present their own pair.
- AuthHook.Interleave: subscribers do not throw, the token creator does not throw before it returns its promise, and one hook is attached to a client; a caller sends each request object once; the request clone made by the HTTP client is not modelled.
- PathScope.Interleave: the folder list is stable during one lookup and every page but the last is full; the folder tree pane, `reloadCollection` and the canonical form of the route's query are not modelled, and a change and the lookup it starts are one step.
- EntityStats.Interleave: a scope change and the read it starts are one step; how a scope is built from the query and the window arithmetic are not modelled.
- Introspection.Interleave: the token cache around the verifier and the introspection request itself.
- Base64Url.DecodeAccepts: `atob`'s skipping of white space is not modelled; `base64ToArrayBuffer` is left out.
- HTTP servers and clients, rendering, components, templates, access policies and role validation: not part of this model.
