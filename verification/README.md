# Workspace: sign-in protocol and locked wheelhouse, modelled and proved

Two parts of the Workspace repository carry state that outlives one call and that
several writers share. This project models both and proves what every one of their
reachable states keeps.

**The locked wheelhouse.** Two scripts, written apart, read the same manifest and lock
into a plan: `build_plan` for the producer that fills a wheelhouse and saves it, and
`load_plan` for the consumer that restores it. `acquire` and `warm` fill a directory
from such a plan, and `verify` judges the directory. The modules, bottom up:

| module | what it holds |
|---|---|
| `Text`, `Toml` | strings, first and last occurrences, the hyphen split; parsed documents |
| `Names`, `WheelName`, `LockRecords` | name normalisation, the wheel filename pattern, lock records and the tables made of them |
| `IndexUrl`, `CredentialedUrl` | the URL parser as the scripts use it, the credentialed URL and what it reparses to |
| `ReviewedPlan`, `LockedPlan`, `PlanAgreement` | the two planners, and what they agree on |
| `PlanAcceptance`, `JointPlan` | which documents each planner accepts, told from the documents alone; families of documents they do accept |
| `Wheelhouse`, `Acquisition` | the directory, `verify`, the two fill loops, and why what they leave is accepted |
| `CacheKey`, `Snapshot` | the cache key; the two files read at one commit of a moving branch |

**Sign-in, sessions and administration.** A login begins (a ceremony row and a cookie),
completes (the state pair, the row taken once, the binding finalized under its row lock,
a session stamped with it, all in one transaction) and ends; operators add, bind,
revoke and disable meanwhile.

| module | what it holds |
|---|---|
| `CeremonyStore` | the ceremony table and `PostgresStateStore`, and the map of live ceremonies it refines |
| `LoginProtocol`, `LoginInvariant`, `LoginRuns` | logins, disables, rebinds and logouts as concurrent transactions with browsers' cookie jars, one small step at a time; the invariant; the theorems over whole runs |
| `LoginService` | the service calls and routes as they change the tables and one browser's cookies; the audit trail |
| `LoginRefinement` | every serial service call as a run of the concurrent protocol |
| `Members`, `Operators`, `Stranding`, `Onboarding` | the member list, the four operator writes, how each ends, and the guarantee that a tenant keeps an administrator |

Every method that changes state is proved against a function of the old state, or
against a declarative judgement (`Plans`, `Exact`); the theorems are about that function
or judgement. `Plans`, for either planner, says what an acceptable manifest and lock
are, and the method returns exactly the plan they then mean. The lemmas named `…Exactly`
say when each operation succeeds, when it is refused and what it leaves, in the terms of
its inputs and not of those functions.

## Assumptions

- One clock that never goes back. The code reads the application's clock for `expires_at`
  and the database's `now()` for the sweep and the consume.
- State ids and session ids are fresh; the state hash and the token hash are told apart
  by their preimages. For the cache key and the git blob ids nothing is assumed of the
  hash but its length: the theorems say "or here is a collision".
- Only this server writes its host-only cookies. A browser's jar at one tenant's host is
  an `Agent`. A response may be delivered late, more than once, never, and whether or not
  its transaction commits; a callback URL may be opened in any browser at any time.
- READ COMMITTED: a statement sees committed rows, and a writer waits for the row's
  holder. The sweep's cut-off and the consume's `now()` are the transaction's start.
- The schema's unique keys and foreign keys hold (`Keyed`, `Wf`); both are proved kept.
- The kernel's calls enter as their documented contracts: `finalize_external_login` locks,
  re-checks and holds; disabling takes the same lock, deactivates and revokes the sessions
  stamped with the binding; binding only adds or reactivates, one subject to one party
  and one identity to a party at a provider. The OIDC client compares the state pair,
  takes the row, then verifies or refuses; which it does is arbitrary.
- Stranding and audit theorems are about calls served one after another.
- Text is ASCII. Emails are the kernel's normalised text. Role slugs and display names
  are ordered by code point; the queries order by the database's collation.
- The URL parser checks the brackets of an authority against its host part, as later
  CPython 3.12 releases and their successors do; there a bracket anywhere in a credential
  makes the rebuilt URL malformed. Earlier releases check only the text between the
  brackets, and read a credential that holds an IPv6 literal in brackets as userinfo.
  `CredentialedUrl.RoundTrip`, `PartsSurvive` and `ReparseVerdict` are about the former.

## Where the code and its promises differ

The code is followed in each case.

- **A declared-private package can be planned from the public index.** `build_plan`
  refuses a declared-private package without a lock source, and a privately sourced
  package nobody declared. It does not refuse a declared-private package whose lock
  source record names a public host: that package is planned from the public index.
  `PlanAgreement.PrivateResolution` says exactly when a package resolves privately;
  `JointPlan.DeclaredPrivateYetPublic` is a family of manifests and locks `build_plan`
  accepts so and `load_plan` refuses; `PlanAgreement.PublicPinIsRefused` is the refusal
  for all documents.
- **"A bare https origin and path — nothing else" is not quite what is enforced.** An empty
  userinfo (`@`, `:@`), an empty port (`:`), a query and a fragment are admitted in a
  private index URL, and the host in any case: `CredentialedUrl.AdmittedPrivateIndex`.
  `JointPlan.DecoratedIndexIsPlanned` is the family of manifests and locks `build_plan`
  accepts so, and `load_plan` refuses.
- **The reparse check keeps only the host.** A credential that itself ends an authority
  naming the host passes it and the index's path is lost
  (`CredentialedUrl.ReparseKeepsOnlyTheHost`); which credentials do so is
  `CredentialedUrl.ReparseLosesParts`, which pass the check `CredentialedUrl.ReparseVerdict`,
  and which keep host, path, query and fragment `CredentialedUrl.PartsSurvive`.
- **The cache key does not separate every platform.** A hyphen in the operating system's
  name can move into the architecture's: `CacheKey.HyphenedPlatformsCollide`; which
  inputs share a key is `CacheKey.SharedKeys`. With hyphen-free operating system names
  none do: `CacheKey.KeyIsInjective`.
- **`disable_binding_for` refuses more than it must.** It asks whether the member counts,
  not whether this binding does, so it also refuses when the one able member has another
  active binding, and only then: `Stranding.DisableRefusal`. An administrator bound at
  two providers can disable neither binding: `Stranding.NeedlessRefusal`.
- **The stranding check takes no lock.** Two removals, of a role or of a binding, that each
  read the tables before the other commits can leave a tenant with nobody
  (`Stranding.TwoRemovalsStrand`), and do so exactly when every able member is one of the
  two they cost their ability (`Stranding.InterleavedRemovalsStrand`).
- **A login that could not be started leaves its ceremony row.** `begin_login`'s comment
  relies on an exception rolling the row back, but the route catches `LoginRefused` and
  answers 502, so the request ends normally. `LoginService.PostLogin` says what is stored
  then, and `LoginService.RefusedBeginKeepsItsRow` that the row is in it.
- **Refusing a forged callback can cost a member their login.** `complete_login` promises
  that it never does, and its half holds: the ceremony row is untouched
  (`LoginRuns.MismatchedCallbackIsInert`). But every exit of the route clears the state
  cookie, so a forged callback opened in the member's own browser leaves their return
  without one, and refused: `LoginRuns.ForgedCallbackCostsTheLogin`. A callback carries its
  own state exactly when nothing touched the cookie since that state's was delivered:
  `LoginRuns.CallbackCarriesItsState`.

## Model

| member | source | states |
|---|---|---|
| Names.NormaliseIsCanonical | scripts/warm_reviewed_wheelhouse.py:111-112 | normalising is idempotent, always reaches a name without capitals, underscores, dots or doubled hyphens, and those names are exactly its fixed points |
| Names.NormaliseByRuns | scripts/workspace_wheelhouse.py:44-45 | in any name, each maximal run of separators becomes one hyphen and the text on either side is normalised alone |
| Names.NormaliseBetweenRuns | scripts/workspace_wheelhouse.py:44-45 | text without separators is only lowercased |
| Names.NamePattern | scripts/warm_reviewed_wheelhouse.py:62 | the split at hyphens decides the name pattern: one or more lower-case words joined by hyphens |
| Names.NamesAreNormal | scripts/warm_reviewed_wheelhouse.py:298-300 | a name a plan admits is a fixed point of normalisation and cannot begin with a hyphen |
| Names.NameExactly | scripts/warm_reviewed_wheelhouse.py:62 | the name pattern admits exactly the non-empty texts of lower-case letters, digits and hyphens with no hyphen at an end or beside another |
| Names.ScopeExactly | scripts/warm_reviewed_wheelhouse.py:55 | the private scope is exactly those names that begin with `dotmac-` |
| Names.VersionExactly | scripts/warm_reviewed_wheelhouse.py:63 | exactly which characters a version may begin with and hold |
| Names.RequirementIsPlain | scripts/warm_reviewed_wheelhouse.py:57-63 | `name==version` of an admitted pair begins with no dash and holds no space or slash |
| WheelName.PatternIsUnambiguous | scripts/workspace_wheelhouse.py:26 | the filename pattern matches with given groups if and only if splitting at hyphens reads exactly those fields; name and version are the first two with or without a build tag, and joining prints the filename back |
| WheelName.WheelSuffix | scripts/warm_reviewed_wheelhouse.py:100 | whatever the pattern matches ends in `.whl` with something before it |
| LockRecords.PathNameIsWhole | scripts/warm_reviewed_wheelhouse.py:337 | `Path(f).name == f` holds exactly of names without a slash other than the dot |
| LockRecords.HashExactly | scripts/warm_reviewed_wheelhouse.py:99 | a recorded hash is the prefix and exactly sixty-four lower-case hexadecimal digits |
| LockRecords.TableMeans | scripts/workspace_wheelhouse.py:115-136 | the wheel table holds exactly the listed wheel filenames, each with the digest of its last record |
| LockRecords.OneOwner | scripts/workspace_wheelhouse.py:127-136 | among tables labelled with their packages, a filename has one owner: the normalised first field of the filename |
| LockRecords.MeansOnce | scripts/workspace_wheelhouse.py:86-139 | the records of a lock mean at most one plan |
| LockRecords.RepeatMeansNothing | scripts/warm_reviewed_wheelhouse.py:303-304 | a name recorded twice leaves no plan |
| Toml.DependenciesMean | scripts/warm_reviewed_wheelhouse.py:267-269 | a manifest path missing at any level means no dependencies; a `tool` or `poetry` that is no table escapes as an exception; dependencies that are no table are refused |
| Toml.PackagesMean | scripts/warm_reviewed_wheelhouse.py:281-283 | a lock's packages are its array, when there is one and it is not empty |
| Toml.FalsyExactly | scripts/warm_reviewed_wheelhouse.py:272 | which source values count as none |
| ReviewedPlan.ReadPrivate | scripts/warm_reviewed_wheelhouse.py:270-279 | returns the normalised names declared with a source when all lie in the private scope, and refuses otherwise |
| ReviewedPlan.ReadWheels | scripts/warm_reviewed_wheelhouse.py:327-347 | returns the wheel table when every record is acceptable and one is a wheel, and refuses otherwise |
| ReviewedPlan.FillPlan | scripts/warm_reviewed_wheelhouse.py:285-355 | returns the plan the lock's packages mean, and refuses only when they mean none |
| ReviewedPlan.BuildPlan | scripts/warm_reviewed_wheelhouse.py:259-355 | accepts exactly the manifests and locks that mean a plan, and returns it; escapes with an exception exactly when `tool` or `poetry` is present and no table |
| PlanAcceptance.ReviewedAcceptsExactly | scripts/warm_reviewed_wheelhouse.py:259-355 | on every manifest and lock: `build_plan` accepts if and only if the sourced dependencies are in the private scope and locked, and the lock has at least one entry, each readable, no two of one name |
| PlanAcceptance.ReviewedRowExactly | scripts/warm_reviewed_wheelhouse.py:286-348 | one lock entry reads to a row if and only if its texts, name, version, source and file records are as asked; a package without a source gets the public index unless it is declared private |
| LockedPlan.PinsMean | scripts/workspace_wheelhouse.py:60-72 | the pins are exactly the registry's declarations, normalised, each at its last version |
| LockedPlan.ReadPins | scripts/workspace_wheelhouse.py:56-72 | returns the pins when every registry declaration is exactly pinned and there is one, and refuses otherwise |
| LockedPlan.ReadWheels | scripts/workspace_wheelhouse.py:115-138 | returns the wheel table when every record is acceptable, no wheel is listed twice and one is listed, and refuses otherwise |
| LockedPlan.ReadPlanned | scripts/workspace_wheelhouse.py:99-139 | one package's checks give its row or a refusal |
| LockedPlan.FillPlan | scripts/workspace_wheelhouse.py:86-142 | returns the plan the lock's packages mean, and refuses only when they mean none |
| LockedPlan.LoadPlan | scripts/workspace_wheelhouse.py:75-142 | accepts exactly the manifests and locks that mean a plan, and returns it |
| PlanAcceptance.LockedAcceptsExactly | scripts/workspace_wheelhouse.py:56-142 | on every manifest and lock: `load_plan` accepts if and only if some dependency is the registry's, each such one is exactly pinned and locked, and the lock has at least one entry, each readable, no two of one name |
| PlanAcceptance.LockedRowExactly | scripts/workspace_wheelhouse.py:87-139 | one lock entry reads to a row if and only if its texts, name, source, version and file records are as asked; one without a source is public unless it is pinned |
| PlanAcceptance.RegistryRecordMeans | scripts/workspace_wheelhouse.py:104-108 | the source comparison is exactly these three texts and no other key |
| PlanAgreement.ReviewedPlanIsLabelled | scripts/warm_reviewed_wheelhouse.py:298-348 | every key of an accepted plan is a usable normalised name with a wheel, and every filename belongs to the package whose name it carries |
| PlanAgreement.LockedPlanIsLabelled | scripts/workspace_wheelhouse.py:99-139 | the same of every plan `load_plan` accepts |
| PlanAgreement.PrivateResolution | scripts/warm_reviewed_wheelhouse.py:306-355 | a planned package resolves from the private host if and only if it is declared private and its lock source does not name a public host; versions, wheels and number of packages are the lock's; every other index is the public one |
| PlanAgreement.PublicPinIsRefused | scripts/workspace_wheelhouse.py:102-114 | when `build_plan` plans a registry-pinned package from the public index, `load_plan` accepts no plan for those documents |
| JointPlan.DeclaredPrivateYetPublic | scripts/warm_reviewed_wheelhouse.py:307-325 | for every name, version, digest and source record naming a public host, `build_plan` accepts the manifest and lock and plans the declared-private package from the public index, and `load_plan` refuses them |
| JointPlan.PublicIndexIsSuchASource | scripts/warm_reviewed_wheelhouse.py:322-323 | the public index's own URL makes such a record |
| PlanAgreement.LockedPlanMeans | scripts/workspace_wheelhouse.py:99-142 | an accepted plan's package is private exactly when pinned, then at the pinned version from the registry's own source record; every other has no source; versions, wheels and number are the lock's |
| PlanAgreement.NoNameTwice | scripts/warm_reviewed_wheelhouse.py:298-304 | two lock entries whose names are the same under PEP 503 make both planners refuse |
| PlanAgreement.PlannersAgree | scripts/workspace_wheelhouse.py:56-142 | when both planners accept the same documents, their plans have the same names, versions and wheel tables, and a package is private in one exactly when its index is the private index in the other |
| JointPlan.BothPlannersAccept | scripts/workspace_wheelhouse.py:75-142 | a project of one pinned private package, for every name, version and digest, is accepted by both planners, privately in both: the agreement is not about nothing |
| JointPlan.SourcelessIsPlanned | scripts/warm_reviewed_wheelhouse.py:306-310 | to every lock `build_plan` accepts, an entry without a source and of a new name can be added: accepted, and planned from the public index |
| JointPlan.SourcelessIsLoaded | scripts/workspace_wheelhouse.py:111-112 | the same of `load_plan`, on the public registry |
| JointPlan.PublicAloneIsPlanned | scripts/warm_reviewed_wheelhouse.py:306-310 | a manifest that declares nothing private, with a lock of one ordinary package, is planned from the public index |
| JointPlan.PrivateBesidePublic | scripts/workspace_wheelhouse.py:102-114 | a pinned private package beside an ordinary one is accepted by both planners, one private and one public in both |
| CredentialedUrl.UnsplitSplit | scripts/warm_reviewed_wheelhouse.py:456-465 | printing split components and splitting again gives the same components |
| CredentialedUrl.RoundTrip | scripts/warm_reviewed_wheelhouse.py:456-485 | the credentialed URL splits back into the very authority it was built from, credential verbatim, and the index's path, query and fragment if and only if the credential holds no slash, question mark, hash, bracket, tab or line break; then the reparse check passes |
| CredentialedUrl.PartsSurvive | scripts/warm_reviewed_wheelhouse.py:456-485 | host, path, query and fragment survive the rebuild if and only if the parser reads authority to the credential's end and finds no bracket in it; a tab or line break is deleted and does no harm |
| CredentialedUrl.ReparseVerdict | scripts/warm_reviewed_wheelhouse.py:481-492 | exactly which credentials pass the reparse check, for a parser that checks brackets against the host part |
| CredentialedUrl.ReparseLosesParts | scripts/warm_reviewed_wheelhouse.py:466-485 | exactly which credentials pass the check with the path, query or fragment lost |
| CredentialedUrl.ReparseKeepsOnlyTheHost | scripts/warm_reviewed_wheelhouse.py:466-485 | a family of credentials passes the reparse check with the index's path lost |
| CredentialedUrl.AdmittedPrivateIndex | scripts/warm_reviewed_wheelhouse.py:115-163 | exactly which private index URLs are admitted |
| CredentialedUrl.DecoratedIsAdmitted | scripts/warm_reviewed_wheelhouse.py:115-163 | every index URL with the private host and an empty userinfo, an empty port, and any path, query and fragment passes the host and decoration checks |
| JointPlan.AdmittedIsPlanned | scripts/warm_reviewed_wheelhouse.py:314-321 | for every name, version and digest, `build_plan` plans the package from any admitted private index URL as it is written; `load_plan` refuses every one but the registry's own |
| JointPlan.DecoratedIndexIsPlanned | scripts/warm_reviewed_wheelhouse.py:137-163 | for every such decoration the manifest and lock are accepted by `build_plan`, decoration and all, and refused by `load_plan` |
| CredentialedUrl.QuoteRoundTrip | scripts/workspace_wheelhouse.py:174-178 | percent-encoding loses nothing of the credential |
| CredentialedUrl.QuoteReads | scripts/workspace_wheelhouse.py:176 | which bytes stay as they are and how any other is written |
| CredentialedUrl.QuotedNeverRefused | scripts/workspace_wheelhouse.py:174-184 | with the credential quoted, the URL always reparses to the registry with its path, so the check in `warm` never refuses |
| Wheelhouse.Directory.IterDir | scripts/workspace_wheelhouse.py:150 | yields every entry once, in any order |
| Wheelhouse.Check | scripts/workspace_wheelhouse.py:152-159 | one entry's checks find the package it is the locked wheel of, or that there is none |
| Wheelhouse.Select | scripts/workspace_wheelhouse.py:149-160 | the loop's selection is a bijection on the listed entries, and a refusal means that no bijection exists |
| Wheelhouse.Verify | scripts/workspace_wheelhouse.py:145-163 | accepts exactly the present directories whose entries are regular wheels in bijection with the plan's packages, each under a locked name with the locked hash, for every order of listing |
| Wheelhouse.ExactExactly | scripts/workspace_wheelhouse.py:151-163 | the bijection is exactly: the selection has the plan's packages, each selected entry a regular file with a wheel's suffix, listed by its package and no other, with the listed digest, and every entry selected |
| Wheelhouse.ExactMeans | scripts/workspace_wheelhouse.py:151-163 | what that bijection says of each package and of each entry |
| Wheelhouse.OneSelection | scripts/workspace_wheelhouse.py:145-163 | a directory has at most one such bijection, so the result does not depend on the order either |
| Acquisition.Fill | scripts/workspace_wheelhouse.py:185-218 | the directory holds the files accepted before the first refusal, one call a package, each the planned one |
| Acquisition.Screen | scripts/warm_reviewed_wheelhouse.py:428-431 | passes exactly when every package's host is allowed |
| Acquisition.ScreenedExactly | scripts/warm_reviewed_wheelhouse.py:428-431 | the screen passes exactly the plans whose every index names one of the three hosts |
| Acquisition.AcceptedIsScreened | scripts/warm_reviewed_wheelhouse.py:428-431 | it never refuses a plan `build_plan` made |
| Acquisition.NoSurplusExactly | scripts/warm_reviewed_wheelhouse.py:533-539 | the sweep passes exactly the directories of regular files with a wheel's suffix |
| Acquisition.AcceptMeans | scripts/warm_reviewed_wheelhouse.py:526-530 | a download is accepted exactly when it is one file of a locked name with the locked hash |
| Acquisition.FillAndSweep | scripts/warm_reviewed_wheelhouse.py:433-539 | once the checks have passed: the copies and calls up to the first refusal, and success exactly when complete with no surplus |
| Acquisition.Acquire | scripts/warm_reviewed_wheelhouse.py:397-539 | touches and downloads nothing without a credential, an allowed host for every package and a fresh destination; otherwise leaves the copies and calls up to the first refusal, and succeeds exactly when complete with no surplus |
| Acquisition.Warm | scripts/workspace_wheelhouse.py:166-219 | the same of `warm`, whose success is a completed loop and an exact directory |
| Acquisition.NoOverwrite | scripts/warm_reviewed_wheelhouse.py:531 | in a completed loop no copy overwrites another |
| Acquisition.FilledIsExact | scripts/warm_reviewed_wheelhouse.py:526-539 | a completed loop over a labelled plan leaves one wheel a package, nothing surplus, in the bijection `verify` looks for |
| Acquisition.AcquiredIsVerified | scripts/workspace_wheelhouse.py:145-163 | what `acquire` finishes filling from `build_plan(m, l)` is accepted by `verify` under `load_plan(m, l)`, whenever both planners accept |
| Acquisition.AcquireThenVerify | scripts/workspace_wheelhouse.py:145-163 | the two calls one after the other: when `acquire` reports complete, `verify` accepts and returns the bijection |
| Acquisition.WarmedIsVerified | scripts/workspace_wheelhouse.py:185-219 | `warm`'s closing `verify` never refuses a completed loop |
| Acquisition.AcquireUrlExactly | scripts/warm_reviewed_wheelhouse.py:438-492 | the URL handed to the downloader, exactly: the credentialed one for the registry when the credential passes, the index untouched for a public host, none elsewhere |
| Acquisition.AcquireCallMeans | scripts/warm_reviewed_wheelhouse.py:437-520 | the call `acquire` makes for each package of an accepted plan, or that it makes none because the credential does not pass |
| Acquisition.CleanPasses | scripts/warm_reviewed_wheelhouse.py:466-485 | any credential without a slash, question mark, hash, bracket, tab or line break passes |
| Acquisition.CredentialGoesOnlyPrivately | scripts/warm_reviewed_wheelhouse.py:437-520 | each call `acquire` makes is for the planned name and version; a package planned from the registry is asked of it by its index's own path and with the credential, any other of the bare public index |
| Acquisition.WarmAsksTheRightIndex | scripts/workspace_wheelhouse.py:174-191 | each call `warm` makes is for the planned name and version; a private package is asked of the registry's path with the quoted credential, a public one of the bare public index |
| Acquisition.AcquireCompletes | scripts/warm_reviewed_wheelhouse.py:437-531 | with a credential that passes and a downloader that serves the locked wheels, `acquire` gets past every package of an accepted plan |
| Acquisition.WarmCompletes | scripts/workspace_wheelhouse.py:185-218 | so does `warm`, with any credential |
| CacheKey.KeyDetermines | scripts/warm_reviewed_wheelhouse.py:363-381 | equal keys mean equal joined platform text and interpreter, and equal files or a hash collision in plain sight |
| CacheKey.KeyIsInjective | scripts/warm_reviewed_wheelhouse.py:375-381 | with hyphen-free operating system names, equal keys mean equal inputs, short of a collision |
| CacheKey.ShortInjective | scripts/warm_reviewed_wheelhouse.py:375-380 | dropping the dot from `3.N` loses nothing |
| CacheKey.ConsumerComputesTheKey | scripts/warm_reviewed_wheelhouse.py:366-381 | the key's text, with the digest a consumer computes by `hashFiles` over the manifest and the lock in that order |
| CacheKey.HexReads | scripts/warm_reviewed_wheelhouse.py:381 | the digest is written in lower-case hexadecimal, high half first |
| CacheKey.PythonExactly | scripts/warm_reviewed_wheelhouse.py:375-376 | exactly which interpreters are keyed |
| CacheKey.SharedKeys | scripts/warm_reviewed_wheelhouse.py:375-381 | which inputs share a key: those with the same joined platform text, interpreter and combined digest, and no others |
| CacheKey.HyphenedPlatformsCollide | scripts/warm_reviewed_wheelhouse.py:381 | a hyphen can move across the join, so different platforms share a key |
| Snapshot.BlobTextInjective | scripts/warm_reviewed_wheelhouse.py:166-170 | the text a blob id hashes determines the payload |
| Snapshot.BlobTextReads | scripts/warm_reviewed_wheelhouse.py:166-170 | the text git hashes: the word, a space, the length in decimal, a zero byte, the payload |
| Snapshot.ReadBlobIsTheFile | scripts/warm_reviewed_wheelhouse.py:208-223 | what `_read_blob` returns is the file at that path of that commit, or a hash collision, within the bound |
| Snapshot.SnapshotIsOneCommit | scripts/warm_reviewed_wheelhouse.py:226-251 | a `bind_snapshot` that returns gives the two files of the tree at `head_sha`, within both bounds, with that commit the head before and after the reads, however the head moves |
| Snapshot.SnapshotExactly | scripts/warm_reviewed_wheelhouse.py:200-251 | `bind_snapshot` returns two files if and only if the forge names the commit as the head, serves both with their size, blob id and bytes within their bounds, and names it again |
| CeremonyStore.PostgresStateStore.Put | src/dotmac_workspace/identity/state_store.py:165-184 | the whole table after a sweep and insert, unchanged when the unique key refuses |
| CeremonyStore.PostgresStateStore.Take | src/dotmac_workspace/identity/state_store.py:186-221 | the whole table after the consume and what the caller gets |
| CeremonyStore.StoreRefinesLive | src/dotmac_workspace/identity/state_store.py:98-121 | for every sequence of puts, takes and ticks the stored table answers as the simple map of live ceremonies: sweeping is never observable |
| CeremonyStore.TakeReturnsWhatWasPut | src/dotmac_workspace/identity/state_store.py:186-221 | in every run, a take returns exactly the fields its own tenant and provider binding put under that id, unexpired and not taken since |
| CeremonyStore.AtMostOncePerPut | src/dotmac_workspace/identity/state_store.py:113-121 | two takes of one id succeed only if the tenant put it again in between |
| CeremonyStore.TenantsAreApart | src/dotmac_workspace/identity/state_store.py:190-200 | no operation changes another tenant's rows, even under the same state hash |
| CeremonyStore.WrongProviderConsumes | src/dotmac_workspace/identity/state_store.py:208-213 | a wrong provider binding consumes the row and returns nothing |
| LoginInvariant.StepKeeps | src/dotmac_workspace/identity/service.py:222-372 | every step of every transaction, browser and operator keeps the protocol's invariant |
| LoginInvariant.RunKeeps | src/dotmac_workspace/identity/service.py:222-372 | so every state of every run has it |
| LoginRuns.SessionCookiesAreTheBeginners | src/dotmac_workspace/identity/service.py:222-293 | a session cookie in a browser comes from a ceremony that browser began at that host, and each landing is the return path it gave then |
| LoginRuns.BegunByAPut | src/dotmac_workspace/identity/service.py:201-219 | the record of who began a ceremony is made by that browser's own put and never changes |
| LoginRuns.MismatchedCallbackIsInert | src/dotmac_workspace/identity/service.py:249-255 | a mismatched or cookieless callback leaves every table as it was, at each of its steps |
| LoginRuns.JarMeans | src/dotmac_workspace/identity/session.py:157-210 | in every run a browser holds a ceremony's state exactly when the last event that touched its cookie delivered that state |
| LoginRuns.CallbackCarriesItsState | src/dotmac_workspace/identity/web.py:259-286 | in every run a callback carries its own state exactly when no refusal, sign-in, newer login or eviction touched the cookie since that state's was delivered, and otherwise can take nothing |
| LoginRuns.SessionJarMeans | src/dotmac_workspace/identity/session.py:124-154 | in every run a browser holds a session's cookie exactly when the last event that touched it was the delivery of that sign-in |
| LoginRuns.ForgedCallbackCostsTheLogin | src/dotmac_workspace/identity/service.py:260-261 | from every quiet state a run in which a forged callback is refused reaches one where the row still waits and the member's own return can take nothing |
| LoginRuns.RowsLeaveOnlyForTheirBeginner | src/dotmac_workspace/identity/state_store.py:98-121 | a ceremony row goes only because it had expired, or because the browser that began it came back with its own state |
| LoginRuns.LiveSessionsHaveActiveBindings | src/dotmac_workspace/identity/service.py:311-342 | in every committed state a live session's stamped binding is active, and is its own party's and tenant's |
| LoginRuns.IssuesForTheVerified | src/dotmac_workspace/identity/service.py:311-342 | in every run a session is issued on the active binding of exactly the verified subject, in the ceremony's own tenant and provider |
| LoginRuns.VerifiedByAStep | src/dotmac_workspace/identity/service.py:266-268 | a callback holds a verified subject only because a step verified it |
| LoginRuns.OneBindingPerSubject | src/dotmac_workspace/identity/bootstrap.py:184-187 | in every run a tenant's subject has at most one binding at a provider |
| LoginRuns.AdministrationStaysInItsTenant | src/dotmac_workspace/identity/bootstrap.py:221-228 | in every run an operator's commit changes no other tenant's binding or session |
| LoginRuns.RevokedForGood | src/dotmac_workspace/identity/session.py:103-121 | a revoked session never becomes live again and no session row is lost |
| LoginRuns.OneSessionPerCeremony | src/dotmac_workspace/identity/state_store.py:113-121 | committed sessions map one to one to ceremonies that were begun, and a ceremony still in the table left no session behind |
| LoginRuns.HonestLoginSignsIn | src/dotmac_workspace/identity/service.py:159-372 | from every reachable state, whatever else is under way, a login nothing holds up ends with one new live session, stamped with its binding, in the browser that began it, at the path it asked for |
| LoginRuns.InitiallyQuiet | src/dotmac_workspace/identity/service.py:159-219 | every initial state with an active binding at the tenant's provider is such a state |
| LoginRuns.ResolveThenIssueBreaks | src/dotmac_workspace/identity/service.py:36-54 | were the callback to resolve and issue without the lock, then from every such state a live session of a disabled binding could be reached |
| LoginService.Database.BeginLogin | src/dotmac_workspace/identity/service.py:159-219 | the ceremony table afterwards, and whether the login starts, is refused or meets the unique key |
| LoginService.Database.CompleteLogin | src/dotmac_workspace/identity/service.py:222-372 | outcome and all four tables afterwards, on every refusal and on success |
| LoginService.CompletedMeans | src/dotmac_workspace/identity/service.py:222-372 | completion means a matching pair, the tenant's own unexpired row of this provider, exactly that row gone, an active binding of the tenant, one new session and event, and the row's own return path; any other outcome leaves sessions, bindings and audit alone, and a mismatch or violated key everything |
| LoginService.CompletesExactly | src/dotmac_workspace/identity/service.py:222-372 | which callbacks complete: cookie and query carry one non-empty state, the tenant's row under it is live and of this provider, the code verifies against it and the subject's binding is active; then the row's own return path, or a violation when id or token is used; no other callback does either |
| LoginService.Database.EndSession | src/dotmac_workspace/identity/service.py:375-403 | revokes the one session the token names and writes one event, or changes nothing |
| LoginService.EndsExactly | src/dotmac_workspace/identity/service.py:375-403 | a live session of the tenant under the token's hash is revoked and the event with that member and session recorded, and nothing else changes; without one nothing does |
| LoginService.DisabledMeans | src/dotmac_workspace/identity/bootstrap.py:37-48 | a disable keeps every row, deactivates the one binding and revokes exactly the live sessions stamped with it; ceremonies and audit are untouched |
| LoginService.PostLogin | src/dotmac_workspace/identity/web.py:185-229 | the state cookie is set exactly when the login starts; a refusal answers 502, a unique key's exception 500 with nothing stored and no cookie moved |
| LoginService.RefusedBeginKeepsItsRow | src/dotmac_workspace/identity/web.py:197-210 | what a begin answered 502 leaves stored holds its ceremony row |
| LoginService.GetCallback | src/dotmac_workspace/identity/web.py:232-306 | every exit through the route clears the state cookie, an escaping exception does not; only a completed login sets a session cookie, and it redirects to the ceremony's return path |
| LoginService.PostLogout | src/dotmac_workspace/identity/web.py:309-341 | clears the session cookie and ends the session it named |
| LoginService.AuditIsConserved | src/dotmac_workspace/identity/service.py:340-403 | after every serial run login events and sessions correspond one to one with the same tenant, party and binding, and logout events name distinct revoked sessions |
| LoginService.LogoutIsIdempotent | src/dotmac_workspace/identity/service.py:383-391 | a repeated logout changes nothing and writes no event |
| LoginService.ServeKeepsKeys | src/dotmac_workspace/identity/session.py:90-100 | every request keeps the unique keys the next one relies on |
| LoginRefinement.CompleteIsRealised | src/dotmac_workspace/identity/service.py:222-372 | every serial `complete_login`, however it ends, is a run of the protocol: the steps of its transaction, from `StartCallback` to commit or abort, lead from any idle state standing for the tables to one standing for the tables the call leaves, with the response the route sends |
| LoginRefinement.BeginIsRealised | src/dotmac_workspace/identity/service.py:159-219 | so is every serial begin with a fresh state, served, unreachable or refused by the key |
| LoginRefinement.EndIsRealised | src/dotmac_workspace/identity/service.py:375-403 | so is every serial logout with the browser's own token |
| LoginRefinement.DisableIsRealised | src/dotmac_workspace/identity/bootstrap.py:221-228 | so is every serial disable of a binding that is there |
| LoginRefinement.RebindIsRealised | src/dotmac_workspace/identity/bootstrap.py:184-187 | so is reactivating a binding |
| LoginRefinement.BindIsRealised | src/dotmac_workspace/identity/bootstrap.py:184-187 | so is binding an unbound subject |
| LoginRefinement.DoReaches | src/dotmac_workspace/identity/service.py:272-275 | such steps carry a run on, so what holds in every run holds after every such call |
| LoginRefinement.TablesAreBound | src/dotmac_workspace/identity/service.py:311-342 | the protocol's theorem read on the service's tables: a live session's binding is there, active, and its own party's and tenant's |
| Members.ListMembers | src/dotmac_workspace/operator/service.py:91-140 | for every order the queries may answer in, one row a person of the tenant, in the parties query's order |
| Members.RowMeans | src/dotmac_workspace/operator/service.py:75-140 | each row holds all the member's role slugs, each once, in slug order, their own party and a binding of theirs or none when there is none, and `can_sign_in` exactly when the party is active, some grant names the administrator's role and some binding of theirs is active |
| Members.WouldStrand | src/dotmac_workspace/operator/service.py:152-163 | true exactly when no other member can sign in and administer |
| Operators.Workspace.FindMember | src/dotmac_workspace/identity/bootstrap.py:91-103 | the one person with that address in the tenant, or none |
| Operators.Workspace.GrantRole | src/dotmac_workspace/identity/bootstrap.py:141-168 | the role is made if the tenant has none by that slug, and the grant if it is not held; `Onboarding.GrantedMeans` says what that leaves |
| Onboarding.GrantedExactly | src/dotmac_workspace/identity/bootstrap.py:141-168 | granting succeeds exactly when the tenant has the role or the new id is free, and leaves exactly that grant and, if missing, that role |
| Operators.Workspace.AddMember | src/dotmac_workspace/operator/service.py:166-185 | finds the member or makes party and profile, and grants the role, or leaves every table as it was when a unique key refuses; `Onboarding.AddedMeans` says what that leaves |
| Onboarding.AddedExactly | src/dotmac_workspace/operator/service.py:166-185 | adding succeeds exactly when the address is a member's, or nobody's with the new id free, and the role is there or its id free; otherwise a violation that changes nothing |
| Operators.Workspace.RevokeRole | src/dotmac_workspace/operator/service.py:188-226 | removes at most the one grant, and nothing when the member or role is missing or the administrator's role would strand the tenant |
| Onboarding.RevokedExactly | src/dotmac_workspace/operator/service.py:188-226 | not found, conflict or done, each exactly when; done takes exactly that grant |
| Operators.Workspace.BindMember | src/dotmac_workspace/operator/service.py:229-261 | adds or reactivates one binding of an existing member, or changes nothing; `Onboarding.BoundMeans` says when and what |
| Onboarding.BoundExactly | src/dotmac_workspace/operator/service.py:229-261 | for a member: their own row reactivated, a conflict, a violation or one new row, each exactly when |
| Operators.Workspace.DisableBindingFor | src/dotmac_workspace/operator/service.py:264-291 | deactivates the one binding, keeps its row and revokes the sessions stamped with it, or changes nothing when it is another tenant's or the check refuses; `Stranding.DisabledMeans` says what that leaves |
| Onboarding.DisabledExactly | src/dotmac_workspace/operator/service.py:264-291 | not found, conflict or done, each exactly when |
| Onboarding.GrantedMeans | src/dotmac_workspace/identity/bootstrap.py:141-168 | afterwards the party holds the slug, no other grant is new, and parties and bindings are untouched |
| Onboarding.AddedMeans | src/dotmac_workspace/identity/bootstrap.py:106-168 | a completed `add_member` leaves one member with the address, old or new with party and profile rows, holding the role; it adds no other grant and touches no other party, no binding and no session |
| Onboarding.BoundMeans | src/dotmac_workspace/identity/bootstrap.py:171-198 | a completed `bind_member` leaves the subject actively bound to that member and every other binding alone; exactly when it is refused; a refusal changes nothing |
| Onboarding.OnboardingMakesAble | src/dotmac_workspace/operator/service.py:166-261 | adding an administrator and binding a subject to the address makes the member able, unless the address was a deactivated member's |
| Stranding.CallsFit | src/dotmac_workspace/operator/service.py:166-291 | every call keeps the schema's keys and references |
| Stranding.CallKeepsAble | src/dotmac_workspace/operator/service.py:152-291 | one call, refused or not, leaves a tenant that has an able member with one |
| Stranding.NeverStranded | src/dotmac_workspace/operator/service.py:152-291 | from any tenant with an able member, every finite serial sequence of the four calls ends with one |
| Stranding.OtherTenantsUntouched | src/dotmac_workspace/operator/service.py:166-291 | no call changes another tenant's set of able members |
| Stranding.RevocationRefusalIsExact | src/dotmac_workspace/operator/service.py:207-215 | revoking the administrator's role is refused exactly when nobody able would be left |
| Stranding.DisabledMeans | src/dotmac_workspace/identity/bootstrap.py:37-48 | a disable keeps the row, and what changes besides its activity is exactly the live sessions it issued |
| Stranding.AlwaysWhole | src/dotmac_workspace/identity/bootstrap.py:106-138 | no serial sequence of calls leaves a person without a profile or a live session of a disabled binding |
| Stranding.DisableRefusal | src/dotmac_workspace/operator/service.py:281-290 | disabling is refused whenever nobody able would be left, and beyond that exactly when the one able member has another active binding |
| Stranding.NeedlessRefusal | src/dotmac_workspace/operator/service.py:281-290 | an administrator bound at two providers can disable neither binding, though either would be enough |
| Stranding.InterleavedRemovalsStrand | src/dotmac_workspace/operator/service.py:152-291 | two removals, of roles or bindings, each accepted on the tables both read, leave nobody able if and only if every able member is one of the two they cost the ability |
| Stranding.TwoRemovalsStrand | src/dotmac_workspace/operator/service.py:152-291 | of two administrators, one losing role or binding and the other role or binding, both calls are accepted and nobody is left |

## Left out

- LoginService.AuditIsConserved: serial calls only, because the audit claim is not made of interleaved transactions.
- Stranding.NeverStranded: serial calls only, because the check takes no lock and the interleaved claim is false (see above).
- LoginService.GetCallback: a provider that is not configured (503) and the htmx form of the responses are not modelled.
- Operators.Workspace.AddMember: the display name the kernel makes of the two names is given.
- CredentialedUrl.ReparseVerdict: parsers that take an IPv6 literal inside the credential for userinfo (see Assumptions), and the parser's NFKC check, are not modelled.
- LoginRefinement.BeginIsRealised: the time to live is not negative, and a browser's cookies change by the protocol's own deliveries between the calls.
- Names.NormaliseIsCanonical: ASCII only; capital letters outside ASCII that lowercase into it are not modelled.
- LoginProtocol: session expiry, an inactive party at the finalizer, and the session rows' own locks (revocation is idempotent) are not modelled; the finalizer's choice among bindings is any that fits.
- Concurrent `put`s of one state id: ids are drawn fresh, so the protocol has none; the unique key's refusal is in `CeremonyStore`.
- TOML and JSON decoding, and the refusals' texts: documents arrive parsed, and a refusal is one value.
- Subprocesses, pip, timeouts and the child's environment: the downloader is an arbitrary answer to each call, and its staged entries are readable regular files.
- `sorted(plan.items())`: the loops are proved for every order of the packages.
- `admit_dispatch`, `install`, `list_roles`, `list_bindings` and the command lines: each would add only easy members.
- The OIDC client, token issuing and `authenticate_request`: outside the repository.
- Rendering, guards, assembly, configuration and secret bootstrap, migrations and row-level security: no property that spans operations.
