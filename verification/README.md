# Two stores, one contract

This project models the storage layer of an identity and tenancy service and the protocols
built on it, and proves what they promise. One domain contract is implemented twice:

- **SQLite**, the simple form: serialized transactions over tables with PRIMARY KEY, UNIQUE
  and FOREIGN KEY constraints.
- **DynamoDB**, the optimistic form: the same guarantees rebuilt from conditional multi-item
  transactions, a key-only `unique_constraints` table, copied index attributes, positional
  classification of failed conditions, bounded retry, and a witness item behind a global
  invariant.

The driver of each store is taken at its word and modelled by it: a `TransactWriteItems` is
atomic and evaluates its conditions on committed items, point reads are strong, an index
query may answer anything an index could have held; a SQLite statement sees the statements
before it and is checked as it runs. HMAC, Unicode decomposition and the random source are
parameters. Ids are minted fresh.

## How it is organised

| files | content |
|---|---|
| `Outcomes`, `Text`, `Radix`, `Timestamps`, `Keys`, `Domain` | values, string order, numerals, the timestamp codec, composite keys |
| `Relational`, `SQLite` | tables as sets of rows, single statements; the adapter as a class |
| `Items`, `Transactions` | item tables with their validity and abstraction to rows; the transaction engine, classifier and retry loop |
| `Batches`, `Refinement`, `Faults`, `BatchWrites`, `Provisioning`, `DynamoDb` | row batches as transactions, their refinement, the errors they report; the services' two batches; the adapter as a class |
| `RoleTransitions`, `RoleOutcomes`, `RoleRuns` | concurrent grants and revocations of the administrator role; their single steps; whole calls over runs |
| `Convergence`, `LoginRuns` | concurrent first logins; whole calls over runs, and what a first login stores |
| `Ownership`, `MemberRuns` | concurrent organization creation and member changes; what a success did and what a rejection means |
| `KeyLifecycle`, `KeyRuns`, `Credentials`, `Scopes` | API keys over runs; what each call did; their literals; their scopes |
| `Renames`, `Reachable` | organization updates; every reachable state of the key-value store |
| `Deeds`, `Guarantees` | what each of its operations does; what each protocol assumes of the other operations, proved of them |
| `Differences` | an input for each place where the adapters part |
| `Pagination`, `Listing` | keyset pages and traversals; the listings of both adapters |
| `TenantDeletion` | removing a tenant |
| `Slugs` | the slug of a name |
| `Migrations`, `Openers` | schema versions; processes opening one file at once |

A protocol is a state machine whose steps are single storage interactions. A client carries
its phase and what it has read; a step `Elsewhere` stands for everything the rest of the
system may do in between, limited only as the step's predicate says. A run is any sequence
of steps from any state that satisfies the machine's invariant (the `QuietStart` lemmas name
the plain ones), so the theorems about runs hold for every interleaving of any number of
clients.
The methods of the two classes are proved against the same functions the machines use.

## Where the code and its documentation differ

The model follows the code. Each point has its exact condition proved, and an input on which
it shows (module `Differences`; its `InStore` lemmas fix one store for most of them).

- The INSERT of an organization does not write `suspended_at`
  (`src/app/storage/sqlite.py:1177-1191`), the item does (`src/app/storage/dynamodb.py:438-439`).
  So a batch leaves the same rows on both adapters exactly when none of its organizations
  carries a suspension time (`Refinement.BatchRefines`, `Differences.SuspendedOrganization`).
- A membership's record-id guard outlives the membership (`src/app/storage/dynamodb.py:2229-2232`),
  so a reused id is refused by one adapter and accepted by the other
  (`Differences.ReusedMembershipId`). Identity keys join their parts with `#`, so two tuples
  share a key text exactly when one has a `#` in the tenant or behind the subject's first
  character (`Keys.IdentityTextAmbiguity`, `Differences.SharedIdentityText`). Both are what
  `Batches.Obstructed` means; the refinement holds with exactly these exceptions.
- Two events with one id inside a batch are an `entity_id` duplicate on SQLite and the
  base error on DynamoDB. A batch with one fault gets one kind of error exactly when its
  event ids differ (`Faults.OneFaultOneError`, `BatchWrites.UserBatchTargets`,
  `Differences.RepeatedEvent`).
- A user item written before the role attribute reads as a plain user, yet its grant never
  commits: the compare-and-swap needs the stored attribute. SQLite would commit
  (`RoleOutcomes.GrantNeedsStoredRole`, `Differences.GrantWithoutStoredRole`).
- The guard of a demotion pins one witness, so a refusal at commit is spurious exactly when
  some other active administrator is left (`RoleOutcomes.RefusalIsSpurious`,
  `Differences.SpuriousRefusal`).
- A transition is answered with a read made after its commit; the serialized form reads
  inside the transaction. The answer is the serialized one exactly when the user still reads
  as committed then (`RoleRuns.ReadBackAnswers`, `Differences.AnswerShowsLaterRevocation`);
  that no step has touched the user suffices, but is not necessary
  (`Differences.AnswerAfterUndoneEdit`).
- A rename that lost a race reports the organization as missing although it is there
  (`Renames.LostRenameReportsMissing`, `Differences.LostRename`). An update that read its own
  slug does not write the slug, so it differs from the SQL UPDATE exactly when a rename came
  between (`Renames.KeptSlugRefines`, `Differences.KeptSlugAcrossRename`).
- Users older than the email attribute are missing from the lookup by email until they are
  backfilled (`Listing.EmailListsAgree`, `Differences.EmailInStore`).

## Model

| member | source | states |
|---|---|---|
| Text.EqualWidthPrefixes | src/app/storage/dynamodb.py:324-331 | behind prefixes of one width, the prefixes decide the string order and the rest breaks ties |
| Timestamps.DecodeInvertsEncode | src/app/storage/dynamodb.py:264-284 | the stored text of every UTC time is 27 characters and decodes to that time |
| Timestamps.EncodeShowsFields | src/app/storage/dynamodb.py:264-275 | character by character, the stored text is year, month, day, hour, minute, second and microsecond in decimal digits behind RFC 3339's separators, with `Z` at the end |
| Timestamps.EncodeKeepsOrder | src/app/storage/dynamodb.py:264-275 | stored timestamps sort exactly as the times they stand for |
| Timestamps.EarlierIffSooner | src/app/storage/sqlite.py:358-374 | calendar order is the order of instants, leap years included |
| Timestamps.ToUtcFailsOutOfRange | src/app/storage/dynamodb.py:264-275 | normalizing an aware time to UTC fails exactly when the result has no year between 1 and 9999 |
| Timestamps.EastIsEarlier | src/app/storage/dynamodb.py:264-275 | of two equal local readings the one further east is the earlier time |
| Timestamps.StoredTextIsChronological | src/app/storage/dynamodb.py:264-284 | whatever their offsets, two aware times are stored as texts that sort chronologically, and equal texts mean the same instant |
| Keys.ConstraintTextIsInjective | src/app/storage/dynamodb.py:302-308 | two constraints never share a partition key |
| Keys.ConstraintTextsNameTheirKind | src/app/storage/dynamodb.py:302-308 | each partition key is its kind's stored name, `#` and the guarded text |
| Keys.IdentityTextsReadInOrder | src/app/storage/dynamodb.py:311-321 | an identity text is provider, subject and tenant in this order, the tenant empty when there is none |
| Keys.IdentityTextIsInjective | src/app/storage/dynamodb.py:311-321 | with tenants free of `#`, one identity text stands for one provider, subject and tenant |
| Keys.IdentityTextAmbiguity | src/app/storage/dynamodb.py:311-321 | without that restriction, a tuple shares its text with another exactly when it has a `#` in the tenant or behind the subject's first character |
| Keys.SortKeyOrder | src/app/storage/dynamodb.py:324-331 | sort keys compare exactly as the pair of creation time and id, and name that pair uniquely |
| Keys.SortKeysComeApart | src/app/storage/dynamodb.py:324-331 | creation time and id are read back from a sort key |
| Relational.InsertKeepsIntegrity | src/app/storage/sqlite.py:166-251 | an accepted INSERT keeps every declared PRIMARY KEY, UNIQUE and FOREIGN KEY constraint |
| Relational.InsertErrorsMeanWhatTheyName | src/app/storage/sqlite.py:616-687 | an INSERT fails with a kind of error exactly when the rule it names is broken, the primary key before unique indexes and those before foreign keys, and for no other reason |
| Relational.StoredRowsAreTheGiven | src/app/storage/sqlite.py:1171-1191 | INSERTs that succeed leave what they were given exactly when none of their organizations carries a suspension time, the one column they do not write |
| Items.ValidTablesHaveIntegrity | src/app/storage/dynamodb.py:680-733 | items whose constraint entries are the inverse of their tables stand for rows that satisfy every constraint |
| Transactions.CommitIsStepwise | src/app/storage/dynamodb.py:1150-1167 | with distinct targets, checking all conditions up front and applying all writes agrees with checking and applying them one by one |
| Transactions.ClassifyCancellation | src/app/storage/dynamodb.py:918-950 | the first failed condition in submission order decides; without one, throttling beats contention and contention asks for a retry |
| Transactions.ExecuteTransaction | src/app/storage/dynamodb.py:978-1002 | of at most five submissions at most one applies the writes; it is the one that reports success, and every earlier one met only contention |
| Batches.MembershipRowRefines | src/app/storage/dynamodb.py:2060-2100 | a membership's puts succeed exactly when pair and record id are free and no outlived guard obstructs them, and add that row |
| Batches.IdentityRowRefines | src/app/storage/dynamodb.py:1475-1502 | an identity's puts succeed exactly when id and tuple are free and the key text is not another tuple's |
| Refinement.BatchRefines | src/app/storage/dynamodb.py:2496-2776 | on a valid state a batch's transaction commits exactly when the SQLite transaction would and nothing obstructs it; then it adds the batch's rows, the items stay valid, and SQLite leaves the same rows exactly when no organization of the batch carries a suspension time |
| Refinement.WritesAreDistinct | src/app/storage/dynamodb.py:2612-2630 | a batch the SQLite transaction accepts never addresses one item twice, checks included |
| Faults.StatementsBlameAFault | src/app/storage/sqlite.py:616-687 | a SQLite transaction fails exactly when some row breaks a rule, and reports a rule that is broken |
| Faults.TransactionBlamesAFault | src/app/storage/dynamodb.py:785-878 | the descriptor of the first failed condition reports a rule the batch really breaks |
| Faults.OneFaultOneError | src/app/storage/dynamodb.py:918-1002 | an evaluated batch that breaks exactly one rule gets the same error kind from both adapters exactly when its transaction addresses no item twice, and else the base error |
| BatchWrites.UserBatchCovers | src/app/storage/dynamodb.py:2616-2630 | the parents collected behind a first login's puts are exactly those the batch does not create, each once |
| BatchWrites.OrganizationBatchCovers | src/app/storage/dynamodb.py:2756-2770 | likewise for an organization's batch, whose owner is always checked |
| BatchWrites.UserConflictsAlign | src/app/storage/dynamodb.py:2592-2605 | the hand-written descriptor list matches the batch's items position by position |
| BatchWrites.UserBatchTargets | src/app/storage/dynamodb.py:2548-2630 | a first login's transaction addresses an item twice exactly when two of its events share an id |
| BatchWrites.OrganizationBatchTargets | src/app/storage/dynamodb.py:2718-2770 | likewise for an organization's |
| Provisioning.LoginWritesAreTheBatch | src/app/services/identity.py:254-359 | a first login's transaction is its batch's whatever the store holds, needs no parent from outside and carries no suspension time |
| Provisioning.CreationWritesAreTheBatch | src/app/services/organization.py:101-155 | an organization's creation is its batch's transaction, with its owner as the one parent from outside and no suspension time |
| SQLite.SQLiteStorage.Create | src/app/storage/sqlite.py:1193-1214 | one INSERT, of the columns it lists, is committed, or rolled back with its error and no trace |
| SQLite.SQLiteStorage.ProvisionUser | src/app/storage/sqlite.py:1833-1912 | all rows of a first login or none; only the identity tuple is a race, and its error always names the tuple's committed owner |
| SQLite.SQLiteStorage.ProvisionOrganization | src/app/storage/sqlite.py:1914-1968 | all rows of an organization or none, every conflict plain |
| SQLite.SQLiteStorage.TransitionApplicationRole | src/app/storage/sqlite.py:1062-1162 | guard, compare-and-swap and event are one serialized transaction |
| SQLite.SQLiteStorage.RevokeApiKey | src/app/storage/sqlite.py:1683-1736 | only an active key is changed; the answer is the stored key, revoked, and a missing key is an error |
| SQLite.SQLiteStorage.AdminSuspendOrganization | src/app/storage/sqlite.py:1341-1369 | the organization is disabled, keeping an earlier suspension time, none of its keys is left active, and every other key and every earlier revocation time stays |
| SQLite.SQLiteStorage.AdminDeleteOrganization | src/app/storage/sqlite.py:1390-1439 | no DELETE of the sequence trips a foreign key, and exactly the tenant's rows are gone |
| DynamoDb.DynamoDbStorage.Create | src/app/storage/dynamodb.py:2060-2100 | a single create commits at one submission exactly when the INSERT would and nothing obstructs it, adding that row, which is the INSERT's unless it is a suspended organization; one fault gets the INSERT's kind of error; a membership without its organization fails early |
| DynamoDb.DynamoDbStorage.ProvisionUser | src/app/storage/dynamodb.py:2496-2664 | the account commits at one submission exactly when the SQLite transaction would and nothing obstructs it, adding the batch's rows, the same on both adapters exactly without a suspension time; otherwise nothing changes and the first failed descriptor is reported, for one fault with SQLite's kind of error exactly when the event ids differ; a race names the user who owns the stored identity then, or nobody if there is none |
| DynamoDb.DynamoDbStorage.ProvisionOrganization | src/app/storage/dynamodb.py:2666-2776 | likewise for an organization, without race mapping |
| DynamoDb.DynamoDbStorage.UpdateOrganization | src/app/storage/dynamodb.py:1973-2044 | what each branch leaves and reports at the submission that decides |
| DynamoDb.DynamoDbStorage.RevokeApiKey | src/app/storage/dynamodb.py:2376-2424 | only contention is retried, up to the last attempt; at the deciding attempt the effect is the conditional UPDATE's, and the answer stored truth |
| DynamoDb.DynamoDbStorage.TransitionApplicationRole | src/app/storage/dynamodb.py:1643-1818 | the read-guard-write cycle repeats after contention and only then, at most five times; what the serialized transaction decides at its read is answered from the cycle's read; a commit is the serialized transaction on the items it met and answers the user as read back; a lost compare-and-swap answers stored truth; any other ending has written nothing; a cycle nobody disturbs is the serialized transaction throughout, answer and rows, but for a grant on an item without a role |
| DynamoDb.DynamoDbStorage.AdminSuspendOrganization | src/app/storage/dynamodb.py:1338-1383 | run alone, the update and the sweep over the keys leave the rows of the SQL transaction: the organization disabled with its first suspension time, no active key of it left, and keys revoked before as they were |
| DynamoDb.DynamoDbStorage.AdminDeleteOrganization | src/app/storage/dynamodb.py:1403-1473 | run alone from a valid state, the deletions leave a valid state with the rows the SQL statements leave |
| RoleTransitions.EarliestIsOldest | src/app/storage/dynamodb.py:1544-1570 | the pinned witness is the earliest by creation time and id, whatever the order of the answer |
| RoleTransitions.TransitionsChangeTheExpectedRole | src/app/storage/sqlite.py:1062-1162 | a serialized transition changes a user who had the expected role to the role asked for, at the given time, and adds its event |
| RoleTransitions.CommittedTransition | src/app/storage/dynamodb.py:1572-1641 | a committed role change had its expected role, a witness other than the target that is an active administrator, and a fresh event; its whole effect is role, index role, time and event |
| RoleTransitions.NextKeepsActiveAdmin | src/app/storage/dynamodb.py:1544-1599 | no step removes the last active administrator, however stale the index answers are |
| RoleTransitions.AlwaysAnActiveAdmin | src/app/storage/dynamodb.py:1711-1818 | once there is an active administrator, no interleaving of any number of grants and revocations reaches a state without one |
| RoleOutcomes.CommitIsSerializedStep | src/app/storage/dynamodb.py:1723-1794 | a committed transition is the step the serialized transaction takes at that point, same outcome and same rows |
| RoleOutcomes.NoChangeIsSerializedNoOp | src/app/storage/dynamodb.py:1796-1818 | NO_CHANGE, also after a lost compare-and-swap, is the serialized no-op at that read |
| RoleOutcomes.ReadIsSerializedRead | src/app/storage/dynamodb.py:1735-1738 | the read of a call ends it exactly where the serialized transaction ends at its own read, and with the same answer; a re-read after a lost compare-and-swap gives that answer or else the base error |
| RoleOutcomes.GuardIsSerializedGuard | src/app/storage/dynamodb.py:1544-1570 | on an accurate answer over backfilled items the guard refuses exactly when the serialized guard does, and else pins another active administrator |
| RoleOutcomes.GrantNeedsStoredRole | src/app/storage/dynamodb.py:1601-1641 | where SQLite grants, the optimistic grant commits exactly when the item carries a role |
| RoleOutcomes.RefusalLostItsWitness | src/app/storage/dynamodb.py:847-861 | a last-administrator refusal at commit means the pinned witness is one no longer, and changes nothing |
| RoleOutcomes.LostWitnessWasDemoted | src/app/storage/dynamodb.py:1684-1702 | a witness that was active when pinned and is not at commit was demoted in between by a committed call |
| RoleOutcomes.RefusalIsSpurious | src/app/storage/dynamodb.py:1758-1772 | such a refusal differs from the serialized outcome exactly when another active administrator is left |
| RoleOutcomes.ChangesAreRecorded | src/app/services/administration.py:213-251 | each committed role change adds exactly its one event; every other step of a call adds none and writes nothing |
| RoleOutcomes.LogReplays | src/app/services/administration.py:213-251 | over every run a user's grants and revocations alternate, and replaying them from the initial role gives the stored role |
| RoleOutcomes.EventTellsTheChange | src/app/services/administration.py:213-251 | the event of a committed change is stored, and its action, roles, target and time are those of the user as changed |
| RoleRuns.TransitionedWasSerialized | src/app/storage/dynamodb.py:1711-1794 | over every run, a call that answers with a transition has a commit of its own behind it, which is the serialized transaction at that point: same outcome, same rows |
| RoleRuns.CommitsOnce | src/app/storage/dynamodb.py:1711-1721 | no call commits twice |
| RoleRuns.ReadBackAnswers | src/app/storage/dynamodb.py:1785-1794 | over every run the read-back succeeds and answers the user as it reads then: still there, with its status, and with the role asked for unless another committed transition came between; that is the serialized answer exactly when the user still reads as committed |
| RoleRuns.RefusalIsExplained | src/app/storage/dynamodb.py:1750-1760 | over every run, a call refused at commit as the last administrator chose its witness by its own query and finds it an active administrator no longer; if it was one at the query, another call's committed demotion came between |
| RoleRuns.AnswersAreSerialized | src/app/storage/dynamodb.py:1735-1818 | over every run, any answer but a transition, that refusal and the base error is the serialized transaction's at a point inside the call, and nothing is written there |
| RoleRuns.GuardRefusals | src/app/storage/dynamodb.py:1750-1757 | a query that lists no other active administrator refuses a demotion, and nothing else refuses without a submission |
| RoleRuns.BaseErrorHasItsCause | src/app/storage/dynamodb.py:1711-1818 | a step ends a call in the base error exactly for a submission that is not evaluated, a fifth one that contention turns away, or a re-read after a lost compare-and-swap that finds another role than asked for |
| RoleRuns.BaseErrorIsExplained | src/app/storage/dynamodb.py:1711-1818 | over every run such a cause lies at the call's last step; every submission before it was turned away, and before a re-read the swap was lost |
| Convergence.OnlyTheRaceFails | src/app/storage/dynamodb.py:2592-2612 | with fresh ids a first login can fail only on the identity constraint, and then that position is blamed |
| Convergence.CallsConverge | src/app/services/identity.py:403-476 | whenever two calls on one subject return, they return the same user; that calls on an owned subject do return is `LoginRuns.OwnedCallsAnswer` |
| Convergence.OneAccountPerSubject | src/app/services/identity.py:427-476 | at most one account per subject over the whole run; distinct subjects get distinct users even with one email; a finished call on a provisioned subject returned that user, found it disabled, or met a retryable failure |
| Convergence.NeverAConflict | src/app/services/identity.py:465-476 | no interleaving makes a call report a provisioning conflict or a duplicate |
| Convergence.StepAddsWholeAccounts | src/app/storage/dynamodb.py:2632-2657 | a step of a call adds one whole account or no row at all |
| LoginRuns.OwnedCallsAnswer | src/app/services/identity.py:403-476 | over every run a call on a subject that has an account, begun or having lost the race, answers that user after the two or three reads it has left, or that it is disabled; it never fails and never submits |
| LoginRuns.SubmissionComesTo | src/app/storage/dynamodb.py:2632-2664 | a submission in any weather: it commits exactly in clear weather on a free subject, loses the race exactly on a taken one, is due again after contention up to four times, and is else the base error without a trace |
| LoginRuns.StrayAccounts | src/app/services/identity.py:403-476 | an account whose user is gone counts as none at the first lookup and as a conflict behind a lost race |
| LoginRuns.BaseErrorHasItsCause | src/app/services/identity.py:427-463 | a step ends a first login in the base error exactly for a submission that is not evaluated or a fifth that contention turns away |
| LoginRuns.BaseErrorIsExplained | src/app/services/identity.py:427-463 | over every run a call that ended in the base error made such a submission last, and every one before it was turned away |
| LoginRuns.FirstLoginsMakePlainUsers | src/app/services/identity.py:254-359 | a step that commits an account stores an active plain user with the profile's name and email, the identity, a personal workspace with a placeholder name and the user's slug, the owner membership and the three events; no step of a first login makes an administrator |
| Ownership.EffectKeepsOwners | src/app/services/member.py:75-128 | creations and grants keep one active owner membership per organization, its creator's |
| Ownership.OwnershipIsKept | src/app/services/member.py:99-171 | over every run each organization has exactly one owner membership, its creator's, active and never replaced |
| MemberRuns.RejectionsAreTrue | src/app/services/member.py:75-171 | a rejected call wrote nothing at that step, and its error reports what is the case there: the taken slug, pair or id, the missing parent or membership, the protected owner; the base error only a submission that is not evaluated or a fifth that contention turns away |
| MemberRuns.SuccessIsTheDeed | src/app/services/member.py:75-171 | over every run a successful removal has read the membership, deleted it and then recorded its event; a successful grant has stored it, active and with its role, before its event; a successful creation has stored organization, owner and events |
| MemberRuns.DeedsAreDoneOnce | src/app/services/member.py:75-171 | a call removes or stores its member at most once |
| MemberRuns.StepsComeForward | src/app/services/organization.py:101-215 | every step of a call leads on to its next interaction or its end, unless contention makes it due again |
| KeyLifecycle.RevocationStaysInTenant | src/app/services/api_key_service.py:313-365 | every committed revocation was asked for by a call of the key's own organization and carries that call's time |
| KeyLifecycle.RevokedOnce | src/app/storage/dynamodb.py:2376-2424 | a key is revoked at most once and keeps the time of that first revocation whatever duplicates, suspensions and reactivations follow |
| KeyLifecycle.RevocationsAnswerTheFirst | src/app/services/api_key_service.py:313-365 | every revocation that succeeds answers with a revoked key carrying the first revocation's time |
| KeyLifecycle.ExpiresAtItsInstant | src/app/auth/api_key_auth.py:176-180 | a key is expired exactly from the instant of its expiry on |
| KeyRuns.InteractionDoes | src/app/storage/dynamodb.py:1338-1402 | what each interaction of a call leaves: the new key under its segment, one key revoked with the time given, the organization disabled with its first suspension time or active without one, and nothing else |
| KeyRuns.AnswersStayTrue | src/app/services/api_key_service.py:313-365 | over every run what a finished call answered still holds: the key created is stored, the key revoked is revoked with the time answered |
| KeyRuns.SuspensionEndsTheKeys | src/app/storage/dynamodb.py:1338-1383 | over every run a finished suspension has disabled the organization and then seen revoked every active key its scan listed |
| KeyRuns.RejectionsAreTrue | src/app/storage/dynamodb.py:2376-2424 | a rejected key call wrote nothing at that step, and its error reports what is the case: the taken id or segment, the missing parent, key or organization, or the weather that failed it |
| KeyRuns.StepsComeForward | src/app/storage/dynamodb.py:2376-2424 | every step leads on to the next interaction or the end, unless contention makes it due again |
| KeyLifecycle.AcceptedUntilRevoked | src/app/auth/api_key_auth.py:126-182 | the literal from creation authenticates its key at every later instant before its expiry until its revocation is committed, and never afterwards |
| Credentials.KeyIdIsNumeral | src/app/auth/credentials.py:94-108 | shifting and masking yields the 26-digit base-32 numeral, whose first ten characters depend on the time alone |
| Credentials.KeyIdDecodes | src/app/auth/credentials.py:94-108 | every 48-bit time and 80-bit randomness is read back from a well-formed key id |
| Credentials.KeyIdsKeepOrder | src/app/auth/credentials.py:94-108 | key ids sort as time and randomness, and differ whenever those do |
| Credentials.KeyIdStartsLow | src/app/auth/credentials.py:94-108 | the first character is one of `0` to `7` exactly while the time fits 48 bits |
| Credentials.LiteralBijection | src/app/auth/credentials.py:120-173 | building and parsing a literal are inverse and each accepts exactly what the other produces, with any secret |
| Credentials.LiteralsShowTheirParts | src/app/auth/credentials.py:120-173 | a literal is `fn_live_` or `fn_test_` by its environment, the 26 characters of the key id, `_` and the secret, and is at most 512 characters long |
| Credentials.CrockfordLetters | src/app/auth/credentials.py:94-108 | the alphabet is the digits and capitals without `I`, `L`, `O` and `U` |
| Scopes.SameScopesSameList | src/app/services/api_key_service.py:160-169 | order and repetitions of scopes do not matter, and normalizing twice changes nothing |
| Scopes.NormalizedIsCanonical | src/app/services/api_key_service.py:160-169 | the list is strictly ascending and names the same scopes |
| Slugs.SlugJoinsWords | src/app/services/organization.py:54-60 | the slug is the name's alphanumeric runs joined by hyphens, cut at 255 and less a hyphen left at the end |
| Slugs.SlugsAreNormal | src/app/services/organization.py:54-60 | a slug has 1 to 255 characters and is hyphen-separated runs of `[a-z0-9]`, even after truncation |
| Slugs.NoSlugWithoutAlnum | src/app/services/organization.py:54-60 | there is no slug exactly when no alphanumeric character survives |
| Slugs.SlugsAreFixedPoints | src/app/services/organization.py:54-60 | a text is its own slug exactly when it is in normal form |
| Slugs.LettersAreFolded | src/app/services/organization.py:54-60 | each capital becomes its own small letter |
| Slugs.AlnumLetters | src/app/services/organization.py:54-60 | besides hyphens a slug is made of `a` to `z` and `0` to `9` |
| Slugs.PlainTextAppends | src/app/services/organization.py:54-60 | folding and dropping work character by character, in order |
| Renames.RenameRefines | src/app/storage/dynamodb.py:1999-2044 | a rename whose slug read is current commits exactly when the SQL UPDATE succeeds, with the same rows, and else reports the same duplicate |
| Renames.UpdateSetsFourColumns | src/app/storage/sqlite.py:1228-1249 | a successful update sets name, slug, name status and time of its organization and leaves every other column and row; it fails exactly on a missing organization or on another's slug |
| Renames.LostRenameReportsMissing | src/app/storage/dynamodb.py:2012-2041 | a rename reports a missing organization exactly when the slug changed, or the organization went, since the read |
| Renames.KeptSlugRefines | src/app/storage/dynamodb.py:1975-1997 | the update that keeps the slug leaves what the UPDATE leaves exactly when the stored slug is still the given one |
| Renames.SlugOwners | src/app/storage/dynamodb.py:2046-2058 | asking the constraint whether a slug is available answers the SQL query |
| Differences.SuspendedOrganization | src/app/storage/sqlite.py:1177-1191 | an organization given a suspension time: both adapters accept it, SQLite without the time |
| Differences.RepeatedEvent | src/app/storage/dynamodb.py:2606-2608 | two events with one id: a duplicate for the statements, the base error for the transaction |
| Differences.ReusedMembershipId | src/app/storage/dynamodb.py:2219-2232 | from any valid store, a removed membership's id is free for the INSERT and a duplicate `entity_id` for the puts |
| Differences.SharedIdentityText | src/app/storage/dynamodb.py:311-321 | tenants `x#y` and `y` make two tuples one key: free for the INSERT, a duplicate for the puts |
| Differences.LostRename | src/app/storage/dynamodb.py:2012-2041 | the second of two renames planned on one slug reports the organization missing, where the UPDATE succeeds |
| Differences.KeptSlugAcrossRename | src/app/storage/dynamodb.py:1975-1997 | an update that read its own slug keeps another's new slug, where the UPDATE restores it |
| Differences.GrantWithoutStoredRole | src/app/storage/dynamodb.py:1601-1641 | a grant to a user whose item has no role is the base error, where SQLite grants |
| Differences.SpuriousRefusal | src/app/storage/dynamodb.py:1572-1599 | of three administrators, revoking the second behind the first fails once the first is revoked, though the third is left |
| Differences.AnswerShowsLaterRevocation | src/app/storage/dynamodb.py:1785-1794 | a run in which a grant is answered with a plain user, a revocation having been committed before its read-back |
| Differences.AnswerAfterUndoneEdit | src/app/storage/dynamodb.py:1785-1794 | a run in which the user is edited and edited back before the read-back, and the answer is the serialized one |
| Reachable.ReachableIsValid | src/app/storage/dynamodb.py:680-733 | in every reachable state slug, identity and segment items are the exact inverse of the tables, copied attributes are right, and every declared constraint holds |
| Deeds.InteractionsDo | src/app/storage/dynamodb.py:1185-1224 | every interaction of any operation has in clear weather exactly the effect its call stands for, field by field, and in any other weather none |
| Deeds.CallsComeForward | src/app/storage/dynamodb.py:978-1043 | only a grant and an update read first; a write is due again after contention and else the call's last |
| Deeds.NewcomersAreIndexed | src/app/storage/dynamodb.py:342-369 | whatever interleaves, every user who was not stored without index attributes at the start is listed by its role and by its email |
| Deeds.EmailsAreFound | src/app/storage/dynamodb.py:1226-1253 | on a store begun without users the email index answers the scan at any time |
| Guarantees.RolesAreLeftAlone | src/app/storage/dynamodb.py:1643-1709 | every operation but a role change keeps users, their roles and their status, as the runs of role transitions assume of the rest |
| Guarantees.KeysAreLeftAlone | src/app/storage/dynamodb.py:2303-2328 | every operation that neither creates nor ends keys keeps them and their segments, as the runs of key calls assume |
| Guarantees.MembersAreLeftAlone | src/app/services/member.py:75-171 | every operation that neither creates organizations nor adds or removes members keeps memberships, organizations and their creation times, as the runs of member calls assume |
| Guarantees.LoginsAreLeftAlone | src/app/services/identity.py:427-476 | every operation keeps identities and the status of users, as the runs of first logins assume |
| Reachable.IdentityLookupIsScan | src/app/storage/dynamodb.py:1504-1542 | the two point reads of an identity lookup answer the join, for tenants free of `#` |
| Reachable.SegmentLookupIsScan | src/app/storage/dynamodb.py:2303-2328 | the two point reads of a key lookup answer the scan for the segment |
| Reachable.OnlyGenuineLiteralsVerify | src/app/auth/api_key_auth.py:126-182 | verification accepts a literal for a key exactly when the key is stored, active and the instant before its expiry, if it has one, and the literal prints its environment, segment and a secret with the stored hash |
| Listing.EmailListsAgree | src/app/storage/dynamodb.py:1226-1253 | the ordered answer of the email index is the ordered answer of the scan exactly when no user of that address predates the index attribute |
| Pagination.ClampLimit | src/app/models/pagination.py:39-41 | the page size is the admissible one closest to the request |
| Pagination.QueryMatches | src/app/storage/dynamodb.py:1840-1889 | for any batching by the server the accumulated matches are in order and miss no key that was a match at every query, up to the point reached; there are enough of them unless the partition ended |
| Pagination.ListPage | src/app/storage/dynamodb.py:2169-2217 | a page covers every key behind its cursor that was a match throughout, up to its own cursor, and all of them without one; with a cursor it is full, and a match was read behind it |
| Pagination.TraversalVisitsOnce | src/app/storage/dynamodb.py:2118-2167 | following cursors to the end returns every key that was a match throughout exactly once and in order, whatever is inserted, deleted and changed meanwhile |
| Pagination.FetchedPageCovers | src/app/storage/sqlite.py:699-713 | a SQL page covers what a page must, so it may stand in any traversal, and its cursor is never in vain |
| Pagination.SelectedTraversalVisitsOnce | src/app/storage/sqlite.py:1266-1303 | following the cursors of SQL pages over a changing table returns every row position that was a match throughout exactly once and in order |
| Pagination.TraversalIsListing | src/app/storage/dynamodb.py:2118-2167 | on a fixed store the pages together are exactly the ordered list of matches |
| Pagination.PageParity | src/app/storage/sqlite.py:699-713 | a page of the index equals the page built from the SQL fetch of one row more than the limit |
| Listing.RowOrderIsKeyOrder | src/app/storage/sqlite.py:1290-1297 | ordering by the two columns is ordering by the one sort key |
| Listing.MembershipPagesAgree | src/app/storage/sqlite.py:1503-1536 | both adapters return the same page of an organization's memberships |
| Listing.KeyPagesAgree | src/app/storage/sqlite.py:1653-1681 | both adapters return the same page of an organization's keys |
| Listing.UserOrganizationPagesAgree | src/app/storage/dynamodb.py:2138-2162 | filtering the by-user index pages through the membership rows of the SQL join in its order |
| Listing.ReadBackOrganizations | src/app/storage/dynamodb.py:1896-1935 | however keys come back unprocessed, the organizations return in page order exactly when five requests suffice and all are there |
| Listing.LeftoversShrink | src/app/storage/dynamodb.py:1896-1935 | what a batch read answered is not asked for again |
| Listing.ListUserOrganizations | src/app/storage/dynamodb.py:2118-2167 | on a store at rest the page is that of `SELECT o.*` over the join, organization by organization and with its cursor, however queries and batch reads are split, and fails exactly when five batch reads do not suffice |
| TenantDeletion.DeletionNeverTrips | src/app/storage/sqlite.py:1390-1439 | no statement of the deletion leaves a child without its parent, for any order of the users, and only the tenant's rows are gone |
| TenantDeletion.OnlyStrangersStay | src/app/storage/sqlite.py:1390-1439 | table by table, a row stays exactly if it is neither the organization's nor one of its members' nor an event about one of them |
| TenantDeletion.SuspensionEndsKeys | src/app/storage/sqlite.py:1341-1369 | suspension disables the organization, keeps an earlier suspension time, leaves it no active key and touches nothing else |
| TenantDeletion.DeletionAgrees | src/app/storage/dynamodb.py:1403-1473 | the items left are valid, the constraint index exact again, and their rows are those the SQL statements leave |
| Migrations.DatabaseFile.ApplyMigration | src/app/storage/sqlite.py:830-874 | the whole chain is committed or the file is as it was, with a newer stamp, a failing statement or a driver error |
| Migrations.ChainConverges | src/app/storage/sqlite.py:269-291 | from every stamp the chain ends at the shape of a fresh file, keeps every row and value, and fills the added columns as stated |
| Migrations.DefaultsAgreeWithBackfill | src/app/storage/sqlite.py:166-291 | a row written without the added columns reads as a migrated one does, and nothing but these columns was added |
| Migrations.DeclaredReferences | src/app/storage/sqlite.py:166-251 | the foreign keys of every version; session tables have none |
| Openers.BuildStep | src/app/storage/sqlite.py:789-828 | each statement of a fresh schema finds its table and leaves a file still on the way to the current shape |
| Openers.UnknownStampIsRefused | src/app/storage/sqlite.py:789-828 | a file of a later version is refused and left as it is |
| Openers.RefusalHasItsCause | src/app/storage/sqlite.py:789-874 | on a known version only a failing migration of one's own refuses the file; a migration that another finished first is no failure |
| Openers.OpenersCanGoOn | src/app/storage/sqlite.py:789-874 | an opener under way can always take its next step |
| Openers.StepsComeForward | src/app/storage/sqlite.py:789-874 | each step of one's own comes closer to the end, at most sixteen of them, and nobody sets another back |
| Openers.NoRowIsLost | src/app/storage/sqlite.py:789-874 | opening loses no row: a migration extends each as stated, any other step leaves them |
| Openers.OpenersConverge | src/app/storage/sqlite.py:789-874 | however many openers race and wherever they crash, the file has the shape of its stamp or is still being built, is migrated at most once, and whoever is ready sees the complete current shape |

## Left out

- HTTP routers, schemas and error envelopes, token verification, deployment and operator scripts: no state of the store.
- Pydantic field validation, id prefixes except where tenant deletion needs them, redaction and timing equalization.
- The check of a login's profile and the choice of its display name among profile, username and subject: a call is given its profile.
- The events appended behind a created or a revoked API key: a key call ends with the store's answer.
- Login-state and session operations beyond what tenant deletion removes.
- `admin_search_organizations`: the two adapters' searches are not meant to agree; `admin_summary` and the unpaged user listing only read.
- `resolve_unique_user`, the audit anchor, `build_api_key_context` and `build_user_context`: read-only and straight-line.
- The cursor's base64 and JSON form: a cursor is the sort key it carries, and its scope tag is not modelled.
- The limits of a transaction to 100 items and of fields to 255 characters.
- Timestamp texts other than the one the encoder writes, which the library's parser would also accept.
- Column order, storage types and collations of the SQLite schema; lock timeouts.
- Fields with no behaviour of their own: a key's service, display prefix and last use, an event's actor and target types.
- RoleOutcomes.LostWitnessWasDemoted: assumes the witness was an active administrator when it was pinned, which a stale index need not grant.
- DynamoDb.DynamoDbStorage.AdminSuspendOrganization: run alone; interleaved with other calls its key updates are the steps of KeyLifecycle.
- DynamoDb.DynamoDbStorage.AdminDeleteOrganization: run alone, on ids that carry their kind's prefix, with each scan complete.
- TenantDeletion.DeletionAgrees: constraint entries are matched by entity id, so ids of different kinds must differ, as their prefixes make them.
- Reachable.ReachableIsValid: tenant deletion is not among the interleaved operations; contention repeats a call without counting the five attempts, which only adds runs.
- RoleTransitions.AlwaysAnActiveAdmin: assumes every other operation keeps users, their roles and their status, which Guarantees.RolesAreLeftAlone proves of them; tenant deletion, which removes users, is not among them.
- KeyLifecycle.AcceptedUntilRevoked: assumes every other operation leaves keys and their segment entries alone, which Guarantees.KeysAreLeftAlone proves of them; tenant deletion is not among them.
- Convergence.OneAccountPerSubject: assumes no other operation uses the ids minted for a login, or removes users or identities.
- Ownership.OwnershipIsKept: assumes no other operation writes memberships; the services have none but tenant deletion.
