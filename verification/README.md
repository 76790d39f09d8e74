# Verification of the protocols and calculations in Cacao Accounting

Cacao Accounting is an ERP. Below its web layer it keeps a hash-chained audit trail, makes posted documents immutable,
approves documents and control operations under frozen evidence, clears purchases through a bridge account, computes
taxes and document totals, prints amounts in words, caches query results by generation, and lexes raw SQL. This project
models those parts in Dafny and proves what they promise, over every input, every run and every interleaving.

`dafny verify dfyconfig.toml` checks everything.

| files | what they model |
|---|---|
| `AuditChain`, `AuditChainTheorems` | the chain verifier: grouping, walking, reporting, and when the report is empty |
| `AuditWriters`, `AuditRows`, `AuditRuns` | writers of the chain: lock, reserved tail, ORM batches, Core rows, commit and rollback; what becomes of single rows, and of whole transactions |
| `DocumentStore`, `ImmutabilityMonitor`, `FrozenColumns`, `DocumentRuns` | the guards of flushes and Core statements, histories of accepted runs, the columns that may change, by name, and the life of a document |
| `ApprovalPolicy`, `ApprovalEngine`, `ApprovalTheorems`, `ApprovalAuthority`, `ApprovalRuns` | permissions, frozen policies, matrix rules, the request state machine, who may approve which amount, and how requests end |
| `ControlReview`, `ReviewTheorems`, `ReviewRules`, `ReviewRuns`, `MatchingColumns` | proposals and reviews of control operations, the matching configuration and its decimal columns |
| `PurchasePosting`, `PostingRules`, `ReceiptBalance`, `PurchaseClearing` | account lines of receipts and invoices, balance, clearing over runs |
| `TaxArithmetic`, `TaxTheorems`, `TaxLines` | taxes of a template, inclusive, additive and deductive |
| `FiscalTotals`, `FiscalLines`, `FiscalAgreement`, `FiscalDifference` | the total of a document and its stored rows, line by line, and by how much they differ |
| `NumberWords`, `NumberForms`, `NumberParsing` | amounts in words, how each is composed, and a parser that undoes the printer |
| `UserCache`, `UserScopedCache` | the generation-invalidated cache: interleavings, and the decorator on one store |
| `SqlLexer`, `SqlGrammar`, `SqlLexerTheorems`, `SqlLiterals` | scanners, what stripping makes of each part of a statement, and what literal removal blanks |
| `Common`, `Rounding`, `Sums`, `Sorting` | options and results, decimal rounding, sums of sequences, sorting by a key |

Conventions. SHA-256 is a free constructor, hence injective; a hash that is only ever compared (approval snapshots, review
digests, cache arguments) is represented by what it hashes. Amounts are exact rationals, rounded where the program rounds.
Code that raises is a function or method with a `Result`; a state change that raises leaves the state as it was, because its
caller rolls the transaction back. Loops and in-place updates are methods proved against a function, and the theorems are
about that function.

What was found not to hold in general is stated with a counterexample and the exact condition. A posted document is thawed by
a status the guards cannot compare (an SQL expression, or a value the database converts), or by one outside draft, posted and
cancelled, and by nothing else; a reverted relation returns by such a status likewise (`ImmutabilityMonitor`). A receipt that
mixes allocated and unallocated lines of one item can post out of balance, exactly when an unallocated line meets a negative
pool (`ReceiptBalance`). A rule accumulated on the goods, or a manual line that carries a rule's id, is charged and stored
differently; `FiscalDifference` says by how much for every document, and when it makes no difference. A submission and a
cancellation pending together block each other for good (`ApprovalTheorems`). An evicted generation key revives what was cached
in the initial generation, until the next invalidation (`UserCache`). Comment stripping can fail to be idempotent on versioned
comments of MySQL and MariaDB, exactly when its output contains a comment (`SqlLexerTheorems`). Literal removal blanks code after
a quoted identifier that contains a quote; where no comment is left, it blanks exactly the string values if and only if no
identifier contains a quote or opens a dollar quote (`SqlLiterals`). Spanish words end at 10^18
(`NumberParsing`).

## Model

| member | source | states |
|---|---|---|
| AuditChain.WalkChain | cacao_accounting/audit_chain.py:242-253 | the loop that follows single successors from a root returns the set visited and the fork it stopped at, as the recursive walk does |
| AuditChain.GroupByPrev | cacao_accounting/audit_chain.py:257-274 | the dictionary built row by row maps every `prev_hash` to exactly the rows that carry it, in table order |
| AuditChain.CollectLeftover | cacao_accounting/audit_chain.py:257-274 | every row neither visited nor reported yet ends up in the leftovers, in table order |
| AuditChain.ChainLinkIssues | cacao_accounting/audit_chain.py:257-274 | the findings are the extra roots, the fork of the walked branch and everything left over |
| AuditChain.Tampered | cacao_accounting/audit_chain.py:233-239 | no payload finding exactly when every row's stored hash is the hash of its own fields |
| AuditChainTheorems.WalkTrace | cacao_accounting/audit_chain.py:242-253 | for any table the walk ends, having followed one linked path of distinct rows and stopped only at unvisited successors of that path |
| AuditChainTheorems.EmptyReportIffLinear | cacao_accounting/audit_chain.py:257-274 | with distinct ids and hashes there is no link finding exactly when the rows can be ordered into one chain that starts without a predecessor |
| AuditChainTheorems.EachRowVisitedOrReportedOnce | cacao_accounting/audit_chain.py:257-274 | every row is either on the walked branch or reported exactly once, never both |
| AuditChainTheorems.VerifyIsEmptyIff | cacao_accounting/audit_chain.py:277-291 | verification is silent exactly when every payload is intact and the hashed rows form one chain |
| AuditChainTheorems.EditIsDetected | cacao_accounting/audit_chain.py:95-111 | editing a hashed column of an intact chain and keeping the stored hash is reported |
| AuditChainTheorems.RehashIsDetected | cacao_accounting/audit_chain.py:233-291 | editing a row some other row links to and recomputing its hash is reported |
| AuditChainTheorems.RehashIsSilentIff | cacao_accounting/audit_chain.py:277-291 | rewriting a row of an intact chain and recomputing its hash goes unreported exactly when no row links to it |
| AuditChainTheorems.AddedRowIsDetected | cacao_accounting/audit_chain.py:257-274 | adding a row with an existing row's predecessor, as a second root or a second successor, is reported |
| AuditChainTheorems.BadLinkIsDetected | cacao_accounting/audit_chain.py:257-274 | a link to nowhere, or two rows with one predecessor, is reported |
| AuditChainTheorems.DeletionIsSilentIffPrefix | cacao_accounting/audit_chain.py:277-291 | deleting rows of an intact chain goes unreported exactly when what remains is an initial part of it |
| AuditWriters.Connection.ReserveTail | cacao_accounting/audit_chain.py:155-163 | the tail comes from the cache of the running transaction or else from the visible head, and is cached for that transaction |
| AuditWriters.Connection.StampOne | cacao_accounting/audit_chain.py:166-200 | a Core or fallback row is linked to the reserved tail and becomes the tail |
| AuditWriters.Connection.ChainPendingRows | cacao_accounting/audit_chain.py:203-230 | the pending rows of a flush are chained in id order after the visible head, whatever the connection had cached |
| AuditWriters.HeadOfChain | cacao_accounting/audit_chain.py:114-127 | on rows that form one chain, in any storage order, exactly the last one is found as head |
| AuditWriters.StepKeepsInv | cacao_accounting/audit_chain.py:114-230 | every step of every transaction keeps committed plus reserved rows one chain, in the lock holder's hands only, and only appends to it |
| AuditWriters.CommittedChainVerifies | cacao_accounting/audit_chain.py:114-291 | after any interleaving of writers the committed trail verifies without findings |
| AuditWriters.NeverTwoHeads | cacao_accounting/audit_chain.py:114-127 | every session that looks for the head, to flush or to stamp without a cached tail, finds exactly the last row it can link to, never two |
| AuditWriters.CommittedChainOnlyGrows | cacao_accounting/audit_chain.py:155-230 | committed evidence is only ever appended to, in chaining order |
| AuditRows.HashedRowIsNamed | cacao_accounting/audit_chain.py:233-274 | a hashed row is reported once if its stored hash is not that of its fields and once more if the walk misses it |
| AuditRows.LeastRootIsWalked | cacao_accounting/audit_chain.py:257-274 | of several rows without a predecessor the one of least identity is walked and all others are reported |
| AuditRows.HeadIsTheOnlyOne | cacao_accounting/audit_chain.py:114-127 | on any table looking for the head fails exactly when two hashed rows have no successor, and otherwise finds the hash of the one there is |
| AuditRows.BatchIsChainedInOrder | cacao_accounting/audit_chain.py:203-230 | the rows of a flush are stamped in the order of their ids, none lost or added, each linked to the one before it and hashed over its own fields |
| AuditRuns.FlushIsCommitted | cacao_accounting/audit_chain.py:203-230 | when no transaction is open any session can flush any new rows and commit, and then exactly those rows are appended, the lock is free and no other session is touched |
| AuditRuns.CoreRowIsCommitted | cacao_accounting/audit_chain.py:166-180 | so it can a single row written by a Core insert |
| AuditRuns.RolledBackRowIsGone | cacao_accounting/audit_chain.py:183-200 | a row stamped and inserted in a transaction that is rolled back leaves the trail as it was |
| DocumentStore.SessionGuard.GuardNewLines | cacao_accounting/internal_control_service.py:466-482 | new lines are accepted exactly when each lands under documents not posted before this transaction, or is a reference of a posted advance payment |
| DocumentStore.SessionGuard.GuardFlush | cacao_accounting/internal_control_service.py:367-385 | the loop over dirty and deleted objects accepts exactly the flushes whose headers, lines and flow rows each may change as they do |
| DocumentStore.SessionGuard.RememberPosted | cacao_accounting/internal_control_service.py:395-414 | a flush adds to the posted-here set exactly the headers it inserts as posted or moves from draft to posted |
| ImmutabilityMonitor.GuardedFlush | cacao_accounting/internal_control_service.py:367-414 | guarding a flush and remembering what it posted is one step of the history: accepted exactly when the guards hold, and the set of the session stays the set of the history |
| ImmutabilityMonitor.EndTransaction | cacao_accounting/internal_control_service.py:417-420 | so is the end of a transaction, by commit or rollback |
| ImmutabilityMonitor.FlushKeepsHeader | cacao_accounting/internal_control_service.py:343-385 | an accepted flush that writes only plain known lifecycle values to a posted header neither deletes it, nor returns it to draft, nor changes it outside the operational columns |
| ImmutabilityMonitor.StatementKeepsHeader | cacao_accounting/internal_control_service.py:710-731 | so does an accepted Core statement |
| ImmutabilityMonitor.FlushThawsIff | cacao_accounting/internal_control_service.py:357-385 | an accepted flush leaves a posted header unposted exactly when the status it stores is a plain value other than draft, posted and cancelled, or comes out unposted from a value the guard cannot compare: an SQL expression or a value the database converts |
| ImmutabilityMonitor.StatementThawsIff | cacao_accounting/internal_control_service.py:837-855 | so does an accepted Core statement: by a foreign bound value, or by an assignment the guard cannot compare that the database turns into unposted |
| ImmutabilityMonitor.AssignmentCanThawIff | cacao_accounting/internal_control_service.py:1027-1049 | told before execution: an assignment can thaw some header exactly when it is not a bound draft, posted or cancelled |
| ImmutabilityMonitor.StatusExpressionThaws | cacao_accounting/internal_control_service.py:837-855 | subtracting one from the status by an expression is accepted on any headers and turns posted ones into drafts |
| ImmutabilityMonitor.EditOnlyAllowedIff | cacao_accounting/internal_control_service.py:367-385 | editing one header is accepted exactly when it is still a draft, or changes operational columns only and no plain status of draft is written |
| ImmutabilityMonitor.CancelledMayBePostedAgain | cacao_accounting/internal_control_service.py:357-364 | the lifecycle guard does not order posted and cancelled: a cancelled document may be set back to posted |
| ImmutabilityMonitor.ThawedHeaderIsRewritable | cacao_accounting/internal_control_service.py:343-385 | a header thawed by one accepted flush, by foreign value or expression, can have any column rewritten by the next |
| ImmutabilityMonitor.PersistedHeaderIsFrozen | cacao_accounting/internal_control_service.py:343-385 | over any accepted run that writes known plain status values to a header, from the moment it is persisted as posted or cancelled until the transaction ends it stays posted with the same evidence, whatever happens to others |
| ImmutabilityMonitor.CommittedHeaderIsFrozen | cacao_accounting/internal_control_service.py:343-385 | once a transaction has ended with a header posted, no later run of flushes, statements, commits and rollbacks that writes known plain status values to that header changes its evidence, deletes it or returns it to draft |
| ImmutabilityMonitor.PostedSetExcludesOldDocuments | cacao_accounting/internal_control_service.py:395-428 | the posted-in-transaction set never gains a document that was posted when the transaction began |
| ImmutabilityMonitor.FlushKeepsLine | cacao_accounting/internal_control_service.py:497-520 | an accepted flush neither deletes, re-parents nor rewrites a line of a posted document |
| ImmutabilityMonitor.FlushAddsOnlyReferences | cacao_accounting/internal_control_service.py:466-520 | a line found under an old posted document after an accepted flush was there before unchanged, or is a new reference of a posted advance payment |
| ImmutabilityMonitor.StatementKeepsLine | cacao_accounting/internal_control_service.py:837-855 | an accepted Core statement leaves every line of a posted document as it was |
| ImmutabilityMonitor.StatementAddsNoLine | cacao_accounting/internal_control_service.py:904-938 | an accepted Core statement puts no line under a posted document |
| ImmutabilityMonitor.CommittedLinesAreFrozen | cacao_accounting/internal_control_service.py:395-520 | after the transaction that posts a document ends, its lines are the same over every accepted run, except new references to an advance payment |
| ImmutabilityMonitor.RevertedRelationReturnsIff | cacao_accounting/internal_control_service.py:453-463 | an accepted flush makes a reverted relation active again exactly when it assigns the status an expression that comes out active |
| ImmutabilityMonitor.RevertedRelationMayReturn | cacao_accounting/internal_control_service.py:453-463 | for every reverted relation that flush is accepted and makes it active again |
| ImmutabilityMonitor.FlowEvidenceIsFrozen | cacao_accounting/internal_control_service.py:453-463 | over any accepted run that writes the status of flow rows as plain values, a flow-evidence row stays, keeps its figures, and once reverted is never active again |
| FrozenColumns.ColumnEditAllowedIff | cacao_accounting/internal_control_service.py:95-117 | editing one column of a posted or cancelled header is accepted exactly when its name is one of nineteen, written out |
| FrozenColumns.AdvanceEditRefused | cacao_accounting/internal_control_service.py:367-385 | changing whether a posted header is an advance payment is never accepted |
| FrozenColumns.StatusEditAllowedIff | cacao_accounting/internal_control_service.py:357-364 | writing a plain status to a posted or cancelled header is accepted exactly when it is not draft |
| FrozenColumns.DraftEditAllowed | cacao_accounting/internal_control_service.py:343-354 | any edit of a draft header is accepted |
| FrozenColumns.ColumnUpdateAllowedIff | cacao_accounting/internal_control_service.py:710-731 | a Core update of one column of a posted header is accepted exactly for the same nineteen names |
| FrozenColumns.StatusUpdateAllowedIff | cacao_accounting/internal_control_service.py:837-855 | a Core update of its status is refused exactly when it is bound to draft |
| FrozenColumns.HeaderDeleteAllowedIff | cacao_accounting/internal_control_service.py:710-731 | a Core delete of headers is accepted exactly when none of them is posted or cancelled |
| FrozenColumns.NeverAllowed | cacao_accounting/internal_control_service.py:904-938 | statements that move links, insert headers or write the document flow are never accepted |
| FrozenColumns.PostedHereIff | cacao_accounting/internal_control_service.py:388-414 | a header counts as posted here exactly when it is inserted posted or becomes posted by a plain value without having been |
| FrozenColumns.LineColumnEditAllowedIff | cacao_accounting/internal_control_service.py:497-520 | editing one column of a line is accepted exactly when no document it hangs on is posted or the name is one of the nineteen |
| FrozenColumns.LineDeleteAllowedIff | cacao_accounting/internal_control_service.py:497-520 | deleting a line is accepted exactly when no document it hangs on is posted |
| FrozenColumns.LineMoveAllowedIff | cacao_accounting/internal_control_service.py:497-520 | moving a line by one link is accepted exactly when neither its old nor its new documents are posted |
| FrozenColumns.NewLineAllowedIff | cacao_accounting/internal_control_service.py:466-494 | a new line is accepted exactly when each document it hangs on is missing, not posted, posted in this transaction and the line no payment reference, or a posted advance payment that gains a reference |
| FrozenColumns.LineInsertAllowedIff | cacao_accounting/internal_control_service.py:904-938 | a Core insert of a line is accepted exactly for a line of another table under documents none of which is posted |
| FrozenColumns.LineStatementsAllowedIff | cacao_accounting/internal_control_service.py:837-855 | a Core update of one column of lines, or their deletion, is accepted under the same conditions as on objects |
| FrozenColumns.FlowColumnEditAllowedIff | cacao_accounting/internal_control_service.py:59-69 | editing one column of a flow row is accepted exactly when its name is a workflow column of its table, written out |
| FrozenColumns.FlowStatusEditAllowedIff | cacao_accounting/internal_control_service.py:453-463 | writing its status is refused exactly when a relation that is not active would become active; deleting it always is |
| FrozenColumns.PostedColumnsStay | cacao_accounting/internal_control_service.py:343-385 | over any accepted run of plain status values, a header posted when a transaction ends keeps every column that is none of the nineteen names |
| FrozenColumns.PostedLinesStay | cacao_accounting/internal_control_service.py:497-520 | so does every line that hangs on it, links included |
| FrozenColumns.NoLineIsAdded | cacao_accounting/internal_control_service.py:466-482 | and no line is added to it, but references of an advance payment |
| FrozenColumns.FlowColumnsStay | cacao_accounting/internal_control_service.py:453-463 | over the same runs a row of the document flow keeps every column that is no workflow column by name |
| DocumentRuns.StatusIsWritten | cacao_accounting/internal_control_service.py:357-364 | a plain new status of a draft, or any but draft of a posted document, is accepted and stored, and counts as posted here exactly when it posts the document |
| DocumentRuns.PostingIsPossible | cacao_accounting/internal_control_service.py:343-420 | under the guards any draft can be inserted with a line, committed, posted and committed again |
| DocumentRuns.CancellingIsPossible | cacao_accounting/internal_control_service.py:343-420 | and a posted document can have its balance settled by SQL and be cancelled, nothing else about it changing |
| ApprovalPolicy.BuildPolicyLoop | cacao_accounting/approval_policy.py:83-97 | the loop over creator, last editor and requester freezes each with a rank, or fails when one is unknown or unranked |
| ApprovalPolicy.FindApplicableRule | cacao_accounting/approval_engine.py:839-853 | the loop over the rules returns the first covering rule with the greatest key, administrators approving at the required level |
| ApprovalPolicy.ApplicableRuleIsBest | cacao_accounting/approval_engine.py:176-194 | the recorded rule covers the amount and no covering rule is more senior, more specific or later by id; there is none exactly when nothing covers |
| ApprovalPolicy.RuleChoiceIgnoresOrder | cacao_accounting/approval_engine.py:185-194 | the rule chosen is the same for every order in which the database returns the rules |
| ApprovalEngine.Engine.FindPending | cacao_accounting/approval_engine.py:243-253 | the one pending request of a document is found, and several pending ones are an error |
| ApprovalEngine.Engine.GetRequiredLevel | cacao_accounting/approval_engine.py:438-459 | the required level is the least among the enabled rules that cover the amount, zero without any |
| ApprovalEngine.Engine.AskApproval | cacao_accounting/approval_engine.py:718-823 | a request is added with frozen policy, level and payload hash unless a live one of its kind exists or nothing covers the amount |
| ApprovalEngine.Engine.DecideRequest | cacao_accounting/approval_engine.py:887-955 | a pending request is finalised, moved to a later level or refused, the whole new state being determined and refusals changing nothing |
| ApprovalEngine.Engine.Approve | cacao_accounting/approval_engine.py:887-955 | approving finds or makes the request, decides it, and leaves nothing behind when it fails |
| ApprovalEngine.Engine.Reject | cacao_accounting/approval_engine.py:1070-1118 | a pending request becomes rejected by somebody who could approve it, and nothing is executed |
| ApprovalTheorems.PolicyNamesEveryPreparer | cacao_accounting/approval_policy.py:83-97 | a frozen policy names creator, requester and last editor |
| ApprovalTheorems.OneLiveRequestPerKind | cacao_accounting/approval_engine.py:718-823 | over every run there is at most one pending or approved request per document and kind |
| ApprovalTheorems.ExecutionsMatchFrozenEvidence | cacao_accounting/approval_engine.py:462-490 | over every run each executed approval belongs to one approved request, ran once, on the payload frozen with it, by an active user authorized for the module at the required level who, under an independent policy, is no frozen preparer and ranks no lower than any of them, whatever was reconfigured meanwhile |
| ApprovalTheorems.EvidenceIsFrozen | cacao_accounting/approval_engine.py:256-269 | nothing rewrites a request's policy, level or hash, and decided requests stay decided |
| ApprovalTheorems.UnchangedMatrixMakesApprovalFinal | cacao_accounting/approval_engine.py:925-955 | a successful approval is final whenever the matrix asks at least what it asked at request time, because the amount cannot have changed |
| ApprovalTheorems.FixedMatrixHasOneLevel | cacao_accounting/approval_engine.py:438-459 | over every run that keeps the matrix no request ever moves to a second level |
| ApprovalTheorems.CanApproveIff | cacao_accounting/approval_engine.py:410-435 | the check before an approval says yes exactly when approving is not refused for lack of authority, whether a request is pending or made on the way |
| ApprovalTheorems.QueryFailsIffBothPending | cacao_accounting/approval_engine.py:243-253 | looking up the pending request fails exactly when a submission and a cancellation are pending at once |
| ApprovalTheorems.BothPendingIsReachable | cacao_accounting/approval_engine.py:718-823 | asking for cancellation and then for approval gets there from any document a rule covers |
| ApprovalTheorems.BothPendingForever | cacao_accounting/approval_engine.py:887-1118 | from then on no run of approvals, rejections, edits or reconfigurations resolves either request |
| ApprovalAuthority.UserRulesIff | cacao_accounting/approval_engine.py:365-407 | the rules of a user are the enabled rows of the type that name the user, or those of the roles when no row does |
| ApprovalAuthority.RuleFoundIff | cacao_accounting/approval_engine.py:176-194 | a rule is found for somebody who is no administrator exactly when an enabled row given to the user has minimum at most and maximum, if any, at least the amount |
| ApprovalAuthority.RuleFoundIsMostSenior | cacao_accounting/approval_engine.py:185-194 | it has the highest level of those, then the highest minimum, then the lowest maximum, then the last id |
| ApprovalAuthority.AdministratorsHaveNoLimit | cacao_accounting/approval_engine.py:839-853 | an administrator approves any amount, at the level the request asks for |
| ApprovalAuthority.RequiredLevelIsLeast | cacao_accounting/approval_engine.py:438-459 | the level asked for is the least among the enabled rows whose range contains the amount |
| ApprovalAuthority.AuthorizedIff | cacao_accounting/approval_policy.py:53-69 | exactly an active user of an enabled company and module is authorized, as administrator or by access and action in scope |
| ApprovalAuthority.ModuleRankIff | cacao_accounting/approval_policy.py:28-50 | the rank is four for administrators, else the highest of the ranks one to three granted for the enabled module |
| ApprovalAuthority.PermitsIff | cacao_accounting/approval_policy.py:100-120 | an independent policy permits exactly those with permission in its module who are no frozen preparer and rank no lower than each frozen one |
| ApprovalAuthority.PolicyFreezesPreparers | cacao_accounting/approval_policy.py:83-97 | a policy freezes exactly creator, last editor and requester, each with the rank held at that time |
| ApprovalAuthority.RequestIsMadeIff | cacao_accounting/approval_engine.py:718-823 | asking adds a request exactly when the engine is on, none of the kind is outstanding, the matrix asks for a level, a needed reason is given, an active user asks and the preparers can be frozen; and when it fails |
| ApprovalAuthority.MadeRequestIs | cacao_accounting/approval_engine.py:718-823 | it is pending for what was asked, with the level asked of the amount, and the document as it is in its evidence |
| ApprovalAuthority.RejectionIs | cacao_accounting/approval_engine.py:1070-1118 | rejecting takes whoever may decide the request and changes its status alone |
| ApprovalAuthority.MayDecideIff | cacao_accounting/approval_engine.py:410-435 | exactly those with permission, within their limits, and independent where the policy says so, may decide a request |
| ApprovalAuthority.OutsideLimitsRefused | cacao_accounting/approval_engine.py:839-853 | an amount above the maximum, or below the minimum, of every row given to the user is refused and changes nothing |
| ApprovalAuthority.UnchangedIsDecided | cacao_accounting/approval_engine.py:462-490 | a request somebody may decide is decided exactly when the document is as it was requested |
| ApprovalAuthority.DecisionGoesByLevel | cacao_accounting/approval_engine.py:887-955 | a decision is final exactly when the level of the rule reaches the required one, and otherwise moves the request to the next level |
| ApprovalAuthority.ExecutionsAreWithinLimits | cacao_accounting/approval_engine.py:887-955 | over every run each execution by somebody who is no administrator had an enabled row given to that user whose minimum and maximum, read from the row, contain the amount approved |
| ApprovalRuns.OutstandingIsReturned | cacao_accounting/approval_engine.py:718-765 | while a request of the kind is outstanding, asking again changes nothing and returns the newest of them |
| ApprovalRuns.MayApproveUnaskedIff | cacao_accounting/approval_engine.py:256-269 | before any request is made a user may approve exactly with permission, within limits, and where no independence is asked for |
| ApprovalRuns.DecisionIsRecorded | cacao_accounting/approval_engine.py:856-955 | every decision is logged; exactly a final one is executed, on the document as it stands, and stores what that leaves |
| ApprovalRuns.AskedIsApproved | cacao_accounting/approval_engine.py:887-955 | a document that is asked for and approved by somebody with permission, limits and independence is executed at once |
| ApprovalRuns.EditedIsNotApproved | cacao_accounting/approval_engine.py:462-490 | if it is edited in between nobody can approve it, and the request stays pending |
| ApprovalRuns.AskedIsRejected | cacao_accounting/approval_engine.py:1070-1118 | rejected by somebody who may decide it, the request is over and nothing is executed |
| ControlReview.ReviewService.Require | cacao_accounting/control_review_service.py:84-147 | the gate lets an operation go on, returns the equal pending proposal, or invalidates a changed one and adds a new one |
| ControlReview.ReviewService.NormalizeFields | cacao_accounting/matching_config_service.py:53-60 | every field gets its typed value, or the first untypeable one is an error |
| ControlReview.ReviewService.ApplyFields | cacao_accounting/matching_config_service.py:63-110 | the field loop overwrites exactly the listed fields of the row and no other configuration |
| ControlReview.ReviewService.UpdateMatchingConfig | cacao_accounting/matching_config_service.py:63-110 | a change is written, left waiting, or refused when the configuration is no longer the expected one |
| ControlReview.ReviewService.Approve | cacao_accounting/control_review_service.py:229-251 | an allowed approval carries out the proposal and records one execution, and a failing one changes nothing |
| ControlReview.ReviewService.Reject | cacao_accounting/control_review_service.py:254-267 | a rejection changes the status of that proposal only |
| ControlReview.ExecutionKeepsReviews | cacao_accounting/control_review_service.py:187-226 | carrying out a review passes the gate with that review's own payload and touches no other proposal |
| ReviewTheorems.OnePendingProposal | cacao_accounting/control_review_service.py:84-147 | over every run there is at most one pending proposal per kind, operation and company |
| ReviewTheorems.ExecutionsMatchReviews | cacao_accounting/control_review_service.py:187-251 | over every run a proposal is carried out at most once, the payload that passed the gate and was carried out is the reviewed one, and its approver is permitted by the frozen policy and no preparer |
| ReviewTheorems.PlainReadsBack | cacao_accounting/matching_config_service.py:48-60 | what a payload shows of a typed configuration is read back as that configuration, decimals digit for digit |
| ReviewTheorems.ApprovedChangeMatchesReview | cacao_accounting/matching_config_service.py:63-110 | an approved change found the configuration exactly as reviewed and leaves in it what its columns keep of the proposed values, everything else untouched |
| ReviewTheorems.ChangeIsApprovedIff | cacao_accounting/matching_config_service.py:63-110 | a well-formed change its approver may review goes through exactly when the approver may edit, the columns take the values and the configuration still shows as reviewed |
| ReviewTheorems.ProposalIsWellFormed | cacao_accounting/matching_config_service.py:63-110 | every proposal made from typed values is well formed in that sense |
| MatchingColumns.ColumnKeepsNearest | cacao_accounting/database/__init__.py:4918-4921 | a tolerance of at most four decimal digits is stored with its value, any other as the nearest number of four |
| MatchingColumns.UnchangedIffShown | cacao_accounting/matching_config_service.py:90-104 | read from four-digit columns, a configuration is numerically unchanged exactly when it shows digit for digit as reviewed, so the check by value and the check by digest agree |
| MatchingColumns.ReachedChangeIsApprovedIff | cacao_accounting/matching_config_service.py:63-110 | on every reachable state each proposed change is well formed and goes through exactly when its approver may edit, the columns take the values and the configuration is numerically unchanged |
| MatchingColumns.DirectUpdateChangesNoValue | cacao_accounting/control_review_service.py:113-147 | while independent review is on a direct update stores nothing new in any field of any configuration: it waits, or its values are the stored ones |
| ReviewRules.RunningGateIs | cacao_accounting/control_review_service.py:99-112 | while a review is carried out the gate lets exactly its own operation and payload pass, by somebody permitted |
| ReviewRules.GateIs | cacao_accounting/control_review_service.py:84-147 | outside a review the gate refuses, lets the operation go on, or makes it wait, and exactly when each |
| ReviewRules.ProposalIs | cacao_accounting/control_review_service.py:113-147 | what an operation waits for is the pending proposal of the same payload, or a new one that replaces it |
| ReviewRules.ReviewAllowedIff | cacao_accounting/control_review_service.py:150-167 | a proposal may be decided exactly while it is pending, by somebody independent of it and permitted to do what it does |
| ReviewRules.FieldsAre | cacao_accounting/matching_config_service.py:25-45 | the reviewable fields of either configuration, by name |
| ReviewRules.NormalizeIs | cacao_accounting/matching_config_service.py:53-60 | exactly the two tolerances are read as numbers; any other value is taken as it comes |
| ReviewRules.ChangedAre | cacao_accounting/matching_config_service.py:63-110 | the changed fields are exactly those whose values differ, numbers being compared by value |
| ReviewRules.WrittenChangeIs | cacao_accounting/matching_config_service.py:63-110 | a change that goes on writes to every field of its model what the column keeps of the typed value, and touches no other field and no other configuration |
| ReviewRuns.ChangeIsMadeIff | cacao_accounting/matching_config_service.py:84-99 | a change can be made exactly to an existing configuration of either model, with tolerances that are numbers or empty, and stored values equal to the expected ones where some are |
| ReviewRuns.DecisionIsTaken | cacao_accounting/control_review_service.py:229-267 | after any run whoever may decide a proposal may reject it, or carry it out if its operation does not fail, once and on its own payload |
| ReviewRuns.ChangeIsFiled | cacao_accounting/control_review_service.py:113-147 | a change that has to wait is filed, and nothing is written |
| ReviewRuns.OperationIsDecided | cacao_accounting/control_review_service.py:187-226 | operations of the other kinds wait likewise, and are carried out if they recompute what was reviewed |
| PurchasePosting.AllocatedAmounts | cacao_accounting/accounting_engine/document_builders.py:310-342 | the dictionary of allocated amounts holds, for every receipt line, the two sums over its allocation rows |
| PurchasePosting.InvoiceReceiptAllocationAmounts | cacao_accounting/accounting_engine/document_builders.py:1335-1350 | the two sums over the allocation rows of an invoice line |
| PurchasePosting.BuildReceiptLines | cacao_accounting/accounting_engine/document_builders.py:246-285 | the receipt loop builds inventory, expense, variance and bridge lines while it shrinks the pool, or fails with the first missing account or pool key |
| PurchasePosting.PurchaseInvoiceAccountLines | cacao_accounting/accounting_engine/document_builders.py:1304-1332 | the invoice loop builds the bridge, expense and variance lines of every invoice line, or fails with the first missing account |
| PostingRules.ReceiptLineFailsIff | cacao_accounting/accounting_engine/document_builders.py:162-243 | a stock line is refused exactly for a missing account or a missing pool entry |
| PostingRules.ReceiptLineIs | cacao_accounting/accounting_engine/document_builders.py:162-243 | its account lines, sides and amounts, and the pool it leaves, from amount, allocation and pool alone |
| PostingRules.ReceiptIs | cacao_accounting/accounting_engine/document_builders.py:246-285 | a receipt needs lines and a bridge account, a return finds an empty pool, and each line the pool the lines before it leave |
| PostingRules.InvoiceLineFailsIff | cacao_accounting/accounting_engine/document_builders.py:1233-1301 | an invoice line is refused exactly for a missing account |
| PostingRules.InvoiceLineIs | cacao_accounting/accounting_engine/document_builders.py:1233-1301 | its account lines: received value off the bridge, the rest in expense, the difference in variance; or all of it on its own account |
| PostingRules.InvoiceIs | cacao_accounting/accounting_engine/document_builders.py:1304-1332 | an invoice is built exactly when each of its lines is, and then one after the other |
| ReceiptBalance.ReceiptImbalance | cacao_accounting/accounting_engine/document_builders.py:162-243 | the exact imbalance of any receipt that can be built, line by line, from amounts, allocations and pool |
| ReceiptBalance.ReceiptBalancesIff | cacao_accounting/accounting_engine/document_builders.py:162-285 | a receipt with sound amounts posts equal debits and credits exactly when no unallocated line finds a negative pool |
| ReceiptBalance.UnmixedReceiptBalances | cacao_accounting/accounting_engine/document_builders.py:162-285 | so it balances when no item code mixes allocated and unallocated lines |
| ReceiptBalance.MixedReceiptOutOfBalance | cacao_accounting/accounting_engine/document_builders.py:162-200 | mixing them can post a receipt out of balance |
| ReceiptBalance.PoolFallsByWhatIsMoved | cacao_accounting/accounting_engine/document_builders.py:162-200 | per item code the pool falls by exactly what is reclassified |
| ReceiptBalance.PoolStaysNonNegative | cacao_accounting/accounting_engine/document_builders.py:162-200 | unallocated lines of a code together take the smaller of pool and received value, in any order, and never overdraw it |
| ReceiptBalance.ReturnReverses | cacao_accounting/accounting_engine/document_builders.py:262-285 | a return without allocations moves the stock value from inventory back to the bridge and touches nothing else |
| PurchaseClearing.CountTwice | cacao_accounting/accounting_engine/document_builders.py:310-342 | allocations added up line by line equal the sum of the rows when every row belongs to one of the lines |
| PurchaseClearing.ReceiptAdds | cacao_accounting/accounting_engine/document_builders.py:134-243 | what a sound receipt adds to each account, in terms of received, allocated and pooled value |
| PurchaseClearing.InvoiceAdds | cacao_accounting/accounting_engine/document_builders.py:1233-1332 | what an invoice adds to each account, in terms of invoiced, allocated and bridge-routed value |
| PurchaseClearing.RunClears | cacao_accounting/accounting_engine/document_builders.py:134-285 | after any run of receipts and invoices in any order the bridge holds received minus matched value, expense invoiced minus matched value, variance the difference of the matched values, shifted by pooled and unallocated bridge value |
| PurchaseClearing.RunConservesInvoicedValue | cacao_accounting/accounting_engine/document_builders.py:1233-1332 | after any run the four accounts together hold exactly what was invoiced |
| PurchaseClearing.FullMatchingClears | cacao_accounting/accounting_engine/document_builders.py:1196-1332 | full matching leaves bridge and expense at opposite amounts, both zero exactly when nothing went through the pool or an unallocated bridge line |
| PurchaseClearing.PostingOrderDoesNotMatter | cacao_accounting/accounting_engine/document_builders.py:134-285 | two runs, of any length and order, that post the same lines and allocation rows and put the same value through pools and unallocated bridge lines leave every account alike |
| PurchaseClearing.EitherOrderClears | cacao_accounting/accounting_engine/document_builders.py:134-243 | both orders of a matched receipt and invoice are runs, and clear bridge and expense |
| TaxArithmetic.InclusiveTaxBases | cacao_accounting/tax_pricing_service.py:149-165 | the two dictionaries hold, for every calculation base, the sums of the active inclusive percentages and fixed taxes; a rate that is not finite is an error |
| TaxArithmetic.TaxTotals.ApplyTaxResult | cacao_accounting/tax_pricing_service.py:168-177 | accumulating a line keeps the running total at base plus additive minus deductive taxes |
| TaxArithmetic.CalculateTaxes | cacao_accounting/tax_pricing_service.py:180-220 | the template loop yields the lines in sequence, each computed on the running total before it where asked, and their totals |
| TaxTheorems.RunningTotalIsBaseAndTaxes | cacao_accounting/tax_pricing_service.py:168-177 | after every line the running total is base plus additive minus deductive taxes |
| TaxTheorems.PayableDeltaIsChangeOfRunningTotal | cacao_accounting/tax_pricing_service.py:214-220 | the payable delta is the change of the running total |
| TaxTheorems.LinesUseRunningTotal | cacao_accounting/tax_pricing_service.py:110-146 | every line is the tax of an active template item on the running total left by the lines before it |
| TaxTheorems.InclusiveExtractionBound | cacao_accounting/tax_pricing_service.py:110-165 | for every base except the running total, net price plus extracted taxes is the price within 0.00005 per inclusive line |
| TaxTheorems.NetDocumentExtraction | cacao_accounting/tax_pricing_service.py:110-165 | with rates that are not negative the net price exists and the bound holds for taxes on the net document |
| TaxTheorems.ExtractedTaxIsTaxOnNet | cacao_accounting/tax_pricing_service.py:122-135 | an extracted percentage equals, to the last digit, the tax an additive line computes on the net price |
| TaxTheorems.TotalsIgnoreOrder | cacao_accounting/tax_pricing_service.py:180-220 | unless a line uses the running total as its base, the totals do not depend on the sequence of the lines |
| TaxLines.OneLinePerActiveTax | cacao_accounting/tax_pricing_service.py:180-220 | there is one line for each active tax, in the order of the template |
| TaxLines.LineIsTax | cacao_accounting/tax_pricing_service.py:110-146 | line k is the tax of its item to the nearest four decimals, ties to even: a fixed tax its rate, a percentage its part of the price, which is the running total of the lines before it for the base previous_total and the document base for any other |
| TaxLines.PercentageOfPrice | cacao_accounting/tax_pricing_service.py:122-135 | so line k of an additive or deductive percentage is within 0.00005 of that price times rate over 100 |
| TaxLines.TotalsAreSums | cacao_accounting/tax_pricing_service.py:180-220 | the totals are the sums of the additive, deductive and inclusive lines, and the payable delta what they do together |
| TaxLines.CalculationFailsIff | cacao_accounting/tax_pricing_service.py:110-165 | the calculation fails exactly when an active tax has no finite rate or an active inclusive one meets rates of its base that add up to minus one hundred |
| FiscalTotals.DocumentTotalLoop | cacao_accounting/fiscal_persistence_service.py:51-79 | the loop that charges canonical lines computes the total, participating rules feeding later bases |
| FiscalTotals.PersistDocumentTaxLines | cacao_accounting/fiscal_persistence_service.py:238-294 | the loop that stores the lines yields one row per line, each row's amount replacing its concept for later bases |
| FiscalLines.RuleLineIs | cacao_accounting/fiscal_persistence_service.py:345-428 | what becomes of a line that follows a rule: refused for a negative price or amount, else the rule's own concept, kind and flags with cents of the percentage, ties away from zero, or the fixed amount |
| FiscalLines.ClientLineIs | cacao_accounting/fiscal_persistence_service.py:345-396 | without a rule exactly a manual line that is nowhere negative passes, as it was sent |
| FiscalLines.TotalIsChargedLines | cacao_accounting/fiscal_persistence_service.py:51-79 | the total is the subtotal and the amounts of the lines that affect it, are not in the price and are no withholding |
| FiscalLines.RowsAreStoredLines | cacao_accounting/fiscal_persistence_service.py:238-294 | there is one row for each line, stored as its rule yields on what is stored before it, or as it was sent, under its concept or its number |
| FiscalLines.PayableIsSum | cacao_accounting/fiscal_persistence_service.py:72-79 | the part of the rows that counts is the sum of those that affect the total, are not in the price and are no withholding |
| FiscalAgreement.TotalAgreesWithRows | cacao_accounting/fiscal_persistence_service.py:51-79 | when the lines can be stored the total exceeds the subtotal by exactly the stored rows that affect it, if manual lines name no rule and accumulated concepts are fed once by earlier participating rules |
| FiscalAgreement.TotalAgreesWithoutAccumulation | cacao_accounting/fiscal_persistence_service.py:238-294 | in particular when no rule accumulates concepts |
| FiscalDifference.ExactDifference | cacao_accounting/fiscal_persistence_service.py:51-79 | for every document both computations accept, the total exceeds subtotal and counted rows by the sum of per-line gaps, each what the rule yields on a base larger by the difference of the two concept tables; they agree exactly when the gaps cancel |
| FiscalDifference.ApartDifference | cacao_accounting/fiscal_persistence_service.py:238-294 | when lines treated differently feed no later base, the difference is told from the rows alone: amounts with the goods in the base less amounts without, and client amounts less rule amounts |
| FiscalDifference.GoodsAgreeIff | cacao_accounting/fiscal_persistence_service.py:399-428 | with goods among accumulated concepts the total is never below what is stored, and agrees exactly when every counted rule yields the same with and without the goods |
| FiscalDifference.ManualAgreeIff | cacao_accounting/fiscal_persistence_service.py:238-256 | with manual lines that name a rule, total and rows agree exactly when the counted client amounts and the counted rule amounts add up to the same |
| FiscalAgreement.AccumulatedGoodsDisagree | cacao_accounting/fiscal_persistence_service.py:399-419 | a rule accumulated on the goods is charged in the total and stored as zero |
| FiscalAgreement.ManualLineWithRuleIdDisagrees | cacao_accounting/fiscal_persistence_service.py:238-256 | a manual line that names a stored rule is charged as sent and stored as the rule says |
| FiscalAgreement.TotalIgnoresOrder | cacao_accounting/fiscal_persistence_service.py:51-79 | without accumulation the total is the same for every order of the lines |
| FiscalAgreement.LinesNeverLowerTotal | cacao_accounting/fiscal_persistence_service.py:345-428 | no accepted line lowers the total |
| NumberWords.EsResolver | cacao_accounting/num2words.py:169-182 | the Spanish loop over the scales prints the words of the number or fails past the hundreds table |
| NumberWords.EnResolver | cacao_accounting/num2words.py:206-218 | the English loop, calling itself on the smaller count of a scale, ends and prints the words of the number |
| NumberParsing.SpanishPrintsIff | cacao_accounting/num2words.py:146-182 | Spanish prints exactly the integers below 10^18 |
| NumberParsing.SpanishReadsBack | cacao_accounting/num2words.py:131-182 | Spanish words, short forms included, read back as the number |
| NumberParsing.EnglishReadsBack | cacao_accounting/num2words.py:185-218 | English words read back as the number, for every integer |
| NumberParsing.FormatIsPrinted | cacao_accounting/num2words.py:305-319 | on whole cents the text carries exactly the sign, units and cents of the amount |
| NumberParsing.AmountIsPrintedInCents | cacao_accounting/num2words.py:291-319 | any amount is printed as the cents it rounds to |
| NumberParsing.QuantizedParts | cacao_accounting/num2words.py:305-316 | the carry for a hundred cents never happens after quantising |
| NumberParsing.CarryIff | cacao_accounting/num2words.py:310-314 | it happens exactly for fractions of at least 99.5 cents |
| NumberParsing.PrintedAmountReadsBack | cacao_accounting/num2words.py:291-319 | the text of any amount of cents, currency label and sign included, determines the amount |
| NumberParsing.PrintsIff | cacao_accounting/num2words.py:291-319 | printing an amount fails exactly in Spanish from 10^18 units on |
| NumberParsing.DistinctAmountsPrintDistinctly | cacao_accounting/num2words.py:291-319 | distinct amounts of cents never print alike |
| NumberForms.PartsAreNearest | cacao_accounting/num2words.py:310-316 | units and cents of any amount, the carry included, are those of the nearest number of cents, the even one of two |
| NumberForms.GroupForm | cacao_accounting/num2words.py:131-155 | the Spanish words of a number below a thousand, hundreds, tens and units by name |
| NumberForms.CountForm | cacao_accounting/num2words.py:158-166 | the words of the count of a scale, with the thousands in it |
| NumberForms.SpanishForm | cacao_accounting/num2words.py:169-182 | Spanish words of any number below 10^18, by billones, millones, miles and the rest |
| NumberForms.EnglishForm | cacao_accounting/num2words.py:185-218 | English words of any number, by trillions, billions, millions, thousands and the rest |
| NumberForms.AmountIsPrinted | cacao_accounting/num2words.py:291-319 | an amount is printed as its sign, the words of its units, the currency if there is one, and two digits of cents over 100, rounded to the nearest cent with ties to even |
| UserCache.KeysNeverCollide | cacao_accounting/cache.py:82-89 | different namespaces, users, generations or argument digests never share a cache key |
| UserCache.GenerationKeyIsApart | cacao_accounting/cache.py:76-89 | no cached result can overwrite a generation |
| UserCache.GenerationKeyIsWritten | cacao_accounting/cache.py:76-79 | a generation key is the prefix, the word generation and the encoded namespace, with colons between |
| UserCache.CacheKeyIsWritten | cacao_accounting/cache.py:82-89 | a cache key is the prefix, encoded namespace, user, generation and digest, labelled and with colons between |
| UserCache.ByteIsWritten | cacao_accounting/cache.py:82-89 | letters, digits and the four marks are written as they are, any other byte as a percent sign and two capital hex digits |
| UserCache.StepKeepsInv | cacao_accounting/cache.py:92-141 | every interleaved cache operation, evictions included, keeps each entry, and each value a reader is about to publish, no older than its generation, and only evicting its key makes the generation of a namespace older |
| UserCache.GenerationsGetYounger | cacao_accounting/cache.py:133-141 | while its key is not evicted the current generation of a namespace is never replaced by an older one |
| UserCache.HitIsNoOlderThanInvalidation | cacao_accounting/cache.py:92-141 | on every run, a hit of a reader that fetched any generation but the fallback after an invalidation completed is the function's value for that user and arguments on data no older than the invalidation |
| UserCache.FallbackIff | cacao_accounting/cache.py:113-121 | after an invalidation a namespace is back in its initial generation exactly when its key was evicted and not set again since |
| UserCache.HitIsFreshWithoutEviction | cacao_accounting/cache.py:92-141 | so hits are fresh whenever the key of that namespace was not evicted between the invalidation and the fetch |
| UserCache.EvictionServesInitialEntry | cacao_accounting/cache.py:113-121 | after an eviction with no later invalidation every reader of the namespace gets the initial generation and is served the last value published under it, however old |
| UserCache.EvictionCounterexample | cacao_accounting/cache.py:113-121 | a run in which a later reader is served a value from before an invalidation |
| UserScopedCache.Store.Call | cacao_accounting/cache.py:97-128 | a call serves the current generation's entry, or computes and publishes under the generation it read, touching no other key and surviving a store that does not answer |
| UserScopedCache.Store.Invalidate | cacao_accounting/cache.py:133-141 | with a fresh token no result of the namespace is served any more, other namespaces are left alone |
| UserScopedCache.CallAfterInvalidation | cacao_accounting/cache.py:92-141 | a call after an invalidation computes afresh whatever an earlier call cached |
| UserScopedCache.GenerationKeysNeverCollide | cacao_accounting/cache.py:76-79 | different namespaces have different generation keys |
| UserScopedCache.CallsAreApart | cacao_accounting/cache.py:97-128 | after a call, one that differs in user, namespace or arguments and had nothing cached returns what its own function computes |
| UserScopedCache.SameCallIsServed | cacao_accounting/cache.py:97-128 | an equal call in a row is served what the first one returned |
| SqlLexer.QuotedSqlEnd | cacao_accounting/internal_control_sql.py:7-32 | the scan ends at the position after the quoted region, doubled quotes and escapes included, within the statement |
| SqlLexer.BlockCommentEnd | cacao_accounting/internal_control_sql.py:47-60 | the depth-counting scan ends at the position after the nested comment |
| SqlLexer.FindIsFirst | cacao_accounting/internal_control_sql.py:35-44 | searching a closing delimiter finds its first position or shows that there is none |
| SqlLexer.StripCommentsLoop | cacao_accounting/internal_control_sql.py:80-111 | the loop, which calls itself on strictly shorter versioned-comment bodies, ends on every input and dialect with the stripped text |
| SqlLexer.RemoveStringLiterals | cacao_accounting/internal_control_sql.py:114-129 | the loop that blanks single-quoted and dollar-quoted values ends with every value replaced by a space |
| SqlLexerTheorems.QuotedValueIsOneRegion | cacao_accounting/internal_control_sql.py:7-21 | any value written with its quotes doubled, and its backslashes where they escape, is read as exactly one region |
| SqlLexerTheorems.DollarQuoteIsOneRegion | cacao_accounting/internal_control_sql.py:35-44 | a dollar-quoted region is read up to the first repetition of its delimiter, tag included |
| SqlLexerTheorems.NestedCommentIsOneRegion | cacao_accounting/internal_control_sql.py:47-60 | comments nested to any depth are read as one comment, whatever follows |
| SqlLexerTheorems.SecondPassPiece | cacao_accounting/internal_control_sql.py:24-44 | without versioned comments a second scan of the stripped text cuts it into the same pieces, comments having become spaces |
| SqlLexerTheorems.UnversionedStrippingIsIdempotent | cacao_accounting/internal_control_sql.py:80-111 | in every dialect, unless the scanner meets a versioned comment, stripping is idempotent, keeps every quoted and dollar-quoted region and leaves no comment |
| SqlLexerTheorems.StrippingIsIdempotent | cacao_accounting/internal_control_sql.py:80-111 | so it is for every statement outside MySQL and MariaDB |
| SqlLexerTheorems.FixedPointIffCommentFree | cacao_accounting/internal_control_sql.py:80-111 | in every dialect a statement is left unchanged exactly when it contains no comment |
| SqlLexerTheorems.IdempotentIffCommentFree | cacao_accounting/internal_control_sql.py:80-111 | stripping is idempotent on a statement exactly when the scanner meets no comment in its output |
| SqlLexerTheorems.MySqlStrippingIsNotIdempotent | cacao_accounting/internal_control_sql.py:69-93 | in MySQL and MariaDB the text of a versioned comment can open a new comment |
| SqlLexerTheorems.SqlCodeHasNoQuote | cacao_accounting/internal_control_sql.py:114-134 | no single quote survives in the text that is matched against table names, in any dialect |
| SqlGrammar.EscapesIff | cacao_accounting/internal_control_sql.py:24-32 | backslashes escape exactly in MySQL and MariaDB, and in PostgreSQL strings after an e that stands alone |
| SqlGrammar.CodeIsKept | cacao_accounting/internal_control_sql.py:80-111 | code in which nothing opens a comment or a quoted region is kept as it is |
| SqlGrammar.QuotedIsKept | cacao_accounting/internal_control_sql.py:80-111 | a quoted region is kept, whatever its text |
| SqlGrammar.DollarQuotedIsKept | cacao_accounting/internal_control_sql.py:35-44 | so is a dollar-quoted one in PostgreSQL, unless a word character or a dollar stands before it |
| SqlGrammar.DollarIsKept | cacao_accounting/internal_control_sql.py:35-44 | where none may open, or no tag and second dollar follow, a dollar is code |
| SqlGrammar.OpenDollarQuoteIsKept | cacao_accounting/internal_control_sql.py:35-44 | a dollar quote that is not closed is kept to the end of the statement |
| SqlGrammar.BlockCommentIsBlanked | cacao_accounting/internal_control_sql.py:47-60 | a block comment nested to any depth becomes one space; in MySQL and MariaDB unless a version mark opens it |
| SqlGrammar.LineCommentIsBlanked | cacao_accounting/internal_control_sql.py:63-66 | a line comment, through the end of its line, becomes one space |
| SqlGrammar.LastLineCommentIsBlanked | cacao_accounting/internal_control_sql.py:63-66 | in the last line it ends with the statement |
| SqlGrammar.NumberIsDropped | cacao_accounting/internal_control_sql.py:69-77 | a version number and the spaces around it become one space; the code after it is kept |
| SqlGrammar.NothingIsDropped | cacao_accounting/internal_control_sql.py:69-77 | without a number the text is kept as it is |
| SqlGrammar.VersionedIsRead | cacao_accounting/internal_control_sql.py:69-77 | an executable comment, by any of its three marks, is read up to its first closing and gives the text between, less its version number |
| SqlGrammar.VersionedCodeIsInlined | cacao_accounting/internal_control_sql.py:80-93 | in MySQL and MariaDB the code of an executable comment takes its place, stripped itself |
| SqlGrammar.VersionedIsCommentElsewhere | cacao_accounting/internal_control_sql.py:80-93 | in other dialects it is a comment like any other |
| SqlGrammar.UnclosedVersionedIsDropped | cacao_accounting/internal_control_sql.py:69-77 | an executable comment that is not closed takes the rest of the statement with it |
| SqlGrammar.StatementIsStripped | cacao_accounting/internal_control_sql.py:80-111 | a statement written from code, quoted regions and comments of every kind is stripped to what is left of each of them, in order |
| SqlGrammar.ValueIsRemoved | cacao_accounting/internal_control_sql.py:114-129 | a value in single quotes, whatever its text, becomes one space |
| SqlGrammar.DollarValueIsRemoved | cacao_accounting/internal_control_sql.py:114-129 | so does a dollar-quoted value of PostgreSQL |
| SqlGrammar.OtherCharacterStays | cacao_accounting/internal_control_sql.py:114-129 | any other character stays, double quotes and backticks included |
| SqlGrammar.QuotedIsListed | cacao_accounting/internal_control_sql.py:7-21 | the literals of a statement, which stripping keeps, include each quoted region |
| SqlGrammar.DollarQuotedIsListed | cacao_accounting/internal_control_sql.py:35-44 | and each dollar-quoted one of PostgreSQL |
| SqlLiterals.OnlyValuesAreRemovedIff | cacao_accounting/internal_control_sql.py:114-134 | when stripping has left no comment, exactly the string values the scanner reads are removed if and only if no quoted identifier contains a single quote or opens a dollar quote |
| SqlLiterals.QuotedIdentifierHidesCode | cacao_accounting/internal_control_sql.py:114-129 | after an identifier that is a quoted single quote, any code up to the next single quote is blanked like a string value |

## Left out

- Timestamps, JSON canonicalisation and the column list of the audit hash are one abstract body per row; rows of the first hash version and rows without a hash appear only as what the verifier filters.
- The order of audit findings within each kind is not stated, only which rows are reported and how often.
- Re-linking whole audit rows and dropping the end of the chain are outside what the hash covers: `prev_hash` is not hashed.
- Audit rows, requests and documents are values in tables rather than ORM objects; savepoints, the identity map and relationship histories are not modelled.
- AuditWriters.StepKeepsInv: assumes what the database provides, READ COMMITTED visibility and the advisory lock held to the end of the transaction.
- ImmutabilityMonitor.CommittedHeaderIsFrozen: assumes that the status values written are draft, posted and cancelled, written to that header as plain values of their column; `FlushThawsIff`, `StatementThawsIff` and `AssignmentCanThawIff` say what any other value does.
- The status of a document is never null, as its column demands; links of lines are written as values of their own type, and looking up a parent through a link that was assigned an expression raises.
- DocumentStore.SessionGuard.GuardFlush: the guards of service scopes, evidence tables, journal headers, bank transactions, ledgers, approval requests and raw-SQL table patterns are not modelled; nor is the stamping of the last editor of a line, nor the switch that turns the controls off.
- The document-tax line's indirect parent (its summary row) and database cascades are not modelled; a line names its headers directly.
- A Core statement with several parameter sets is one atomic statement.
- Final validations and submission or cancellation hooks of the approval engine are one outcome per approval: the document they leave behind, or failure. The execution token they check is not modelled.
- ApprovalEngine.Engine.Approve: the fallback on modification times, for requests without a snapshot hash, is not modelled, because every request the engine makes has one; documents without a company and the desktop mode skip the engine and are left out.
- ApprovalEngine.Engine.Reject: reversing a relation is not modelled, and the rule logged with a rejection is the first of the user's rules in table order; the database's ordering of that list is not modelled.
- Rule ids stand for their place in the database's string order.
- ReviewTheorems.ExecutionsMatchReviews: bank reconciliation, monthly close and period reopening are opaque operations that pass the review gate with the payload they recompute.
- Reviews are serial operations: row locks make them so in the database.
- Decimals of the matching configuration are coefficient and scale; NaN, infinities, exponents in their spelling and numbers too long for the column are left out. The decimal column rounds ties away from zero, as PostgreSQL and MySQL do.
- Descriptions, parties, currencies and item contexts of account lines are left out, as are credit notes, invoices posted as physical returns, and taxes on receipts.
- PurchaseClearing.RunClears: takes each receipt's pool of late two-way invoices as given, since the pool is read back from ledger entries of another service, and counts what is taken from it.
- PurchaseClearing.RunClears: allocation rows name stock lines, since receipts skip service lines; and invoices with allocation rows have a receipt, which routes them to the bridge.
- Prior-payment proration, landed cost, payments and sales documents are not part of this model.
- TaxTheorems.InclusiveExtractionBound: excludes the running-total base, where the price changes between the lines of one group.
- Decimal arithmetic is exact; the context precision of 28 digits and its overflow to zero in amounts in words are left out.
- The total computed from active rules when a document carries no lines needs the fiscal engine, which is not part of this model.
- FiscalTotals.PersistDocumentTaxLines: snapshots, metadata and notes of a row are left out.
- Locale resolution, language registration and currency trimming and capitalisation are left out; the label is taken as printed.
- The random generation token is a parameter that must be new; timeouts are a step that may remove any entry at any time.
- SqlLexer.QuotedSqlEnd: letters, digits and white space in SQL are those of ASCII, here and in every other scanner; the table-name patterns and clause analysis of the SQL inspector are left out.
- Routes, templates, reports, mail, login, naming series and the desktop mode would only add straight-line members.
