# Odoo NIL adapter: the governed commit protocol, verified

A Dafny model of the adapter that lets an agent change an Odoo system only through proposals a person
approved. `dafny verify dfyconfig.toml` checks all of it.

The adapter answers four requests. PROPOSE decides what governance allows and stores a dry run. COMMIT
performs the stored write, over a connection whose answers can be refused or lost. ROLLBACK turns a
compensation token into a new proposal. STATUS tells what became of an attempt. A restart forgets
everything but the backing store.

## How it is built

The state is a `World` (`Protocol.dfy`): the backing store, the adapter's memory (proposals, ledger,
executed set, tokens, sequences), the policy, the events sent, and a ghost history of where every
proposal came from, what every commit met and did, and what every token was minted for. What the environment may
do to one commit is an `Oracle`: each backend call can succeed, be refused, land with a failed
read-back, lose its answer after landing or without landing, and each probe or read can fail. A run is a
sequence of proposals, commits, rollbacks, policy changes, restarts and changes by others.

The specification functions say what each request does to a `World`. `Edge.dfy` is the adapter as it
runs: classes whose methods update fields in place, probe in a loop and write through a `Backend.Client`,
each proved to do exactly what its specification function says while it sees nothing but the client's
replies. The theorems about runs are then lemmas about the functions.

| module | part of the adapter |
|---|---|
| `Protocol`, `Edge` | the four requests, as functions and as code |
| `Backend` | the store, one call's effects and answers |
| `Invariants`, `Provenance` | what every reachable state keeps; where effects and tokens come from |
| `Endings`, `Requests` | how each request is answered and what it writes, read off its input, the store and what the calls met |
| `AttemptKey`, `RestoredTwice` | keyed creates: ask first, write, ask again; the run that defeats them |
| `StatusAnswers` | status by key: what it promises of the next commit |
| `Upsert`, `Identity` | convergence of upserts; which record they take for their own |
| `Ledger`, `RoundTrip` | replay and events; undo |
| `Governance`, `Verbs` | the policy; the verb and reversal tables |
| `Marker` | LIKE, its escape, the stamped marker |
| `Resolve` | references and options, and the gate that checks them |
| `Transport` | the retry rule of one Odoo call |
| `Domain`, `Sorting`, `Search` | prefix domains, multi-key sorting, searching |
| `Dates`, `Feed`, `Changes`, `Sku` | timestamps, the resumable feed, the merged chatters, the batched SKUs |

## What the code does not keep

Each of these is proved. Where the code keeps the promise on some inputs, a lemma says on exactly which.

- One attempt can leave two records with its marker: a compensation token is never used up, so one delete
  rolled back twice restores a stamped record twice. It happens exactly when a committed reversal restores a
  row that carries the marker beside another record that carries it (`RestoredTwice.OneTokenRestoresTwice`,
  `AttemptKey.AtMostOneExactlyWhenRestoresAreSafe`).
- Status by key asks Odoo, COMMIT asks the ledger first. After a create is rolled back and its reversal
  committed, status promises with authority that a commit of the key adds a record, but the commit is
  answered `executed` with the deleted one (`StatusAnswers.CancelledOrderIsStillExecuted`,
  `StatusAnswers.StatusPredictsCommitExactlyWhen`).
- A generic update is unguarded when its id stood for no record at PROPOSE (`RoundTrip.WitnessGuardsExactlyWhen`,
  `RoundTrip.AbsentAtProposeIsUnguarded`). Where it is guarded, values are compared and not identities
  (`RoundTrip.PatchedIsNamedAtCommit`).
- An upsert files its receipt under a deduplication key, because the loop over the keys reuses the name
  `key`. A retry under the same idempotency key is performed again, and a commit whose key is the text
  `email` can be answered with a stranger's receipt (`Ledger.RetryIsReplayedExactlyWhen`,
  `Ledger.EmailKeyIsTaken`).
- A write that lands and whose read-back fails is answered `failed_terminal`, a state that asserts it did
  not happen (`AttemptKey.FailedTerminalWroteExactlyWhen`).
- When the verification read fails after a write, the handler crashes: the store changed, nothing is in
  the ledger, and on the generic path a token exists that no answer names (`Ledger.CrashesExactlyWhen`,
  `Ledger.CrashIsForgotten`).
- A keyed create committed while the live schema cannot be read is neither stamped nor asked for. If that
  happens to the first attempt, status answers an authoritative `not_found` and the retry creates a second
  record; if it happens to the retry, the retry creates one although status found the first. A client
  remembers the schema it read (src/odoo_nil_adapter/system.py:413-423) and PROPOSE needs it, so this takes a
  new client between PROPOSE and COMMIT (`StatusAnswers.RetryCreatesAgainExactlyWhen`).
- Status by key calls convergent verbs safe to commit again. A second commit of a workflow method calls Odoo
  again. A second update or delete reaches another record when its record argument is a human identifier that
  has come to stand for it (`RoundTrip.ConvergentCallIsIdleExactlyWhen`,
  `RoundTrip.ConvergentUpdateIsIdleExactlyWhen`, `RoundTrip.MovedIdentifierPatchesTwo`,
  `RoundTrip.ConvergentDeleteIsIdleExactlyWhen`, `RoundTrip.MovedIdentifierDeletesTwo`).
- The supplier upsert sets a matched supplier's rank back to 1 (`Upsert.MatchedSupplierLosesRank`).
- With a module scope set, the purchasing pack loses its method grants even when purchasing is in scope
  (`Governance.ScopeDropsPurchasingMethods`, `Governance.PackNamePasses`).
- Rolling back a create on a financial or HR model deletes the record at HIGH; the comments promise that
  such a delete is always CRITICAL (`Provenance.ErasureIsCriticalExactlyWhenGranted`,
  `Provenance.ReversalErasesAtHigh`).
- Grants and scope bind when a proposal is made; a revoked grant still commits (`Provenance.CommitIgnoresPolicy`).
- A workspace sees event numbers again once it was served before and after a restart
  (`Ledger.NumbersRepeatExactlyWhen`).
- A patched field that had no value is not restored, because unset values are dropped from writes. Odoo
  reads an empty scalar as `False`, which is written back, so in practice these are the fields a read drops:
  the x2many and audit fields (`RoundTrip.FieldRestoredExactlyWhen`).
- The reversal of a generic update writes the whole record back over later edits (`RoundTrip.GenericUndoClobbers`).
- A generic delete that the backend ignores is answered `executed`, and its token would create the record a
  second time (`Provenance.GenericDeleteRemovedExactlyWhen`).
- A selection value that only reads like a stored key is written as it came (`Resolve.SelectionIsAKeyExactlyWhen`,
  `Resolve.PaddedKeyIsWritten`).
- The raise marked unreachable is reached exactly when `max_retries` is negative (`Transport.ExhaustedExactlyWhen`).
- A move written in the cursor's own second under a lower id is never delivered (`Feed.SameSecondLowerIdIsLost`,
  `Feed.NewMoveIsSeenExactlyWhen`).
- An undated message can hide a dated one from the merged chatters (`Changes.UndatedMessageHidesDated`,
  `Changes.OneChatterExactExactlyWhen`, `Changes.MergeIsExactExactlyWhen`).
- A SKU page whose template search is cut before a template's first coded variant loses a row's SKU
  (`Sku.TruncatedPageLosesSku`, `Sku.BatchEqualsSingleExactlyWhen`).
- A zone offset is cut off, not applied (`Dates.OffsetIsDropped`).
- Two keys outside the safe alphabet can share a marker, and a caller's text that quotes a marker is taken
  for it (`Marker.UnsafeKeysCollide`, `Marker.MarkerFoundExactlyWhen`).

## Model

| member | source | states |
|---|---|---|
| `AttemptKey.AtMostOneExactlyWhenRestoresAreSafe` | src/odoo_nil_adapter/edge.py:1051-1096 | over every run of proposals, commits of any verb under any keys, rollbacks, committed reversals, policy changes, restarts and lost answers, with asked-for values free of `[`: no state has two records with one key's marker exactly when every committed reversal that wrote met its guard, checkable before the call: the row it restores does not carry the marker, or no record does but the one it is written onto |
| `AttemptKey.AtMostOneRecordPerAttempt` | src/odoo_nil_adapter/edge.py:1051-1096 | so in every run without committed reversals no state has two records that carry one key's marker |
| `AttemptKey.RestoreIsSafeExactlyWhen` | src/odoo_nil_adapter/edge.py:912-926 | a generic write or restore that has an effect keeps at most one carrier exactly when that guard holds |
| `RestoredTwice.OneTokenRestoresTwice` | src/odoo_nil_adapter/edge.py:1242-1269 | the failing run, from a fresh adapter with shipped grants and unbracketed values: one delete token rolled back twice restores two orders with one marker |
| `AttemptKey.KeyedAnswersAreSound` | src/odoo_nil_adapter/edge.py:1057-1104 | for every way the calls can end: a receipt means exactly one record carries the marker and names it, the UPSTREAM_UNAVAILABLE refusal is given exactly when the first probe failed and then nothing was written, a lost answer is never `failed_terminal` |
| `AttemptKey.FailedTerminalWroteExactlyWhen` | src/odoo_nil_adapter/system.py:350-352 | a commit of any kind answered `failed_terminal` wrote something exactly when its write landed and the read-back failed |
| `Endings.AnsweredExactlyWhen` | src/odoo_nil_adapter/edge.py:848-1129 | for every proposal, store and way the calls can end, each answer exactly when it is given: `failed_terminal` when the write was reached and refused, when it was not reached, or when a delete left its record; suspended when the answer was lost and asking again did not find the create, or two records carry the key; unavailable when the first probe failed; precondition failed when the bound values drifted; an exception when the read-back failed; else a receipt |
| `Endings.WritesExactlyWhen` | src/odoo_nil_adapter/edge.py:958-1096 | a commit of any kind writes exactly when its write is reached and takes effect, and then, field by field, what is proposed: the resolved value of every field that has one, never the id, nothing else, and in the stamp field of a create that asks first the marker, behind the caller's own value |
| `Endings.ReceiptSays` | src/odoo_nil_adapter/edge.py:1057-1158 | a receipt names the record written, or found to carry the key; it says `replayed` exactly when the record was found by asking; a token is minted exactly for what has an inverse, a reversing verb or a before-image |
| `Endings.CommitLeaves` | src/odoo_nil_adapter/edge.py:819-1173 | a commit that was not answered beforehand leaves the store with that one write made and everything else as it was |
| `AttemptKey.IntroducedOnlyOnce` | src/odoo_nil_adapter/edge.py:1054-1069 | a commit of any verb that puts a marker into a field is a keyed create made while no record carried that marker |
| `StatusAnswers.StatusPredictsCommitExactlyWhen` | src/odoo_nil_adapter/edge.py:456-494 | for every memory and whatever the commit's calls answer: `executed` with a reference means it writes nothing and answers no other reference, ambiguous `unknown` means it writes nothing and is not executed, authoritative `not_found` means it adds at most that one record and names it, exactly when this life's ledger does not hold the key or its receipt names the record found, and the commit does not write unstamped beside a found record |
| `StatusAnswers.AnsweredCommitFulfils` | src/odoo_nil_adapter/edge.py:1051-1096 | when the ledger does not hold the key and every call is answered, `executed` is replayed under that reference, `unknown` is refused, and `not_found` adds one record that status then finds |
| `StatusAnswers.UndoneCreateIsStillAnswered` | src/odoo_nil_adapter/edge.py:842-843 | in any reachable state, after a stamped create, its rollback and the committed reversal, status answers `not_found` while the ledger still names the deleted record |
| `StatusAnswers.CancelledOrderIsStillExecuted` | src/odoo_nil_adapter/edge.py:842-843 | the run from a fresh adapter: an order committed, rolled back and deleted is `not_found` by status, and every commit of its key is answered `executed` with the order that is gone, writing nothing |
| `StatusAnswers.ExecutedIsFoundAfterRestart` | src/odoo_nil_adapter/edge.py:435-453 | after an executed keyed create, status by key finds its record with no memory left |
| `StatusAnswers.RetryCreatesAgainExactlyWhen` | src/odoo_nil_adapter/edge.py:422-432 | after a first attempt that landed, answered or not, status finds it exactly when its commit read the schema; a retry creates a second record exactly when its write lands and it does not read the schema, or it does, its probe is answered, and the first attempt did not |
| `Requests.StatusByKeyTells` | src/odoo_nil_adapter/edge.py:456-494 | status by key names a record exactly when it alone carries the marker, answers `not_found` exactly when none does or the verb stamps nothing and converges, and `unknown` else |
| `Requests.StatusTells` | src/odoo_nil_adapter/edge.py:1221-1233 | over every run the legacy status is `executed` exactly when a commit of the proposal was executed in this life of the adapter, and else `pending` or `expired` exactly as a commit under a fresh key would be taken or refused as expired |
| `Requests.CommitGates` | src/odoo_nil_adapter/edge.py:822-847 | a commit is malformed exactly without a key, replayed exactly under a key the ledger holds, expired exactly when its proposal is not known, and then nothing changes |
| `Requests.CommitFiles` | src/odoo_nil_adapter/edge.py:1148-1173 | an executed commit marks its proposal executed, files one receipt of it and remembers one new token, named in the receipt, exactly when what it did is reversible; a commit that is not executed files nothing |
| `Requests.ProposeAnswersExactlyWhen` | src/odoo_nil_adapter/edge.py:613-816 | a request is proposed exactly when it is allowed, filled in, provisioned and of valid choices, each refusal is given exactly when it is due, and a grant stores what was asked at the policy's tier, a supplier with exactly the fields given |
| `Requests.RollbackAnswersExactlyWhen` | src/odoo_nil_adapter/edge.py:1236-1292 | in every reachable state a token is refused as expired exactly when it is not remembered, and else proposes exactly its reversal at its tier |
| `AttemptKey.CarriesIsContains` | src/odoo_nil_adapter/edge.py:444 | the probe finds exactly the records whose field contains the marker's text |
| `Invariants.StepKeepsInv` | src/odoo_nil_adapter/edge.py:613-1292 | every request, restart, policy change and outside change keeps: ids are never reused or empty, proposals say whom they are about, memory agrees with the recorded run, every effect is the one its proposal proposed, every token restores what its own commit met |
| `Invariants.RunKeepsInv` | src/odoo_nil_adapter/edge.py:599-1292 | the invariant holds in every reachable state |
| `Invariants.PerformOk` | src/odoo_nil_adapter/edge.py:848-1158 | whatever the calls answer, a commit's effect is on the record its proposal names (its own id first, the human identifier's record only when no record has that id) or its keys find, and writes exactly the proposed fields that have a value once resolved, never the id, and on a create that asks first the commit's marker behind a reference the caller gave; any token it mints calls the declared inverse, deletes the created record, writes back exactly the patched fields, or creates the erased row anew |
| `Provenance.EveryEffectWasGranted` | src/odoo_nil_adapter/edge.py:613-816 | over all runs every store change is the one a proposal proposed, record and values included, and that proposal was granted when proposed or ends a chain of reversals, each undoing the commit before it, that leads back to such a grant |
| `Provenance.ErasureIsCriticalExactlyWhenGranted` | src/odoo_nil_adapter/governance.py:156-172 | over all runs an erased record of `account`, `hr` or a model below them was erased at CRITICAL exactly when the erasing proposal was asked for; by reversal it is erased at HIGH |
| `Provenance.ReversalErasesAtHigh` | src/odoo_nil_adapter/edge.py:1259-1269 | the run that reaches it: a tenant allowed to create journal entries and denied deleting them creates one, rolls back, and the reversal deletes it at HIGH |
| `Provenance.CommitIgnoresPolicy` | src/odoo_nil_adapter/edge.py:843-847 | no policy change after PROPOSE alters what any commit does to the store or whether it is executed; except for the token of a workflow method it alters no answer and no memory either |
| `Provenance.OnlyCommitsWrite` | src/odoo_nil_adapter/edge.py:1236-1241 | PROPOSE, ROLLBACK, policy changes and restarts leave the store and the log of effects alone |
| `Provenance.StoreIsItsLog` | src/odoo_nil_adapter/edge.py:819-1173 | without other writers the store is the first store with the recorded effects replayed, whatever answers were lost |
| `Provenance.TokenCoherence` | src/odoo_nil_adapter/edge.py:1242-1292 | over all runs every token stems from a recorded commit and undoes its effect with what was there before, and rolls back to a committable proposal with model, record and method filled in, never to a refusal or a crash |
| `Provenance.GenericDeleteRemovedExactlyWhen` | src/odoo_nil_adapter/edge.py:912-941 | a generic delete answered `executed` removed its record exactly when the backend did not ignore it |
| `Provenance.CuratedDeleteIsHonest` | src/odoo_nil_adapter/edge.py:1112-1129 | a curated delete answered `executed` left no record, and an ignored delete is a failure with nothing minted |
| `Ledger.LedgerOnlyGrows` | src/odoo_nil_adapter/edge.py:1162-1163 | over every run without upserts and restarts entries are added and never changed |
| `Ledger.ExecutedStaysExecuted` | src/odoo_nil_adapter/edge.py:842-843 | a key once executed is answered with the same record for the rest of such a run, with no store change and no second event |
| `Ledger.RetryIsReplayedExactlyWhen` | src/odoo_nil_adapter/edge.py:1013-1036 | an executed commit is replayed under its own key exactly when it is no upsert, or it is a contact upsert and its key is the text `email` where the email decided and `phone` where not |
| `Ledger.UpsertReceiptKey` | src/odoo_nil_adapter/edge.py:1014 | an upsert's receipt is always filed under one of the probed deduplication keys |
| `Ledger.ShadowedKeyAnswersStranger` | src/odoo_nil_adapter/edge.py:842-843 | for the rest of any run without restarts and upserts, the text a receipt was filed under answers every commit of every proposal with that stranger's receipt and writes nothing |
| `Ledger.EmailKeyIsTaken` | src/odoo_nil_adapter/edge.py:1014 | a fresh adapter with the shipped policy gets there with one proposal and one commit: afterwards the key `email` answers with the contact's receipt |
| `Ledger.StepEvents` | src/odoo_nil_adapter/edge.py:1164-1173 | exactly one event per commit answered `executed` outside ledger replay, with the workspace's next number, and none otherwise |
| `Ledger.EventsCount` | src/odoo_nil_adapter/state.py:19-21 | over every run each workspace's numbers are 1, 2, 3, … within each life of the adapter |
| `Ledger.NumbersRepeatExactlyWhen` | src/odoo_nil_adapter/state.py:11-21 | over every run a workspace sees a sequence number twice exactly when it was served in two lives of the adapter |
| `Ledger.CrashesExactlyWhen` | src/odoo_nil_adapter/edge.py:930-934 | a commit ends in an exception exactly when it reads its write back and that read fails; when it reads back is said per path: the generic writes once answered, a delete once answered, a curated write of some field on a known record, a keyed create with a record at hand, a workflow method never |
| `Ledger.CrashIsForgotten` | src/odoo_nil_adapter/edge.py:922-934 | a commit that ended in an exception left no ledger entry, no event and no executed mark; a generic one has landed, unless its delete was ignored, and minted a token no answer names |
| `Upsert.UpsertCommitConverges` | src/odoo_nil_adapter/edge.py:987-1036 | in any reachable state, after a commit of a shipped upsert that landed, answered or not, committing the same arguments on the store it left changes nothing, failed probes included, and if answered is executed on that same record |
| `Upsert.UpsertConverges` | src/odoo_nil_adapter/edge.py:987-1036 | the same for keys of any shape, single, compound or domain, that the written document settles |
| `Upsert.UpsertNeverCreatesBlindly` | src/odoo_nil_adapter/edge.py:728-768 | in every reachable state, when an accepted upsert creates a record at least one key was probed, all probed keys answered, and none found a record |
| `Upsert.StaysProbedExactlyWhen` | src/odoo_nil_adapter/edge.py:1015-1023 | a key probed at PROPOSE is probed at COMMIT exactly when none of its fields was resolved to an empty value |
| `Upsert.ShippedUpsertsSettle` | src/odoo_nil_adapter/translate.py:1717-1772 | every shipped upsert's document, as it is written after resolution, matches every key it is probed with, on any record it is written over, the supplier's domains included |
| `Identity.SupplierIsKnownBy` | src/odoo_nil_adapter/translate.py:1770-1772 | over the store: a supplier upsert patches a record exactly when it is the one supplier, of rank above 0, with the given email, or without an email with the given name, and creates exactly when there is none |
| `Identity.ContactIsKnownBy` | src/odoo_nil_adapter/edge.py:1013-1036 | a contact or client upsert patches exactly the one partner with its email, or when no partner has that email the one with its phone, and creates exactly when neither finds any |
| `Identity.LinkIsKnownBy` | src/odoo_nil_adapter/translate.py:1633-1660 | a supplier link is patched exactly when it is the one link of that product and that partner together, and created exactly when there is none |
| `Upsert.CreatedIsFoundExactlyWhen` | src/odoo_nil_adapter/edge.py:1014-1036 | a record an upsert created is found again exactly when its document matches one of the probed domains |
| `Upsert.StuckExactlyWhen` | src/odoo_nil_adapter/edge.py:1014-1036 | an upsert stops without writing exactly when some key it reaches cannot be asked or is ambiguous |
| `Upsert.MatchedSupplierLosesRank` | src/odoo_nil_adapter/translate.py:1717-1728 | a matched supplier leaves the upsert with rank 1 |
| `RoundTrip.CreateThenUndo` | src/odoo_nil_adapter/edge.py:1236-1292 | create, rollback and commit of the reversal bring every record back as it was, for generic and curated creates and unmatched upserts |
| `RoundTrip.CreateRoundTrip` | src/odoo_nil_adapter/edge.py:894-897 | whatever ran in between, the reversal of a create, by verb or generic, removes exactly the created record and keeps every other as it finds it |
| `RoundTrip.CreateLeavesToken` | src/odoo_nil_adapter/edge.py:1151-1158 | an executed reversible create, generic or curated, adds one record and leaves a token that deletes it, which outlives any run without a restart |
| `RoundTrip.UpdateThenUndo` | src/odoo_nil_adapter/edge.py:183-193 | update or matched upsert, rollback and commit of the reversal bring every record back, but for patched fields that had no value |
| `RoundTrip.DeleteThenUndo` | src/odoo_nil_adapter/edge.py:912-926 | generic delete, rollback and commit of the reversal bring the row back under a new id and leave every other record as it was |
| `RoundTrip.CallThenUndo` | src/odoo_nil_adapter/edge.py:870-885 | workflow method, rollback and commit of the reversal call Odoo for the method and then for its declared inverse on the same record, and change no record |
| `RoundTrip.UpdateRoundTrip` | src/odoo_nil_adapter/edge.py:183-193 | whatever ran in between, the before-image reversal writes back the patched fields' values, as they resolve by then, and keeps other fields and records as it finds them |
| `RoundTrip.CommitMintsBeforeImage` | src/odoo_nil_adapter/edge.py:976-978 | an executed before-image update or matched upsert mints the values its record held in exactly the patched fields |
| `RoundTrip.FieldRestoredExactlyWhen` | src/odoo_nil_adapter/system.py:345-347 | a patched field gets its old value back exactly when it had one or holds none now |
| `RoundTrip.GenericUndoClobbers` | src/odoo_nil_adapter/edge.py:912 | the reversal of a generic update carries the record as the update found it, and written over any later row sets exactly the fields that had a value back to it |
| `RoundTrip.RollbackStands` | src/odoo_nil_adapter/edge.py:1236-1269 | a rollback never writes, and its proposal stays committable through any later run without a restart |
| `RoundTrip.WitnessGuardsExactlyWhen` | src/odoo_nil_adapter/edge.py:678-684 | a granted generic update is guarded by what it previewed, against every store and every answer, exactly when its id stood for a record at PROPOSE or it writes no field |
| `RoundTrip.BoundGuards` | src/odoo_nil_adapter/edge.py:904-909 | a bound update patches only while its fields hold the bound values, and is refused with PRECONDITION_FAILED when they do not |
| `RoundTrip.AbsentAtProposeIsUnguarded` | src/odoo_nil_adapter/edge.py:681-684 | the failing input: a partner absent at PROPOSE and present at COMMIT is patched unseen under the shipped policy |
| `RoundTrip.PatchedIsNamedAtCommit` | src/odoo_nil_adapter/edge.py:898-903 | the patched record is the one the id stands for at COMMIT, the previewed one when the id is a record's own |
| `RoundTrip.ConvergentUpdateIsIdleExactlyWhen` | src/odoo_nil_adapter/edge.py:981-986 | for two commits of a convergent update with any record argument, each ending in any way: the second leaves the store alone exactly when it does not land, the first landed on the record it resolves to, or its patch changes nothing there |
| `RoundTrip.MovedIdentifierPatchesTwo` | src/odoo_nil_adapter/edge.py:106-120 | the failing input: a human identifier that stands for another record by the second commit, and both are patched |
| `RoundTrip.ConvergentDeleteIsIdleExactlyWhen` | src/odoo_nil_adapter/edge.py:976-980 | for two commits of a convergent delete with any record argument: exactly when the second does not land, the first landed on the id it resolves to, or that id names no record |
| `RoundTrip.MovedIdentifierDeletesTwo` | src/odoo_nil_adapter/edge.py:106-120 | the failing input: the identifier stands for another record by then, and that one is deleted next |
| `RoundTrip.ConvergentCallIsIdleExactlyWhen` | src/odoo_nil_adapter/edge.py:488-490 | for two commits of a convergent method: records stay, and Odoo is called again exactly when the second lands |
| `Verbs.CompensationIsCommittable` | src/odoo_nil_adapter/compensation.py:24-73 | every compensating verb of the table is a delete on the model of the verb it undoes whose one required arg receives the id |
| `Governance.WriteTierIs` | src/odoo_nil_adapter/governance.py:144-172 | a generic write is allowed exactly when the model is in scope, group by group, and granted to the tenant or on a shipped model; deleting a record of `account`, `hr` or a model below them is then CRITICAL, and any other write has exactly its grant's tier, or the shipped one |
| `Governance.DestructiveIsCritical` | src/odoo_nil_adapter/governance.py:29-43 | whatever was granted, a permitted delete on `account`, `hr` or any model below them is CRITICAL |
| `Governance.MethodTierIs` | src/odoo_nil_adapter/governance.py:175-191 | a workflow method has the tier and the inverse of the tenant's own grant, else those of the packs whose name passes the scope, else none |
| `Governance.GrantsStayWithTheirTenant` | src/odoo_nil_adapter/governance.py:102-109 | no history of grants to other tenants changes a tenant's write or method tiers |
| `Governance.ScopeDropsPurchasingMethods` | src/odoo_nil_adapter/packs.py:351-354 | with purchasing as the only module in scope an order can be created but its shipped confirm grant is gone |
| `Governance.PackNamePasses` | src/odoo_nil_adapter/governance.py:144-153 | a pack keeps its method grants under a scope exactly when it is the crm pack and crm is in scope |
| `Edge.Adapter.Commit` | src/odoo_nil_adapter/edge.py:819-1173 | the handler, deciding on the client's replies alone, leaves the state and gives the answer the specification gives for what the backend did, and keeps the invariant |
| `Edge.Adapter.Perform` | src/odoo_nil_adapter/edge.py:848-1104 | the write a handler makes ends as `Endings.AnsweredExactlyWhen` says and has the effect `Endings.WritesExactlyWhen` says, in terms of what the backend's calls met |
| `Edge.Adapter.CreateKeyed` | src/odoo_nil_adapter/edge.py:1051-1096 | the ask-first protocol, seeing only the probes' and the write's replies, has the specified effect and ending |
| `Edge.Adapter.ProbeInOrder` | src/odoo_nil_adapter/edge.py:1013-1036 | the loop over the keys returns what the specification's ordered probes find, with the key name they leave behind |
| `Edge.Adapter.RunVerb` | src/odoo_nil_adapter/edge.py:961-1096 | every declared strategy has the specified effect and ending |
| `Edge.Adapter.WriteGeneric` | src/odoo_nil_adapter/edge.py:886-951 | the generic create, update and delete have the specified effect and ending |
| `Edge.Adapter.StatusByKey` | src/odoo_nil_adapter/edge.py:456-494 | the answer is the specified one and nothing changes |
| `Edge.Adapter.RestartProcess` | src/odoo_nil_adapter/state.py:11-17 | a fresh memory over the same store |
| `Edge.ShimState.NextSequence` | src/odoo_nil_adapter/state.py:19-21 | the workspace's number is its last plus one and no other changes |
| `Backend.Client.Search2` | src/odoo_nil_adapter/system.py:631-644 | a search cut at two tells none, exactly the one hit, and several apart |
| `Marker.EscapedLikeIsContainment` | src/odoo_nil_adapter/edge.py:412-419 | under LIKE of the PostgreSQL manual, section 9.7.1, an escaped value matches anywhere exactly the texts that contain it, for all texts and values |
| `Marker.SequentialEscapeIsOnePass` | src/odoo_nil_adapter/edge.py:419 | the three successive replacements are one escape per character |
| `Marker.UnescapedLikeCollides` | src/odoo_nil_adapter/edge.py:412-418 | without the escape one attempt's probe matches another attempt's marker |
| `Marker.PlainMarkerSeparation` | src/odoo_nil_adapter/edge.py:402-409 | for safe keys up to 64 characters and a prior text without `[`, the probe for one key hits a field stamped for another exactly when the keys are equal |
| `Marker.MarkerSeparation` | src/odoo_nil_adapter/edge.py:1058-1060 | for any two keys, hashed ones included, exactly when their marker bodies are equal |
| `Marker.MarkerFoundExactlyWhen` | src/odoo_nil_adapter/edge.py:402-409 | for any prior text at all, exactly when the bodies are equal or the prior text already contains the marker |
| `Marker.UnsafeKeysCollide` | src/odoo_nil_adapter/edge.py:406 | two different keys outside the safe alphabet with one marker |
| `Marker.MarkerIs` | src/odoo_nil_adapter/edge.py:402-409 | the marker's text, character by character: the stripped key with a dash for every unsafe character, or for a longer key than 64 the first 32 characters of its digest |
| `Resolve.ResolveWrites` | src/odoo_nil_adapter/edge.py:270-293 | the loop succeeds exactly when every field resolves, and then returns every field resolved |
| `Resolve.ChoiceGate` | src/odoo_nil_adapter/edge.py:538-559 | the gate passes exactly when every value of every constrained field is a real member, and otherwise names a field that fails |
| `Resolve.GateMirrorsResolution` | src/odoo_nil_adapter/edge.py:538-546 | the gate at PROPOSE passes exactly the documents that resolve at COMMIT |
| `Resolve.ResolutionIsIdempotent` | src/odoo_nil_adapter/edge.py:958-960 | a resolved document resolves to itself |
| `Resolve.ReferenceMeans` | src/odoo_nil_adapter/edge.py:196-221 | a term resolves to a record exactly when it is the only one called exactly so, or when none is the only one at all, among the first two with that code or else the first eight whose name contains it; several or none resolve to nothing |
| `Resolve.SelectionMeans` | src/odoo_nil_adapter/edge.py:224-243 | a term resolves to a key exactly when it is or reads as one, or when every choice that reads as the term has that key |
| `Resolve.CellMeans` | src/odoo_nil_adapter/edge.py:246-293 | unset values, empty text and x2many lines are left alone, and every other value becomes exactly what it resolves to |
| `Resolve.SelectionIsAKeyExactlyWhen` | src/odoo_nil_adapter/edge.py:232-243 | what is written is a stored key exactly when the value is one or does not read like one; a value that only reads like a key is written as it came |
| `Resolve.PaddedKeyIsWritten` | src/odoo_nil_adapter/edge.py:232-233 | the failing input: a key with blanks around it is written with them |
| `Resolve.NumeralNeedsNoRecord` | src/odoo_nil_adapter/edge.py:205-206 | a bare numeral passes as an id although no record exists |
| `Transport.WriteIsSound` | src/odoo_nil_adapter/system.py:295-343 | for every course of outcomes a write is applied at most once in at most max_retries + 1 attempts, a return means applied, a plain error means not applied and is given exactly on a fault or a 429, and the last raise is not reached |
| `Transport.AttemptsExactlyWhen` | src/odoo_nil_adapter/system.py:295-343 | for any answers: exactly the attempts up to the first answer that is not silence or HTTP 429, 502, 503 or 504 for a read, not HTTP 429 for a write, or all max_retries + 1; and whether the last answer is seen as a return, a plain error or a doubt |
| `Transport.ReadIsNeverInDoubt` | src/odoo_nil_adapter/system.py:295-343 | a read returns exactly when some attempt within the budget is answered and only such passing trouble came before, else it ends in a plain error |
| `Transport.ExhaustedExactlyWhen` | src/odoo_nil_adapter/system.py:343 | the last raise is reached exactly for a negative max_retries |
| `Transport.BackoffBound` | src/odoo_nil_adapter/system.py:320-322 | the total backoff is at most backoff * (2^max_retries - 1) |
| `Transport.RealSystemClient.Kw` | src/odoo_nil_adapter/system.py:295-343 | the retry loop sends exactly those attempts, stated on the answers themselves, with the pauses between them and the verdict of the last, and keeps consecutive calls spaced |
| `Transport.RealSystemClient.Throttle` | src/odoo_nil_adapter/system.py:271-279 | after it at least min_interval has passed since the last call |
| `Domain.DomainAnswersExactlyForests` | src/odoo_nil_adapter/system.py:135-161 | for any token list at all, the evaluator answers b exactly when the list is the prefix form of some list of trees whose conjunction is b |
| `Domain.FlattenedDomainMeansConjunction` | src/odoo_nil_adapter/system.py:135-161 | the prefix form of any list of and/or/not trees evaluates to the conjunction of their meanings, errors included |
| `Domain.TermMeansTree` | src/odoo_nil_adapter/system.py:144-156 | in any context one term consumes exactly one tree's tokens and means that tree |
| `Domain.Evaluator.Matches` | src/odoo_nil_adapter/system.py:135-161 | the loop over a moving cursor computes that evaluation and consumes every token |
| `Domain.OperatorsMean` | src/odoo_nil_adapter/system.py:111-132 | every operator asks of any cell and value what its sign says: numbers by size, text by its first difference, unset cells never compare, the two kinds together raise |
| `Sorting.ComparatorMeans` | src/odoo_nil_adapter/system.py:174-179 | the comparator lets a row stand before another exactly when the first key that tells them apart puts it in front, or none does: the smaller number or earlier text, unset cells last, turned round when the key is descending |
| `Sorting.RepeatedSortIsLexicographic` | src/odoo_nil_adapter/system.py:174-179 | stable sorts from the last key to the first are one stable sort by the full comparator, for any number of keys |
| `Sorting.SortedRowsMeaning` | src/odoo_nil_adapter/system.py:174-179 | the result is a permutation, in comparator order with per-key direction and unset values placed, and full ties keep their order |
| `Sorting.SortedRows` | src/odoo_nil_adapter/system.py:174-179 | the loop returns that one sort |
| `Sorting.TwoSortsAreOne` | src/odoo_nil_adapter/system.py:174-176 | sorting by a minor order and then stably by a major one is sorting by both |
| `Search.SearchIsSortedFilter` | src/odoo_nil_adapter/system.py:631-644 | a search is the sorted selection cut at its limit, for any test that says what the domain means |
| `Dates.DateRoundTrip` | src/odoo_nil_adapter/translate.py:1167-1193 | a stored timestamp survives the trip to ISO text and back |
| `Dates.DatesOrderChronologically` | src/odoo_nil_adapter/translate.py:1167-1173 | stored timestamps compare as text exactly as their years, months, days, hours, minutes and seconds compare, and no two texts name one time (RFC 3339, section 5.1) |
| `Dates.IsoKeepsTimeAndOrder` | src/odoo_nil_adapter/translate.py:1167-1173 | the ISO texts name the same times in the same order |
| `Dates.OffsetIsDropped` | src/odoo_nil_adapter/translate.py:1176-1193 | every offset, east or west, behind the blank or the `T` form names the same stored time |
| `Dates.FractionIsDropped` | src/odoo_nil_adapter/translate.py:1176-1193 | whatever follows a point, fractions of a second and any zone behind them, names the same stored time |
| `Feed.PagingIsExact` | src/odoo_nil_adapter/translate.py:1433-1467 | following `next` from any cursor with any limits yields the owed moves in order, each once, cut at the sum of the limits |
| `Feed.PagingTerminates` | src/odoo_nil_adapter/translate.py:1433-1467 | as many requests as rows owed deliver all of them |
| `Feed.OwedIsExact` | src/odoo_nil_adapter/translate.py:1433-1450 | what is owed is every done move above the cursor, once, strictly ascending by write date and id |
| `Feed.NewMoveIsSeenExactlyWhen` | src/odoo_nil_adapter/translate.py:1433-1467 | a done move that appears between two requests and stays is delivered or still ahead, however long the session, exactly when it lies above the cursor then in hand: a later date, or that date with a higher id |
| `Feed.NoMoveSkipped` | src/odoo_nil_adapter/translate.py:1433-1467 | so when all that is written lies above the cursor in hand, every done move is delivered or still above the cursor |
| `Feed.SameSecondLowerIdIsLost` | src/odoo_nil_adapter/translate.py:1433-1450 | a move written at the cursor's own date with no higher id is on no later page |
| `Feed.FeedDomainMeansAbove` | src/odoo_nil_adapter/translate.py:1445-1450 | the prefix domain sent to the backend means done and strictly above the cursor |
| `Feed.FeedAnswersExactlyWhen` | src/odoo_nil_adapter/translate.py:1433-1467 | bad arguments, a model out of scope and a backend that does not answer are refused exactly in that order, and all else is a page of the moves owed |
| `Feed.LimitMeans` | src/odoo_nil_adapter/translate.py:1268-1280 | a limit is 50 when none is given, a number from 1 to 200 however written, and else refused |
| `Feed.CursorMeans` | src/odoo_nil_adapter/translate.py:1413-1430 | a cursor is an ISO timestamp and an id of 0 or more, 0 when none is given, and else refused |
| `Changes.MergeIsExactExactlyWhen` | src/odoo_nil_adapter/translate.py:1532-1547 | for any list of domains, undated messages included: the merged answer is the newest `limit` of the whole union exactly when every dated message among those has fewer than `limit` undated and newer dated messages before it in some domain it matches |
| `Changes.OneChatterExactExactlyWhen` | src/odoo_nil_adapter/translate.py:1532-1547 | for one chatter with u undated and t dated matches: exactly when limit is 0, u is 0, t is 0, or u + t is within the limit |
| `Changes.MergeIsExact` | src/odoo_nil_adapter/translate.py:1532-1547 | with a date on every match the newest `limit` of each domain, deduplicated, sorted and cut, are the newest `limit` of the whole union |
| `Changes.UnionMeaning` | src/odoo_nil_adapter/translate.py:1532-1547 | the union holds each matching message once, newest first |
| `Changes.HistoryChanges` | src/odoo_nil_adapter/translate.py:1532-1547 | the loop gathers what the specification gathers, and refuses exactly when a search fails |
| `Changes.UndatedMessageHidesDated` | src/odoo_nil_adapter/translate.py:1546-1547 | the smallest failing chatter: one undated message, one dated, room for one |
| `Sku.BatchEqualsSingleExactlyWhen` | src/odoo_nil_adapter/translate.py:2390-2414 | a row shows the same SKU and supplier from a shared code map as alone exactly when both searches reach its template's first coded variant or neither does |
| `Sku.FullSearchReaches` | src/odoo_nil_adapter/translate.py:2355-2360 | a search answered in full reaches every code |
| `Sku.TwentyVariantsShowAll` | src/odoo_nil_adapter/translate.py:2352-2360 | when no template of the page has more than 20 variants, or all together at most 200, every row of a page of any size shows its product's own code, else its template's first coded variant's |
| `Sku.ProjectionIsReferenceExactlyWhen` | src/odoo_nil_adapter/translate.py:2390-2414 | a row shows its product's own code, else its template's first coded variant, exactly when the page's search reaches that variant |
| `Sku.BatchDefaultCodes` | src/odoo_nil_adapter/translate.py:2333-2360 | the two filling loops give the last code per id and the first per template |
| `Sku.TruncatedPageLosesSku` | src/odoo_nil_adapter/translate.py:2355-2360 | 200 variants of a sibling template cost a row its SKU |

## Left out

- AtMostOneExactlyWhenRestoresAreSafe: values of asked-for proposals in the stamped field are free of `[`, others add no record with the marker, and a lost create is settled before the next commit under its key; overlapping commits under one key are not modelled, the code takes no lock.
- KeyedAnswersAreSound: takes the digest of an overlong key as a parameter; SHA-256 itself is not modelled, so injectivity is claimed for unhashed keys only.
- UpsertCommitConverges: both commits resolve human terms alike, no term resolves to an empty value, and a supplier's name, email and rank, plain fields, are not resolved.
- RetryCreatesAgainExactlyWhen: the document's value in the stamped field is free of `[`, and no record carried the marker before the first attempt.
- UpdateThenUndo: the values restored resolve to themselves, as ids and stored keys do; UpdateRoundTrip says what is written back when they do not.
- DeleteThenUndo: likewise.
- ConvergentCallIsIdleExactlyWhen: says that Odoo is called again, not whether that call changes anything there.
- BoundGuards: compares the snapshots themselves; the code compares their SHA-256.
- FastAPI routing, authentication, envelopes, HMAC, timestamps and previews: plumbing without state of its own. Proposal ids and tokens are numbers from one counter instead of random text.
- XML-RPC, HTTP, report rendering, vault credentials and tenant routing: only the outcomes of a call are kept.
- The data plane of the `nilscript` library is not part of this model.
- The per-verb field maps other than the supplier's, landed-cost arithmetic, noun-to-model resolution and the manifest overlay: straight-line mappings; a proposal carries the document they produce.
- The lookup of a human identifier in `_resolve_id`: the environment names the record, if any, it stands for.
- The content of `_verify_and_diff`: only that its read can fail. The `verified` flag and the field differences are not modelled.
- Reads made while proposing: assumed to answer. A schema that cannot be read appears as an unstampable field or a failed resolution.
- An update of a missing record is refused as Odoo refuses it; the in-memory FakeSystem would add it.
- Workflow methods are recorded as calls; what Odoo does in them is not modelled.
- Sorting a column that mixes numbers and text, where Python raises: numbers come first here.
- Unicode case folding, and digits and underscores that Python's `int` and `isdigit` accept beyond ASCII.
- Grants read from the environment as JSON, and the reload of the policy at a restart, which appear as policy changes.
- The projection of history items, their field groups, `_product_changes_domains` and the plain-text rendering of bodies.
- Python's sort and the backend's table order are modelled as one stable sort over rows in table order.
