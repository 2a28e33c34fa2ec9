# glyff, modelled and proved

glyff is a durable-execution engine: engraved calls are recorded under content-addressed
identities, interrupted sessions are resumed by replaying what completed, and recorded
sessions are carried across code versions. This project models its six hard parts and
proves what they promise.

| part | files |
|---|---|
| Canonical arguments, the recorded form that keys a call | `Canonical.dfy` |
| Identities and ordinals | `Identity.dfy`, `Sequencer.dfy` |
| The replay engine as a small-step machine over the store, its safety over any history of interrupted attempts, and the simulation that makes resuming equal to never having been interrupted | `Replay.dfy`, `ReplaySafety.dfy`, `ReplayResume.dfy` |
| What the code of a call observes in every run: answers, metadata, ordinals, said on the code and its history alone | `Observations.dfy` |
| The same engine as the code runs it (call stack, nested transactions, sequencer, claim cache), proved to refine the machine | `Executor.dfy` |
| Migration: the specification of a rebuild, what it means on the rules alone, the worklist that computes it, what a chain of transitions leads to, the registered graph and the walk along it, what a migrated store means for the renamed code, and why every store the engine leaves can be a source | `Migration.dfy`, `Conversions.dfy`, `Rebuild.dfy`, `Journeys.dfy`, `MigrationChain.dfy`, `MigrateResume.dfy`, `ChainResume.dfy`, `MigrationSource.dfy` |
| Nested transaction staging over task contexts, and whole runs of it | `Staging.dfy`, `StagingRuns.dfy`, `Pruning.dfy` |
| Path codec and enumeration | `PercentCodec.dfy`, `PathCodec.dfy`, `PathOrder.dfy`, `Enumeration.dfy`, `StreamingMerge.dfy` |
| The file store: its document, its write protocol as a state machine with crashes and cancellation, what its document holds over whole runs, how every call ends, where runs can get, and session migration | `FileDocument.dfy`, `FileStore.dfy`, `FileStoreRuns.dfy`, `FileStoreContents.dfy`, `FileStoreEndings.dfy`, `FileStoreProgress.dfy`, `FileMigration.dfy`, `Workers.dfy` |

`dafny verify dfyconfig.toml` checks everything.

How to read the models:

- A program is a function from the call it runs in and everything it has observed there to
  its next action. Being a function is the determinism glyff asks for; being keyed by the
  identity lets repeated identical calls differ by ordinal. An attempt is a machine that
  takes one step for each thing an interruption could separate from the next, so "any
  number of steps" is "an interruption anywhere".
- A digest is an uninterpreted string. Where two digests must mean two argument mappings
  (the migration rewriter), the hash is a parameter assumed injective.
- A class keeps the fields the code updates; its methods equate the new state with a
  function of the old one, and the lemmas are about those functions. What such a function
  means is said a second time without it: by what callers observe (`Observations`), on the
  rules of a plan (`Conversions`), on the events of a run (`FileStoreEndings`).
- Task contexts, stages, jobs and clients are numbered. Each step of `StagingRuns` and
  `FileStore` is one thing the event loop or the operating system does without being
  interleaved.

Two points modelled as the code is, where a reader might expect otherwise:

- A comment in `store/staging.py` says a close a stage is not entitled to make leaves it exactly as it
  was. Closing from a context that copied the stage takes the stage's token before the
  reset fails. `StagingRuns.RefusedCloseChangesNothing` gives the exact condition,
  `ForeignCloseSticks` a concrete run, and `StuckExactlyAfterForeignClose` and
  `StuckForever` what it costs: the stage can then never be closed.
- `_canonical_arguments.py` restores the top-level mapping entry by entry, so a marker
  there is not read as a fallback; such a form is refused only because encoding it again
  fails. `Canonical.FromRecordedAccepts` states what is accepted.

## Model

| member | source | states |
|---|---|---|
| Canonical.EncodeAccepts | packages/glyff/src/glyff/_canonical_arguments.py:99-145 | Encoding is refused exactly when NaN or an infinity, or a mapping holding the reserved marker, occurs at some depth. |
| Canonical.RestoreAccepts | packages/glyff/src/glyff/_canonical_arguments.py:148-162 | Restoring is refused exactly when a marker stands beside other keys at some depth. |
| Canonical.EncodedSpells | packages/glyff/src/glyff/_canonical_arguments.py:99-145 | Encoding gives a tree if and only if it spells the value node by node: scalars as themselves, lists in order, mappings under the same keys, a fallback as the mapping whose one key is the marker. |
| Canonical.RestoreAfterEncode | packages/glyff/src/glyff/_canonical_arguments.py:108-162 | Restoring an encoded value gives the value back, with fallbacks nested anywhere. |
| Canonical.EncodeAfterRestore | packages/glyff/src/glyff/_canonical_arguments.py:108-162 | Encoding a restored form gives the form back. |
| Canonical.RestoredIsSpelled | packages/glyff/src/glyff/_canonical_arguments.py:148-162 | Restoring gives a value if and only if the tree spells it. |
| Canonical.EncodingIsInjective | packages/glyff/src/glyff/_canonical_arguments.py:39-43 | Two argument mappings with one recorded form are the same mapping. |
| Canonical.RecordedFormsAreEncodings | packages/glyff/src/glyff/_canonical_arguments.py:45-55 | The recorded forms accepted are exactly the encodings, and decoding is the inverse of encoding both ways. |
| Canonical.FromRecordedAccepts | packages/glyff/src/glyff/_canonical_arguments.py:45-81 | A recorded form is accepted if and only if it is a mapping of restorable values without the marker among the argument names. |
| Canonical.ToCanonicalIsIdentity | packages/glyff/src/glyff/serialization/_canonicalization.py:85-105 | Canonicalizing a value that is already canonical changes nothing, and refuses no encodable value. |
| Canonical.RecordedArgumentsAreStable | packages/glyff/src/glyff/serialization/_canonicalization.py:85-105 | Canonicalizing what a recorded form decodes to gives the same recorded form, so a migration that returns its input keeps the key. |
| Canonical.CanonicalizeIsEncode | packages/glyff/src/glyff/serialization/_canonicalization.py:85-105 | On canonical values, canonicalizing and encoding agree, refusals included. |
| Sequencing.Sequencer.Next | packages/glyff/src/glyff/_sequencer.py:24-41 | Issues the count of the scope and advances that count alone. |
| Sequencing.Sequencer.ResetForCall | packages/glyff/src/glyff/_sequencer.py:43-54 | Forgets exactly the counters whose parent is the call. |
| Sequencing.EventKeepsInvariant | packages/glyff/src/glyff/_sequencer.py:24-54 | Each step of any task keeps the issued identities distinct and in bijection with the counters; starting a call changes no count. |
| Sequencing.IdentitiesAreUnique | packages/glyff/src/glyff/_sequencer.py:24-41 | Under any interleaving of tasks no two calls get one identity, and the ordinals issued in a scope are exactly 0 to n-1. |
| Sequencing.ResetPrecedesChildren | packages/glyff/src/glyff/_executor.py:40-47 | When a call starts, no child of it has been numbered, so the reset loses nothing. |
| Sequencing.NumberedAt | packages/glyff/src/glyff/_sequencer.py:32-41 | A call's ordinal is the number of earlier calls of its own scope. |
| Sequencing.IdentityIgnoresOtherScopes | packages/glyff/src/glyff/_sequencer.py:32-41 | Two histories give a call one identity if and only if equally many calls of its scope came before it, whatever other scopes did. |
| Sequencing.NumberedSet | packages/glyff/src/glyff/_sequencer.py:32-41 | An identity is issued if and only if its ordinal is below the multiplicity of its scope. |
| Sequencing.IdentitiesIgnoreOrder | packages/glyff/src/glyff/_sequencer.py:32-41 | The set of identities issued depends only on the multiset of calls. |
| ReplaySafety.StepKeepsGood | packages/glyff/src/glyff/_executor.py:34-86 | Every step keeps the store consistent, with ancestors stored and domains versioned, and keeps every call on the stack recorded as started. |
| ReplaySafety.HistoriesLeaveValidStores | packages/glyff/src/glyff/_domain.py:129-146 | After any history of attempts, interrupted anywhere, by any code, each record's ancestors are stored and each domain of its chain has a version. |
| ReplaySafety.StepProgress | packages/glyff/src/glyff/_executor.py:34-66 | A step leaves each record as it is, completes it with its arguments kept, or removes it below a completed call; a record that appears is the START record of the call entered; nothing settled is recorded anew. |
| ReplaySafety.HistoriesProgress | packages/glyff/src/glyff/_executor.py:34-45 | Over any further attempts a record that is there stays as it is or is completed, a completed one keeps its result, and one goes only below a completed call. |
| ReplaySafety.HistoriesAppearStarted | packages/glyff/src/glyff/_executor.py:40-45 | Over any history a record that was not there before appeared, at a step of some attempt, as a START record: records only move from absent to started to completed. |
| ReplaySafety.SettledNeverRuns | packages/glyff/src/glyff/_executor.py:34-38 | A call that is completed, or lies below one that is, never gets onto the stack again. |
| ReplaySafety.CompletedNeverRunsAgain | packages/glyff/src/glyff/_executor.py:34-38 | Once a call is completed, its body runs in no later attempt, pruned or not. |
| ReplaySafety.WritersAgree | packages/glyff/src/glyff/_domain.py:129-136 | In an attempt recorded versions never change, and the process runs and records only calls of domains whose recorded version it carries. |
| ReplaySafety.HistoriesKeepVersions | packages/glyff/src/glyff/_domain.py:129-136 | Over any history of attempts recorded versions never change. |
| ReplaySafety.ProcessesAgreed | packages/glyff/src/glyff/_domain.py:129-136 | Every process that ran or recorded a call of a domain, in any attempt of a history, carried the one version the session still records for it. |
| ReplayResume.StepKeepsFaithful | packages/glyff/src/glyff/_executor.py:34-86 | Every step keeps each completed record true to what its call means, and every frame on the way to its own meaning. |
| ReplayResume.AttemptsKeepTrust | packages/glyff/src/glyff/_executor.py:34-86 | Attempts of one code, interrupted anywhere, keep a store whose completed records are true to it. |
| ReplayResume.HistoriesAreTrue | packages/glyff/src/glyff/_executor.py:34-86 | In every store reachable by attempts of one code, each completed record holds its call's true result and metadata. |
| ReplayResume.TrustedResume | packages/glyff/src/glyff/_executor.py:34-86 | Over any store true to the code, wherever it came from, a session that finishes ends as one never interrupted on an empty store. |
| ReplayResume.ResumeEqualsUninterrupted | packages/glyff/src/glyff/_executor.py:34-86 | A session that finishes after any interruptions at any steps ends exactly as one never interrupted on an empty store. |
| ReplayResume.ResumeFinishes | packages/glyff/src/glyff/_executor.py:34-86 | If the uninterrupted session finishes, one more attempt after any interruptions finishes too, given enough steps. |
| Observations.RaiseReachesCaller | packages/glyff/src/glyff/_executor.py:55-86 | If the code of a call raises, the very next thing its caller observes, and all that changes for it, is that exception; outside every call the session ends with it. The store is left as it was. |
| Observations.ReturnReachesCaller | packages/glyff/src/glyff/_executor.py:55-74 | If it returns a value, its record alone changes, to completed with that value and the staged metadata, and the caller next observes that value, at once or after the handler pruned. |
| Observations.HandlingPrunes | packages/glyff/src/glyff/testing/_pruning.py:26-36 | Handling a completion removes the records strictly below the call and no other. |
| Observations.EnteringAnswersOrStarts | packages/glyff/src/glyff/_executor.py:34-50 | A call found completed answers the result on its record and changes nothing; any other starts with an empty history, over the record found or over a fresh one that holds its arguments alone. |
| Observations.ClaimRefusesOrEnters | packages/glyff/src/glyff/_domain.py:129-136 | A call of a domain recorded at another version raises the mismatch of both versions in its caller and changes nothing; at any other the domain is recorded at the version the process carries and the call goes on. |
| Observations.SetSoFarIsLast | packages/glyff/src/glyff/_context.py:41-50 | An entry is the last value the body set for its key, and what the record held when it started if it set none. |
| Observations.RunsTell | packages/glyff/src/glyff/_context.py:30-77 | In every run, every metadata read of every call under way saw the last value its body had set before, else what its record held when it started, else nothing; outside every call each access raised. |
| Observations.RunsLeave | packages/glyff/src/glyff/_executor.py:52-66 | Every record an attempt completes holds the value its body returned and exactly the entries it had set, over what the record held before. |
| Observations.RunsIdentify | packages/glyff/src/glyff/_domain.py:129-146 | In every run, the identity a call is given has the running call as its parent, and as its ordinal how often that call asked for the same before. |
| Executor.Engine.Ensure | packages/glyff/src/glyff/_domain_claims.py:27-54 | A domain the session has a version for keeps and answers it; any other is recorded at, and answered, the version the process carries. Only what the store said is cached. |
| Executor.Engine.PruneBelow | packages/glyff/src/glyff/testing/_pruning.py:26-36 | Removes exactly the strict descendants, in a transaction of its own; every other record stays as it is. |
| Executor.Engine.Start | packages/glyff/src/glyff/_executor.py:40-47 | Resets the call's scopes, commits a START record unless one is there, and pushes the call. |
| Executor.Engine.Note | packages/glyff/src/glyff/_context.py:30-77 | Inside a call a read answers the entry of the running call as its transaction sees it, and changes nothing; a set leaves that entry at the new value and every other as it was. Outside every call both raise. |
| Executor.SeenIsApplied | packages/glyff/src/glyff/store/_memory.py:65-80 | A read inside a transaction sees exactly what committing it would leave. |
| Executor.Engine.Open | packages/glyff/src/glyff/_executor.py:40-53 | START and the opening of the body's transaction are one step of the machine from the cache check. |
| Executor.Engine.Complete | packages/glyff/src/glyff/_executor.py:60-66 | Result and staged metadata commit together. |
| Executor.Engine.Close | packages/glyff/src/glyff/_executor.py:52-86 | After a value COMPLETE commits and is handled; after an exception or an interruption the body's transaction rolls back. The outcome is the one the body ended with. |
| Executor.Engine.Execute | packages/glyff/src/glyff/_executor.py:34-86 | One call does to the store, and returns, what the machine does in as many steps, and leaves stack and transactions as it found them. It returns the recorded result of a completed call, and otherwise what its body returned or raised. |
| Executor.Engine.Identify | packages/glyff/src/glyff/_domain.py:134-136 | A call is identified under the running call, with the next ordinal of its scope, and no other count moves. |
| Executor.Engine.MakeCall | packages/glyff/src/glyff/_domain.py:129-146 | Claims the domain before numbering the call; a refused claim consumes no ordinal. The answer is the mismatch of both versions, the recorded result of a completed call, or what its body returned or raised. |
| Executor.Engine.RunBody | packages/glyff/src/glyff/_executor.py:52-58 | The code of a frame refines the machine turn by turn, touching only records below its call. |
| Executor.Engine.Resume | packages/glyff/src/glyff/_executor.py:10-86 | A whole attempt leaves the store, and returns the outcome, of a run of the machine, wherever it is interrupted. |
| Migration.AcceptedIsInjective | packages/glyff/src/glyff/migration/_migrator.py:353-369 | In an accepted step no two surviving source records get one identity. |
| Migration.CauseIsNotAccepted | packages/glyff/src/glyff/migration/_migrator.py:401-456 | Whatever a step can be refused for contradicts its being acceptable. |
| Migration.ForeignRecordsKeepTheirOwn | packages/glyff/src/glyff/migration/_migrator.py:277-280 | Of a record outside the migrated domain only the parent chain changes. |
| Conversions.ConvertedMeans | packages/glyff/src/glyff/migration/_migrator.py:338-350 | A record goes on under a name with arguments if and only if: without a rule, both are its own; remapped without a conversion, it has the source's argument names and takes the target's name; remapped with one, its decoded arguments convert to the target's names and canonicalize to exactly those arguments. Under a drop it never does. |
| Conversions.UnfitMeans | packages/glyff/src/glyff/migration/_migrator.py:373-418 | The conversion of a record is refused for exactly one named reason: its recorded names are not the source's, the conversion raised or returned other names, or the result has no canonical form. |
| Conversions.AcceptableMeans | packages/glyff/src/glyff/migration/_migrator.py:321-371 | A session is acceptable if and only if every parent is there, every record reached can go on or be dropped, and no two scopes go on as one; said on the rules alone. |
| Conversions.RebuildGoesOn | packages/glyff/src/glyff/migration/_migrator.py:361-369 | Each record that is not dropped, with itself or a call above it, goes on as exactly one rebuilt record, and each rebuilt record comes from one: under its converted name and arguments, their digest in its identity, below what its parent became, ordinal, status, result and metadata kept. |
| Rebuilding.ChildrenByParent | packages/glyff/src/glyff/migration/_migrator.py:425-438 | Groups the records by parent in input order, or is refused exactly when some parent is missing. |
| Rebuilding.BySequence | packages/glyff/src/glyff/migration/_migrator.py:335-337 | The same records, in ordinal order. |
| Rebuilding.BySequenceIsStable | packages/glyff/src/glyff/migration/_migrator.py:335-337 | The sort is stable: records with one ordinal keep their order. |
| Rebuilding.SiblingsAreTheChildren | packages/glyff/src/glyff/migration/_migrator.py:335-337 | The siblings visited are exactly the parent's children, each once. |
| Rebuilding.Runner.Convert | packages/glyff/src/glyff/migration/_migrator.py:343-350 | The remembered conversion of a source scope is the conversion of each of its records: what its rule makes of its decoded arguments, canonicalized, or the reason the rule cannot be applied. |
| Rebuilding.Runner.Place | packages/glyff/src/glyff/migration/_migrator.py:352-369 | Places a record under its new identity, keeping its ordinal, unless its target scope holds calls of another source scope. |
| Rebuilding.Runner.Visit | packages/glyff/src/glyff/migration/_migrator.py:335-369 | One record is dropped with all below it or given its image, the worklist invariant kept; a refusal has its cause in the session. |
| Rebuilding.Runner.Drain | packages/glyff/src/glyff/migration/_migrator.py:332-371 | The worklist terminates with nothing waiting. |
| Rebuilding.Rebuild | packages/glyff/src/glyff/migration/_migrator.py:321-371 | Succeeds if and only if the session is acceptable; then it yields exactly what the records without a dropped ancestor-or-self go on as under their rules, each once, chain mapped node by node, parents first. A refusal has its cause in the session. |
| MigrationChain.EdgeKeepsAcyclic | packages/glyff/src/glyff/migration/_migrator.py:250-260 | An edge whose target does not lead back to its source keeps the graph acyclic. |
| MigrationChain.ClosesCycle | packages/glyff/src/glyff/migration/_migrator.py:250-260 | The walk terminates, and says whether the new edge's target reaches its source. |
| MigrationChain.ChainDomains | packages/glyff/src/glyff/migration/_models.py:60-66 | The domains of the whole chain. |
| MigrationChain.DomainsInExactly | packages/glyff/src/glyff/migration/_models.py:60-66 | A domain is one of the chain's if and only if it is the call's own or that of a call it was made from. |
| MigrationChain.NewSession | packages/glyff/src/glyff/migration/_models.py:29-57 | A session is constructed if and only if identities are unique and every domain of every chain has a version; a repeated identity is reported first. |
| MigrationChain.RebuildIsSound | packages/glyff/src/glyff/migration/_migrator.py:292-301 | A rebuild keeps digests, results and domain coverage, and is closed under parents. |
| MigrationChain.MigrateStep | packages/glyff/src/glyff/migration/_migrator.py:292-317 | One transition succeeds if and only if the session is at its source version and acceptable, and yields a sound session at the target version that holds exactly what its records go on as under the rules; its identities never collide and no domain loses its version. |
| MigrationChain.NotBackUnderway | packages/glyff/src/glyff/migration/_migrator.py:231-236 | On an acyclic graph the walk never returns to a version it left, so the run-time refusal of a cycle is unreachable. |
| MigrationChain.HaltedNeverArrives | packages/glyff/src/glyff/migration/_migrator.py:231-248 | A migration that stops before the target, at a version without a transition or at records the next transition has a cause to refuse, has no way to the target. |
| MigrationChain.MigrateAlong | packages/glyff/src/glyff/migration/_migrator.py:217-248 | Yields exactly the records the transitions lead to, at the target, every other domain's version kept; or halts at a named stop with its cause, and then no number of transitions leads to the target. It terminates on the versions not yet left. |
| MigrationChain.ArrivedAtTarget | packages/glyff/src/glyff/migration/_migrator.py:217-248 | At the target the session is sound and parent-closed, other domains keep their versions, and its records are those the chain leads to. |
| MigrationChain.NothingElseIsLost | packages/glyff/src/glyff/migration/_migrator.py:321-371 | Record by record over a whole chain: each source record not dropped with itself or a call above it is there exactly once, carried over, and nothing else is there; a foreign record keeps all but its parent chain. |
| Journeys.RebuildIsRebuilt | packages/glyff/src/glyff/migration/_migrator.py:321-371 | Every rebuild of the same records holds the same records, by identity. |
| Journeys.TracedIsCarried | packages/glyff/src/glyff/migration/_migrator.py:366-369 | A record not dropped by any transition keeps domain, ordinal, status, result and metadata over the chain. |
| Journeys.RecordsAreTraced | packages/glyff/src/glyff/migration/_migrator.py:366-369 | Every record after the chain is one of the source's, followed transition by transition. |
| Journeys.TracesAreDistinct | packages/glyff/src/glyff/migration/_migrator.py:353-369 | No two source records become one over a chain. |
| Journeys.TraceGoesOn | packages/glyff/src/glyff/migration/_migrator.py:335-369 | At each transition of a chain, a record followed so far goes on under its converted name and arguments, and is followed no further exactly if it, or a call it was made from, is dropped. |
| MigrationChain.DomainVersionTransition.AddRemap | packages/glyff/src/glyff/migration/_migrator.py:125-149 | Registers a remap, unless the name has a rule or the argument names change without a conversion. |
| MigrationChain.DomainVersionTransition.AddDrop | packages/glyff/src/glyff/migration/_migrator.py:151-154 | Registers a drop, unless the name has a rule. |
| MigrationChain.DomainVersionTransition.Register | packages/glyff/src/glyff/migration/_migrator.py:156-162 | One name has one rule. |
| MigrationChain.DomainMigration.Transition | packages/glyff/src/glyff/migration/_migrator.py:192-215 | Registers an edge if and only if it changes the version, its source has none yet and it closes no cycle; the graph stays acyclic. |
| MigrationChain.DomainMigration.Migrate | packages/glyff/src/glyff/migration/_migrator.py:217-248 | A sound session is migrated if and only if the registered transitions lead from its version to the domain's and each accepts the records it is given; it becomes exactly what they lead to, sound and parent-closed. Otherwise it is refused at a named stop, with the cause. |
| MigrationSource.ReachedStoresAreSources | packages/glyff/src/glyff/_domain.py:129-146 | Every store the engine leaves is a sound, parent-closed session, so a migration can read it. |
| MigrateResume.MovedIsInjective | packages/glyff/src/glyff/migration/_migrator.py:361-367 | Renaming chains node by node confuses no two identities if it confuses no two calls. |
| MigrateResume.SameStep | packages/glyff/src/glyff/_executor.py:34-86 | The renamed code on a corresponding store takes each step the old code takes. |
| MigrateResume.SameCallsReplayed | packages/glyff/src/glyff/_executor.py:34-38 | At every step the renamed code asks for the image of the call the old code asks for, and replays it exactly if the old code would. |
| MigrateResume.AgreesMeans | packages/glyff/src/glyff/migration/_migrator.py:352-369 | The renaming and the plan agree if and only if each call that is not dropped is renamed to the name, and the digest of the arguments, its record goes on under. |
| MigrateResume.RenamedMeansTheSame | packages/glyff/src/glyff/_executor.py:55-55 | Renamed code ends every frame as the old code ends the frame it was. |
| MigrateResume.ImageIsTrue | packages/glyff/src/glyff/migration/_migrator.py:338-350 | A record true to the old code is, carried over, true to the renamed code. |
| MigrateResume.MigrationKeepsTrust | packages/glyff/src/glyff/migration/_migrator.py:321-371 | One transition keeps a store valid, at the new version, and true to the renamed code, whatever it drops. |
| MigrateResume.MigratedRecordsCorrespond | packages/glyff/src/glyff/migration/_migrator.py:321-371 | If nothing is dropped and the renaming agrees with the plan, the rebuilt records correspond to the source records identity by identity. |
| MigrateResume.MigratedStoreCorresponds | packages/glyff/src/glyff/migration/_migrator.py:292-301 | The migrated store corresponds to its source, versions included. |
| MigrateResume.ComposeDisks | packages/glyff/src/glyff/migration/_migrator.py:232-248 | Correspondences compose: a store corresponds across two transitions under the composed renaming. |
| ChainResume.MigratesToDisk | packages/glyff/src/glyff/migration/_migrator.py:217-248 | What a migration returns is, as a store, what its transitions lead to. |
| ChainResume.ChainKeepsTrust | packages/glyff/src/glyff/migration/_migrator.py:217-248 | A whole chain keeps a store true to the code at its end, whatever it drops on the way. |
| ChainResume.ChainCorresponds | packages/glyff/src/glyff/migration/_migrator.py:217-248 | If nothing is dropped on the way, the store after the chain corresponds to its source, for the code at the end of the chain. |
| ChainResume.MigratedCallsReplayed | packages/glyff/src/glyff/_executor.py:34-38 | On what a migration without drops returns, the new code asks at every step for the image of the call the old code would ask for, and replays it exactly if the old code would. |
| ChainResume.MigratedResumeEqualsUninterrupted | packages/glyff/src/glyff/migration/_migrator.py:217-248 | Old code interrupted any number of times, a migration of the session it left, the new code on what the migration returns interrupted any number of times: if it finishes, it ends as if never interrupted on an empty store, drops or not. |
| ChainResume.MigratedResumeFinishes | packages/glyff/src/glyff/migration/_migrator.py:217-248 | And it finishes, given enough steps, if the uninterrupted session does. |
| MigrateResume.NoRulesChangeNothing | packages/glyff/src/glyff/migration/_migrator.py:277-280 | A transition without rules is always accepted and keeps every record as it is. |
| ChainResume.UnchangedCodeTravels | packages/glyff/src/glyff/migration/_migrator.py:277-280 | A transition without rules carries every store of a code to the same code at the new version, so the resume theorems apply to it. |
| Staging.ExecutionStaging.GetCurrent | packages/glyff/src/glyff/store/staging.py:123-129 | The stage a context holds, unless it is closed. |
| Staging.ExecutionStaging.Begin | packages/glyff/src/glyff/store/staging.py:216-219 | Opens a fresh stage in the context and remembers what it replaced. |
| Staging.ExecutionStaging.Save | packages/glyff/src/glyff/store/staging.py:170-174 | Stages into the context's open stage, or is refused outside every transaction. |
| Staging.ExecutionStaging.DeleteMany | packages/glyff/src/glyff/store/_memory.py:117-122 | Stages a deletion for each identity in order, or is refused outside every transaction. |
| Staging.ExecutionStaging.Close | packages/glyff/src/glyff/store/staging.py:134-139 | Restores what the stage replaced and finalizes its batch, or is refused out of order or from another context. |
| Staging.MemoryClient.CommitMutations | packages/glyff/src/glyff/store/_memory_client.py:40-48 | Applies a whole batch: each key it names holds the saved snapshot or is gone, and every other key is as it was. |
| Staging.MemoryTransaction.Commit | packages/glyff/src/glyff/store/_memory.py:36-43 | Commits once; a second close of either kind does nothing; a refused close leaves the transaction uncommitted. |
| Staging.MemoryTransaction.Rollback | packages/glyff/src/glyff/store/_memory.py:45-50 | Discards the batch once; the committed data is untouched. |
| Staging.TransactionScope.Enter | packages/glyff/src/glyff/_context.py:230-234 | Opens a transaction of its own, once; entering again is refused and changes nothing. |
| Staging.TransactionScope.Finish | packages/glyff/src/glyff/_context.py:250-263 | Commits or rolls back once; the scope is closed even if its transaction refuses. |
| Staging.TransactionScope.Exit | packages/glyff/src/glyff/_context.py:236-248 | Commits after a value and rolls back after an exception, unless the transaction was ended inside. |
| StagingRuns.BatchIsFinal | packages/glyff/src/glyff/store/staging.py:123-129 | After a stage is closed, no task, whatever context it holds, changes its batch or sees it as current. |
| StagingRuns.CloseRestores | packages/glyff/src/glyff/store/staging.py:131-139 | A close in the opening context gives back exactly what the context held, whatever any task did in between; the enclosing stage is current again unless closed. |
| StagingRuns.RefusedCloseChangesNothing | packages/glyff/src/glyff/store/staging.py:134-139 | A refused close changes nothing if and only if it was not made from a context that copied the stage while its token was there. |
| StagingRuns.ClosesExactly | packages/glyff/src/glyff/store/staging.py:131-139 | In every run, a stage can be closed exactly in the context that opened it, while it is current there and no copied context has tried to close it. |
| StagingRuns.StuckExactlyAfterForeignClose | packages/glyff/src/glyff/store/staging.py:134-139 | An open stage can no longer be closed if and only if a close was attempted from a context that merely copied it. |
| StagingRuns.StuckForever | packages/glyff/src/glyff/store/staging.py:134-139 | A stage that lost its token stays open in every continuation. |
| StagingRuns.ForeignCloseSticks | packages/glyff/src/glyff/store/staging.py:134-139 | A three-step run that loses a stage's token. |
| StagingRuns.RunsAreOrderly | packages/glyff/src/glyff/store/_memory.py:36-50 | Batches are applied at most once each, only after a commit. |
| StagingRuns.AppliedExactly | packages/glyff/src/glyff/store/_memory.py:36-43 | A batch is applied if and only if its transaction committed and it was handed to the client after that; nothing else is ever applied. |
| StagingRuns.CommittedIsSerial | packages/glyff/src/glyff/store/_memory_client.py:40-48 | Under any interleaving the committed data is what the committed transactions leave running alone, one after another, in the order their batches were applied, writing straight to the store. |
| StagingRuns.RolledBackNeverApplied | packages/glyff/src/glyff/store/_memory.py:45-50 | A rolled-back batch is never applied. |
| StagingRuns.RolledBackLeavesNoTrace | packages/glyff/src/glyff/store/_memory.py:45-50 | Removing from a run everything written in a rolled-back transaction leaves the committed data the same. |
| StagingRuns.ReadsAreIsolated | packages/glyff/src/glyff/store/_memory.py:65-80 | After a write, a task in the writer's stage reads the saved snapshot, or nothing if it was a deletion, and every other key as before; a task in another stage reads what it read before. |
| Pruning.PrunesOneSession | packages/glyff/src/glyff/testing/_pruning.py:26-36 | Deleting a session's strict descendants is the pruning step of the replay machine, and touches no other session. |
| Pruning.EngineStagesAreBatches | packages/glyff/src/glyff/store/_memory_client.py:40-48 | Committing a stage of the engine is committing its batch to the store, which touches no other session. |
| Pruning.Handle | packages/glyff/src/glyff/testing/_pruning.py:26-36 | The handler's one transaction removes exactly the descendants it enumerates, and gives the context back. |
| PercentCodec.FirstOfUtf8 | packages/glyff/src/glyff/store/utils.py:13-23 | The bytes of a character decode to it, whatever follows. |
| PercentCodec.DecodeIsInverse | packages/glyff/src/glyff/store/utils.py:8-23 | A component decodes to a value if and only if it is that value's encoding, over sections 2.1 and 2.3 of RFC 3986. |
| PercentCodec.EncodeAlphabet | packages/glyff/src/glyff/store/utils.py:8-10 | An encoding holds only unreserved characters and percent signs. |
| PercentCodec.Utf8Form | packages/glyff/src/glyff/store/utils.py:8-10 | A character takes as few bytes as hold it, announced by its lead byte and continued by bytes from 0x80 to 0xBF. |
| PercentCodec.EscapesSpell | packages/glyff/src/glyff/store/utils.py:8-10 | Each escaped byte is a percent sign and two digits out of 0-9 and A-F, the high half first. |
| PercentCodec.EncodeSpells | packages/glyff/src/glyff/store/utils.py:8-10 | At every place of a component an unreserved character stands for itself and any other for the escapes of its UTF-8 bytes, independently of its neighbours. |
| PercentCodec.SlashIsEscaped | packages/glyff/src/glyff/tests/units/test_execution_path.py:75-89 | A slash in a component is written `%2F`, which reads back; the lower-case spelling is refused. |
| PathCodec.SequenceIsInverse | packages/glyff/src/glyff/store/utils.py:26-39 | An ordinal is read from its one decimal spelling and from no other. |
| PathCodec.DecimalSpells | packages/glyff/src/glyff/store/utils.py:42-47 | An ordinal is written in decimal digits, the last one counting ones, without leading zeroes. |
| PathCodec.ParseFormatted | packages/glyff/src/glyff/store/utils.py:42-71 | A formatted frame parses to its own parts. |
| PathCodec.FormatParsed | packages/glyff/src/glyff/store/utils.py:50-71 | A frame that parses is the formatting of what it parses to, and its parts are valid. |
| PathCodec.ReadableFrame | packages/glyff/src/glyff/tests/units/test_execution_path.py:44-49 | A frame of unreserved parts reads as they do: domain, colon, name, number sign, ordinal, colon, digest. |
| PathCodec.PathGrows | packages/glyff/src/glyff/store/utils.py:74-86 | A call's path is its caller's path, a slash, and its own frame. |
| PathCodec.ExecutionIdToPath | packages/glyff/src/glyff/store/utils.py:74-86 | The loop yields the frames of the chain, root first, joined by slashes. |
| PathCodec.PathToExecutionId | packages/glyff/src/glyff/store/utils.py:89-108 | The loop yields the identity of the split frames, or fails at the first bad one. |
| PathCodec.PathsAreIdentities | packages/glyff/src/glyff/store/utils.py:74-108 | A path decodes to an identity if and only if the identity is valid and the path is its own: the codec is a bijection. |
| PathCodec.PathsAreDistinct | packages/glyff/src/glyff/store/utils.py:74-86 | Valid identities with one path are equal. |
| PathCodec.DescendantsArePrefixed | packages/glyff/src/glyff/store/utils.py:74-79 | A path continues another past a slash if and only if it is a strict descendant's. |
| PathOrder.OrdersAgree | packages/glyff-sqlite/src/glyff_sqlite/_sqlite_store.py:69-71 | Comparing UTF-8 bytes and comparing code points are one order. |
| PathOrder.RangeIsPrefix | packages/glyff-sqlite/src/glyff_sqlite/_sqlite_client.py:83-89 | The range up to the bound selects exactly the strings that start with the prefix. |
| PathOrder.RangeIsDescendants | packages/glyff-sqlite/src/glyff_sqlite/_sqlite_client.py:394-410 | The range scan under an identity selects exactly its strict descendants. |
| PathOrder.AncestorsComeFirst | packages/glyff-file-store/src/glyff_file_store/_file_migration.py:72-76 | Path order puts every ancestor before its descendants. |
| PathOrder.SortingIsUnique | packages/glyff/src/glyff/store/_memory.py:110-110 | A set of paths has one sorting. |
| PathOrder.Sort | packages/glyff/src/glyff/store/_memory.py:110-110 | An ascending list of exactly the given paths. |
| Enumeration.OverlayBatch | packages/glyff/src/glyff/store/_memory.py:100-108 | Laying the staged mutations over the committed paths gives the session's part of the data the batch would commit. |
| Enumeration.MemoryExecutions | packages/glyff/src/glyff/store/_memory.py:85-115 | Enumerates what a read in the transaction would see, in path order, filtered by prefix and status. |
| Enumeration.EnumeratedExactly | packages/glyff/src/glyff/store/_memory.py:85-115 | An enumeration lists exactly the session's executions with the status that lie under the identity, each once, in path order. |
| Enumeration.ParentsAreListedFirst | packages/glyff/src/glyff/store/_memory.py:110-115 | An ancestor is listed before its descendants. |
| StreamingMerge.SelectRange | packages/glyff-sqlite/src/glyff_sqlite/_sqlite_client.py:394-410 | The rows whose path starts with the prefix, in path order. |
| StreamingMerge.StagedFor | packages/glyff-sqlite/src/glyff_sqlite/_sqlite_store.py:105-116 | The session's staged mutations under the prefix, by path. |
| StreamingMerge.RowsRestore | packages/glyff-sqlite/src/glyff_sqlite/_sqlite_store.py:86-86 | A row and the identity its path spells restore the execution it was written from. |
| StreamingMerge.TakeLeast | packages/glyff-sqlite/src/glyff_sqlite/_sqlite_store.py:72-86 | Taking the least of what both sides have left keeps what was taken ascending and below the rest. |
| StreamingMerge.Merge | packages/glyff-sqlite/src/glyff_sqlite/_sqlite_store.py:72-96 | The two-pointer loop shows exactly the matching visible executions in the sorted order of all visible paths, staged mutations winning over rows. |
| StreamingMerge.Executions | packages/glyff-sqlite/src/glyff_sqlite/_sqlite_store.py:57-96 | For every committed set, staged set, prefix and status filter the streaming merge yields exactly what overlaying, sorting and filtering yields. |
| FileDocument.MutationHolds | packages/glyff-file-store/src/glyff_file_store/_file_client.py:169-182 | One mutation changes what the document holds as it changes committed data. |
| FileDocument.ReplacementHolds | packages/glyff-file-store/src/glyff_file_store/_file_migration.py:39-48 | Replacing a session's part replaces exactly what that session holds. |
| FileDocument.OpenDocument.Commit | packages/glyff-file-store/src/glyff_file_store/_file_client.py:163-184 | The mutations of a batch one by one: the document holds what a commit leaves, and no version changes. |
| FileDocument.OpenDocument.Claim | packages/glyff-file-store/src/glyff_file_store/_file_client.py:214-229 | A domain the session has no version for is recorded at, and answered, the version asked for, and the document needs writing; otherwise nothing changes and the recorded version is the answer. Other sessions and all executions are untouched. |
| FileStore.LocksKept | packages/glyff-file-store/src/glyff_file_store/_file_client.py:82-93 | Every step keeps the task locks and the re-entrant file lock held exactly by the jobs that need them. |
| FileStore.OneWorker | packages/glyff-file-store/src/glyff_file_store/_file_client.py:82-93 | Two working jobs are the same job. |
| FileStore.CurrentKept | packages/glyff-file-store/src/glyff_file_store/_file_client.py:203-210 | What a working job has read, decided and written is still what the document calls for, at every step of every other job. |
| FileStoreRuns.DocumentIsFold | packages/glyff-file-store/src/glyff_file_store/_file_client.py:188-210 | In every run, with crashes and cancellations anywhere, the document is the fold of the operations that took effect, each once. |
| FileStoreRuns.ResultsAreLinear | packages/glyff-file-store/src/glyff_file_store/_file_client.py:188-210 | A call that returned took effect at one point of that order and answered what its operation answers there; one that raised took none. |
| FileStoreEndings.EndsByItsEvents | packages/glyff-file-store/src/glyff_file_store/_file_client.py:188-210 | How every call of every run ends: with the crash if its process crashed under it; else with the cancellation if it was cancelled while under way, even while its worker ran; else it returned exactly if its operation took effect, with the answer it has there, and raised otherwise. |
| FileStoreEndings.FailuresHaveCauses | packages/glyff-file-store/src/glyff_file_store/_file_client.py:203-210 | A call raises only because its worker met a failure of the disk or because its operation refuses the document some prefix of the order leaves. |
| FileStoreProgress.CallCompletes | packages/glyff-file-store/src/glyff_file_store/_file_client.py:188-210 | From every world a run reaches, a waiting call whose locks are free and whose operation accepts the document can return that operation's answer, having taken effect as the next in the order and left both locks free; an opening first sweeps whatever a crash left, and then makes its client ready. |
| FileStoreProgress.SweepsAll | packages/glyff-file-store/src/glyff_file_store/_file_client.py:97-101 | An opening can remove every leftover, one after another, and changes nothing else by it. |
| FileStoreProgress.TemporariesHaveWriters | packages/glyff-file-store/src/glyff_file_store/_file_client.py:97-137 | In every run a temporary is one that a worker is writing, or one whose writer's process crashed: a failed write leaves none. |
| FileStoreProgress.CrashedClientsAreGone | packages/glyff-file-store/src/glyff_file_store/_file_client.py:64-73 | Every call of a client whose process crashed has ended, and it makes no further one. |
| FileStoreRuns.OrderRespectsTime | packages/glyff-file-store/src/glyff_file_store/_file_client.py:188-210 | What took effect before a call was made precedes it. |
| FileStoreRuns.ReadersSeePrefixes | packages/glyff-file-store/src/glyff_file_store/_file_client.py:157-161 | A lock-free reader sees a whole document: the fold of a prefix of the order holding all that took effect before. |
| FileStoreRuns.WorkersAreAlone | packages/glyff/src/glyff/store/workers.py:27-41 | While a worker runs, cancelled or not, its task holds both locks and no other worker runs. |
| FileStoreRuns.SweepsOnlyLeftovers | packages/glyff-file-store/src/glyff_file_store/_file_client.py:97-103 | When a store being opened deletes temporaries no job is writing one, and it reads on only when none is left. |
| FileStoreContents.RunsAreStamped | packages/glyff-file-store/src/glyff_file_store/_file_client.py:97-114 | In every run, until a document is stamped there is none and no client works. |
| FileStoreContents.OpeningChecks | packages/glyff-file-store/src/glyff_file_store/_file_client.py:103-114 | An opening is refused exactly by a document of another format; it stamps a new document with its own and leaves any other as it is. |
| FileStoreContents.OpenedAtFormat | packages/glyff-file-store/src/glyff_file_store/_file_client.py:103-114 | In every run, a store that was opened has, and keeps, the format it was opened at. |
| FileStoreContents.OpeningsLeaveSessions | packages/glyff-file-store/src/glyff_file_store/_file_client.py:97-114 | Opening a store, at any point of any run, erases no session. |
| FileStoreContents.ClaimRecords | packages/glyff-file-store/src/glyff_file_store/_file_client.py:214-229 | A claim leaves the version it answers recorded, and answers the one recorded before it if any. |
| FileStoreContents.OperationsKeepVersions | packages/glyff-file-store/src/glyff_file_store/_file_client.py:188-210 | Only a migration of the session takes a recorded version back. |
| FileStoreContents.ClaimsAgree | packages/glyff-file-store/src/glyff_file_store/_file_client.py:214-229 | In every run, claims of one domain of a session are answered the same version, whichever took effect first, unless the session was migrated in between. |
| FileStoreContents.FirstClaimAnswered | packages/glyff-file-store/src/glyff_file_store/_file_client.py:214-229 | In every run, the first claim of a domain of a session, with no migration of it before, is answered the version it asks for. |
| FileStoreContents.FirstClaimStands | packages/glyff-file-store/src/glyff_file_store/_file_client.py:214-229 | Every later claim of it is answered that first version, until the session is migrated. |
| FileStoreContents.ClaimIsReplayed | packages/glyff-file-store/src/glyff_file_store/_file_client.py:214-229 | A claim on the document records and answers what the claim of the replay machine does on that session, and touches no other. |
| FileStoreContents.MigratingReplaces | packages/glyff-file-store/src/glyff_file_store/_file_migration.py:32-51 | A migration puts exactly what the migrator makes of its session in that session's place, and is refused exactly when the migrator refuses. |
| FileStoreContents.DocumentHoldsCommitted | packages/glyff-file-store/src/glyff_file_store/_file_client.py:163-210 | In every run the document holds exactly the executions of the batches that took effect, each applied whole, one after another. |
| Workers.RunToCompletion | packages/glyff/src/glyff/store/workers.py:19-41 | Waits for the worker through any number of cancellations, then raises the last of them, or gives the worker's own outcome if there was none. |
| FileMigration.Read | packages/glyff-file-store/src/glyff_file_store/_file_migration.py:53-77 | The session as stored, ancestors first; refused exactly without a claimed domain or with an uncovered one. |
| FileMigration.Run | packages/glyff-file-store/src/glyff_file_store/_file_migration.py:32-51 | Replaces exactly one session by what the migrator makes of it; reading it back gives the replacement; it is refused exactly when the reading or the migrator refuses, and then nothing changes. |
| FileMigration.ChainConstructs | packages/glyff-file-store/src/glyff_file_store/_file_migration.py:36-37 | A migrator that follows a domain's transitions turns constructible sessions into constructible ones, so it may be given to `Run`. |

## Left out

- ReplayResume.ResumeEqualsUninterrupted: a body makes its calls one after another; calls gathered in parallel inside one body are modelled only for numbering (`Sequencing`) and staging (`StagingRuns`).
- ReplayResume.HistoriesAreTrue: serializing and deserializing a value is taken to be a round trip, so results are compared as payloads.
- ChainResume.MigratedResumeEqualsUninterrupted: the code at each version of a chain is taken as given; the rules of a plan must do to records what the code's renaming does to calls.
- ChainResume.MigratedCallsReplayed: replaying the same calls is stated for the attempt after the migration; with drops only the outcome is the same.
- Executor.Engine.Note: reading another call's metadata by an explicit identity is not modelled, because what it observes depends on the store.
- Rebuilding.Rebuild: which of several causes is reported depends on the order of the walk and is not stated; the depth-first order of the result is stated only as far as parents before children.
- MigrationChain.MigrateStep: the hash is assumed injective, as the remembered conversions assume of SHA-256.
- StreamingMerge.SelectRange: SQL text, batches of rows and connections; the scan is the set of paths in the range, in order. Committed rows are those of one moment.
- Staging.MemoryTransaction.Commit: as an object, closing the stage and applying the batch are one call; `StagingRuns` separates them, with other tasks, or a cancellation, in between.
- FileStore.CurrentKept: the operating system's part is assumed: an exclusive lock released at a crash, an atomic replace, and complete contents after a flush. The retry on Windows is one step.
- FileMigration.Read: documents are those the store wrote, every execution consistent and at its own path; malformed stored text is not modelled.
- FileStoreContents.DocumentHoldsCommitted: requests are taken to be made of constructed values, a snapshot saved under its own valid identity.
- PercentCodec.DecodeIsInverse: how many replacement characters a malformed byte sequence decodes to is not that of Python; no such string encodes back to itself either way. Strings hold no lone surrogates.
- PathCodec.SequenceIsInverse: Python's `int` also reads digits and spaces outside ASCII, which are refused here without being read; Python's limit on digits is not modelled.
- Two processes resuming one session at the same time; the engine does not exclude it.
- JSON text, float printing and SHA-256; values are trees and a float is its spelling.
- `to_canonical` on Python values other than canonical ones, and the order of `_canonicalize_set`.
- Event handlers other than pruning, handlers that fail, logging, and exception messages.
- Snapshots copying mutable buffers: values are immutable here.
- Aliasing between stages: stages are numbered inside one registry object instead of being objects of their own.
- The migration report, which only pairs the versions read and stored.
- The SQLite commit, claim and migration: one immediate transaction each, as `FileStoreRuns` proves of the harder file protocol.
