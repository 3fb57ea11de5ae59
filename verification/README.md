# A model of the ledger, its replay and four smaller cores

This project models the append-only point ledger of Dragon Kill Party and proves what the ledger is
for: that what it caches is what it logged, that its replay finds every difference between the two,
and that no call, crash or retry breaks either. Check it with `dafny verify dfyconfig.toml`.

The tables are sequences and maps in one value, `Rows.Db`; `Service.Store` is the same tables as
fields that the commit's statements update, any of which may fail. Unique indexes, foreign keys and
checks are conditions on an insert. Every imperative method is tied to a function of the state it
starts from, and the theorems are about those functions.

| files | what they hold |
|---|---|
| Allocate, AllocateProperties | the largest-remainder split over 64- and 128-bit words |
| Rows, Queries, Proposals, Int64, Ordering, Hex, Wrappers, Blanks | rows, reads, orders, integers, trimming |
| Invariants, Acceptance, CommitSpec, Service | the commit rules, what they accept, one commit as a function, one commit as statements |
| CommitRows, Writable | what a written commit leaves in each table, and exactly which commits are written |
| LedgerInvariant, Runs, History, Range, OverflowRuns, FloorRuns | what every run of commits keeps, and runs at the edges of the rules |
| VerifySpec, Verifier, Report, Attestation, Evidence, FoldOrder, Soundness, Standings | the replay, what each finding means, and what a clean report means |
| Damage, EntryDamage, AuditDamage | the exact findings of one damaged batch, entry or audit row |
| Json, HashChain, Binding | the chain's framing, and what a head stands for |
| Restore, Runner, BootOutcomes | crash recovery, the migrate-and-check loop, and what a boot comes to |
| Tokens, Lifting, Markup, Rendering, LiftLimits | directive lifting and what a page renders |
| Reconcile, ReconcileRuns | the permission catalogue over any run of binaries |
| Base64, Cursor, AccessToken | the two fixed-alphabet codecs |

## Where the code and its comments differ

The model follows the code.

- "Every committed ledger verifies clean" needs a range condition (`Runs.EveryRunVerifies`,
  `Range.SmallRunsVerify`): the cache takes one net delta per batch, the replay adds entry by entry.
  `OverflowRuns.AcceptedRunIsNotClean` is a run of two accepted commits that the replay reports.
- internal/ledger/commit.go:713-714 calls the per-account overflow branch unreachable;
  `OverflowRuns.DeltaOverflowIsReached` reaches it.
- internal/ledger/verify.go:366-368 calls the accumulator order-independent. Keys, counts and last
  seqs are; the sum is while no flag is set (`FoldOrder.FoldPermutes`), because past an overflow the
  last good sum is kept. The flag itself depends on the order
  (`FoldOrder.OverflowDependsOnOrder`), unless the amounts of each sign fit in 64 bits by themselves
  or the exact balance does not (`FoldOrder.FlagIgnoresOrderIff`).
- internal/ledger/verify.go:498-501 says a rewritten prev_hash reports only a broken link. The hash
  covers the stored prev_hash: it reports the link alone exactly when the row still hashes to what it
  stores (`Damage.RelinkIsLocal`), which without a collision is never
  (`Binding.RelinkIsTwoFindings`).
- internal/ledger/verify.go:823-824 says an unparseable head is an error; it is a finding
  (`Verifier.Replayer.CheckHead`).
- The replay's cursors start at seq 0 and at the key ("", ""), and no CHECK keeps a seq positive or
  an account id non-empty. A batch at seq 0 or below is not replayed
  (`Soundness.HiddenBatchChangesNoFinding`); when a clean report still speaks for the whole entry
  table is `Soundness.NamedAccountsTableIff` and, with a row at that key,
  `Soundness.CleanCacheIsTheTableIff`.
- internal/migrate/restore.go:118-123 calls re-running a restore safe and idempotent. The re-run
  truncates and rewrites the marker first; a crash inside that write leaves a marker no boot can
  follow (`Restore.ResumeIsNotIdempotent`, `Restore.RecoversIff`).
- internal/mockup/publish.go:310-374 moves a directive without looking at what the child already
  carries, and calls the lift faithful. `LiftLimits.LiftIff` is the exact condition for a block:
  a loop not onto a loop; a condition not onto another condition, nor onto a loop whose names it
  reads, but for texts that coincide; an import only onto a bare element. `LiftLimits.NestedIff`
  says it of two nested blocks.
- `strings.TrimSpace` takes a no-break space for white space, so it stays behind a lifted block and is
  shown unconditionally; blank text may stay behind exactly when it is ASCII white space
  (`LiftLimits.BesideIff`).
- A crash between a migration and the marker is not undone: the next boot opens the database where
  the loop was (`Runner.CrashBeforeMarkerIsKept`).
- `base64.RawURLEncoding` is not strict: the low bits of the last character are not read, so the
  text of an access token and of a cursor's signature is not unique (`AccessToken.TextIsNotUnique`).

## Model

| member | source | states |
|---|---|---|
| `Allocate.Mul64` | internal/ledger/allocate.go:140-158 | The two 64-bit words are the exact 128-bit product. |
| `Allocate.Div64` | internal/ledger/allocate.go:140-158 | Needs the high word below the divisor, where the original would panic; quotient and remainder are then exact. |
| `Allocate.HighWordIsSmall` | internal/ledger/allocate.go:127-158 | That need is always met: for a magnitude of 63 bits and a weight at most the total weight the high word is below the divisor. |
| `Allocate.SumWeights` | internal/ledger/allocate.go:205-223 | Succeeds with the exact sum if and only if no weight is negative and the sum fits; which error comes first is decided by the first offending share. |
| `Allocate.Quotas` | internal/ledger/allocate.go:131-158 | The first loop holds the floor and remainder of every exact quota and the sum of the floors. |
| `Allocate.ShortfallIsSmall` | internal/ledger/allocate.go:160-168 | What the floors leave over is at least zero and below the number of shares. |
| `Allocate.AwardShortfall` | internal/ledger/allocate.go:160-183 | The pass over the sorted candidates gives one unit to exactly the first `shortfall` of them and changes nothing else. |
| `Allocate.Emit` | internal/ledger/allocate.go:185-201 | The rows written are the non-zero candidates, signed, in account order. |
| `Allocate.Allocate` | internal/ledger/allocate.go:100-202 | For every int64 total: the two range errors, the two degenerate answers, the weight errors exactly when they apply, and otherwise a largest-remainder split. |
| `AllocateProperties.AllocationIsExact` | internal/ledger/allocate.go:185-201 | Amounts sum to the total, of either sign, and none is zero. |
| `AllocateProperties.WithinOneUnitOfQuota` | internal/ledger/allocate.go:131-183 | Each part differs from the exact quota P*w/W by less than one unit. |
| `AllocateProperties.WholeQuotaGetsNoExtra` | internal/ledger/allocate.go:160-183 | A share whose quota is whole never receives an extra unit. |
| `AllocateProperties.ZeroWeightGetsNothing` | internal/ledger/allocate.go:160-183 | A share of weight zero receives nothing. |
| `AllocateProperties.HeavierGetsNoLess` | internal/ledger/allocate.go:160-183 | A strictly heavier share never receives a smaller magnitude than a lighter one. |
| `AllocateProperties.ExtraByRank` | internal/ledger/allocate.go:160-183 | With distinct accounts a share has the extra unit if and only if fewer shares than the shortfall rank before it. |
| `AllocateProperties.AllocationIsDeterministic` | internal/ledger/allocate.go:160-199 | With distinct accounts every permutation of the shares gives the same output sequence. |
| `Int64.AddCentipointsIsExact` | internal/ledger/invariant.go:537-544 | The wrap-around sign test refuses exactly the sums outside 64 bits. |
| `Invariants.NetAmount` | internal/ledger/commit.go:479-500 | The net amount, or nothing as soon as a running total overflows. |
| `Invariants.SumPerGroup` | internal/ledger/invariant.go:450-491 | The sum of every group in scope, or nothing exactly when some group overflows on the way. |
| `Invariants.CheckUniversal` | internal/ledger/invariant.go:111-178 | The rules no strategy may waive, first failure first. |
| `Invariants.CheckSumsToZero` | internal/ledger/invariant.go:318-341 | Accepts exactly when every kind in scope sums to zero without leaving 64 bits. |
| `Invariants.CheckNonNegative` | internal/ledger/invariant.go:365-437 | Decides the floor rule at the head the batch builds on, over the accounts in key order; system accounts are exempt. |
| `Invariants.CheckDeclared` | internal/ledger/invariant.go:250-310 | A rule whose scope the batch does not touch, or that nothing can check, is refused. |
| `Invariants.CheckInvariants` | internal/ledger/invariant.go:94-107 | Universal rules before declared ones; the first refusal is the verdict. |
| `Invariants.AcceptedSumsToZero` | internal/ledger/invariant.go:318-341 | An accepted zero-sum rule makes each kind in its scope sum to exactly zero. |
| `Invariants.AcceptedKeepsFloor` | internal/ledger/invariant.go:365-437 | An accepted floor rule keeps every person account it deducts from at or above the floor. |
| `Acceptance.FloorIs` | internal/ledger/invariant.go:365-437 | A floor rule lets a batch through if and only if a floor is declared, no subtotal overflows, and for every account and kind it looks at that is not a system account the balance at the head and the balance after are in range, and what is deducted stops at or above the floor. Refused, it is the rule that is named, unless a balance cannot be read. |
| `Acceptance.DeclaredIs` | internal/ledger/invariant.go:250-341 | The same for every kind of rule: the scope is touched, and then each kind of balance cancels, or the floor is kept; a rule nothing checks accepts no batch. |
| `Acceptance.LinkageIs` | internal/ledger/invariant.go:199-236 | The linkage rule holds if and only if a reversal, and only a reversal, names a batch, and that batch is in the pool. |
| `Acceptance.VerdictIs` | internal/ledger/invariant.go:94-178 | A batch is let through if and only if the six universal rules hold and every declared one accepts it; otherwise the error is the first universal rule that is broken, and failing that the first declared one that refuses. |
| `FloorRuns.AcceptedIsWritten` | internal/ledger/commit.go:372-456 | In a ledger that keeps the invariant, a well-formed batch that every declared rule accepts is written when no balance after it leaves 64 bits. |
| `FloorRuns.CreditsAreWritten` | internal/ledger/invariant.go:404-433 | Under floor rules alone, a batch that moves nobody down is written whatever the balances and the floors, and moves each balance by exactly its net. |
| `FloorRuns.CreditBelowFloorIsWritten` | internal/ledger/invariant.go:404-433 | A member 45.00 in debt is credited 4.50 under a floor of zero, and stands at -40.50. |
| `FloorRuns.DebitBelowFloorIsRefused` | internal/ledger/invariant.go:404-433 | The same member is taken no further down: the floor rule is named and nothing is written. |
| `Service.Store.InsertEntries` | internal/ledger/commit.go:403-415 | All the entries go in, in order, or the first one that cannot stops the batch. |
| `Service.Store.UpsertBalanceSnapshot` | internal/ledger/snapshot.go:38-54 | Amount and count are added to the stored row, the seq and time replaced; it fails when the sum leaves 64 bits. |
| `Service.Store.Deltas` | internal/ledger/commit.go:691-722 | One delta per key, each key once in order of appearance; nothing exactly when some key's subtotal overflows. |
| `Service.Store.UpsertSnapshots` | internal/ledger/commit.go:691-735 | The cache after a batch is one additive upsert per key; overflow of a delta and failure of an upsert are told apart. |
| `Service.Store.Materialise` | internal/ledger/commit.go:479-548 | The rows of the batch as laid out from the request, or nothing when the net amount overflows. |
| `Service.Store.WriteAudit` | internal/ledger/commit.go:595-655 | One audit row of the next seq, linked to the audit head; an unreadable head is an error. |
| `Service.Store.WriteOutboxEvent` | internal/ledger/commit.go:658-678 | One outbox row of the next event seq. |
| `Service.Store.WriteHead` | internal/ledger/commit.go:761-771 | The head is stored as hex under its key, and nothing else changes. |
| `Service.Store.Write` | internal/ledger/commit.go:372-456 | The write phase equals its specification: rules, rows, cache, audit row, event and the two heads, with a failure allowed at any statement. |
| `Service.Store.RunTransaction` | internal/ledger/commit.go:300-368 | The idempotency lookup comes first; a hit returns the first batch and writes nothing. |
| `Service.Store.CommitBatch` | internal/ledger/commit.go:290-332 | The call as a whole is one function of the tables it starts from; every failure leaves them as they were. |
| `CommitSpec.AllOrNothing` | internal/ledger/commit.go:290-332 | A call either leaves the database with the whole batch written or leaves it as it was. |
| `CommitSpec.LinkIsById` | internal/ledger/hashchain.go:113-137 | Whatever order entries come in, the link is over their listing by ascending id. |
| `Writable.WritesIff` | internal/ledger/commit.go:290-456 | With no statement failing of itself a commit is written if and only if the request is complete, nothing stored claims its key, its reference or what it reverses, every rule lets it through, both heads can be read, the schema takes its columns, there is room in 64 bits, and the ids it mints are new. |
| `Writable.OutcomeIs` | internal/ledger/commit.go:290-456 | Otherwise the error is the first that applies of: the rule that refuses, an unreadable head, rows the tables do not take, a subtotal that overflows, a cached balance that would, an unreadable audit head, an id that is not new. |
| `Writable.IncompleteIsRefused` | internal/ledger/commit.go:827-866 | A request without pool, known source, actor kind, batch kind or strategy, or with a blank key, is refused before anything is read, and no other request is called invalid. |
| `Writable.WrittenSentAll` | internal/ledger/commit.go:372-456 | A commit that is written had none of its statements fail. |
| `CommitRows.WrittenBatch` | internal/ledger/commit.go:479-521 | One batch row is appended: every column, the next seq, the link to the stored head, its hash over the entries, and the head moved to it. |
| `CommitRows.WrittenEntries` | internal/ledger/commit.go:523-548 | One row per proposed entry in the order proposed, every column. |
| `CommitRows.WrittenBooks` | internal/ledger/commit.go:595-678 | One audit row and one event, every column with its default, the audit row linked and its head moved, and no other head touched. |
| `CommitRows.WrittenCacheRow` | internal/ledger/snapshot.go:25-54 | The cached row of a key grows by the net and the count of the batch and takes its seq and time; other keys and other pools keep theirs. |
| `CommitRows.ReceiptIs` | internal/ledger/commit.go:372-456 | The receipt is of the rows as stored. |
| `CommitRows.ReplayedReceiptIs` | internal/ledger/commit.go:346-368 | The receipt of a retry is of the batch that carries its key, marked as replayed, and nothing is written. |
| `Hex.HeadRoundTrip` | internal/ledger/hashchain.go:236-254 | A head is read back as the hash it was written from if it is 32 bytes long, and refused otherwise. |
| `Hex.DigitsAreHex` | internal/ledger/hashchain.go:236-254 | Heads are written in lower case and read in either case, and no other character is a digit. |
| `LedgerInvariant.CommitKeepsInv` | internal/ledger/commit.go:372-456 | One call, whatever it is asked and whatever fails, keeps: chains, heads, cache equal to the fold of the log, audit chain, unique ids. |
| `LedgerInvariant.UpsertMirrors` | internal/ledger/snapshot.go:25-54 | One additive upsert per key keeps the cache equal to the sums, counts and last seqs of the longer log. |
| `Runs.RunKeepsInv` | internal/ledger/commit.go:290-332 | So does any run of calls, in any pools, succeeding or failing. |
| `Runs.EveryRunVerifies` | internal/ledger/verify.go:306-330 | The replay of any reachable ledger is clean if and only if its own running totals fit in 64 bits and no row is cached at the first key. |
| `Attestation.CleanMeansAttested` | internal/ledger/verify.go:387-852 | No finding if and only if every pool's seqs are 1..n, every link, hash, count, net amount, column and head is right, the listed cache equals the log in both directions, the audit chain is right, and nothing overflowed. |
| `Attestation.FoldAt` | internal/ledger/verify.go:559-581 | The fold is count, last seq and sum of each key's entries, and its flag is set exactly when a running total overflowed. |
| `Attestation.CacheClean` | internal/ledger/verify.go:589-724 | No cache finding if and only if the listed rows are exactly the log's keys with the log's values and no key overflowed. |
| `Attestation.WalkClean` | internal/ledger/verify.go:473-554 | No finding along the walk if and only if every batch holds its six claims. |
| `Report.ReportedIff` | internal/ledger/verify.go:387-852 | Over any database and for each of the seventeen kinds: the report holds a finding if and only if the tables make it right, at the batch, entry, key, row or head that it names. |
| `FoldOrder.FoldPermutes` | internal/ledger/verify.go:361-368 | Two orders of the same entries fold to the same keys, and to the same accumulators when neither overflows. |
| `FoldOrder.FoldsAgree` | internal/ledger/verify.go:361-368 | Count and last seq of a key never depend on the order; the sum does not either while both flags are unset. |
| `FoldOrder.EveryOrderFitsIff` | internal/ledger/verify.go:565-575 | No order of a key's entries overflows if and only if its positive amounts and its negative amounts, each added alone, fit in 64 bits. |
| `FoldOrder.FlagIgnoresOrderIff` | internal/ledger/verify.go:361-368 | The overflow flag is the same in every order if and only if no order overflows or the exact balance is itself out of range. |
| `FoldOrder.OverflowDependsOnOrder` | internal/ledger/verify.go:570-575 | Three amounts in two orders: one sets the flag and keeps another sum. |
| `Runs.MirrorsPermutes` | internal/ledger/verify.go:361-368 | What a cache mirrors does not depend on the order of the log's entries. |
| `Verifier.Replayer.Find` | internal/ledger/verify.go:346-354 | Every finding is counted; what is retained is a prefix of them up to the cap. |
| `Verifier.Replayer.SumEntries` | internal/ledger/verify.go:857-870 | The exact total, or nothing exactly when a running total overflows. |
| `Verifier.Replayer.CheckBatch` | internal/ledger/verify.go:473-554 | Seq, link, hash against the stored prev_hash, count, net and denormalised columns, in that order. |
| `Verifier.Replayer.FoldEntries` | internal/ledger/verify.go:559-581 | Folding a batch into the accumulators is folding the longer log. |
| `Verifier.Replayer.CheckHead` | internal/ledger/verify.go:815-852 | A head that is missing, wrong or unreadable is one finding. |
| `Verifier.Replayer.CheckSnapshotRow` | internal/ledger/verify.go:670-724 | Three columns against the fold; an orphan or an overflow is reported instead of the amount. |
| `Verifier.Replayer.ComparePages` | internal/ledger/verify.go:589-618 | Paging the cache and deleting what was compared finds what comparing the whole listing finds, and leaves exactly the uncached keys. |
| `Verifier.Replayer.CheckSnapshots` | internal/ledger/verify.go:589-667 | Both directions of the cache comparison, with the number of rows read. |
| `Verifier.Replayer.Pool` | internal/ledger/verify.go:387-454 | The paged walk of a pool finds and reports what the flat walk does, for every page size. |
| `Verifier.Replayer.CheckAuditRow` | internal/ledger/verify.go:780-813 | Seq, link and hash of one audit row. |
| `Verifier.Replayer.AuditChain` | internal/ledger/verify.go:733-777 | The same refinement for the audit log and its head. |
| `Verifier.Replayer.Verify` | internal/ledger/verify.go:306-330 | Findings, their count, the pool reports and the audit report are those of the unpaged walk; the cap bounds only what is kept. Termination is by the rows past the cursor. |
| `Evidence.PoolReportIs` | internal/ledger/verify.go:188-201 | In a ledger that keeps the invariant the report on a pool counts all its batches, all its entries and all its cached rows, and gives the head that is stored. |
| `Evidence.AuditReportIs` | internal/ledger/verify.go:203-208 | The report on the audit log counts all its rows and gives the head that is stored. |
| `Verifier.BatchesAfter` | internal/ledger/verify.go:398-435 | Moving the cursor to a walked row leaves exactly the rows after it. |
| `Verifier.FirstPage` | internal/ledger/verify.go:594-609 | From the first key of all, the listing is every cached key but that one. |
| `History.CommitKeepsHistory` | internal/ledger/balance.go:12-43 | No commit changes a balance as of a seq at or below the head, in any pool. |
| `History.HistoryIsStable` | internal/ledger/balance.go:12-43 | Nor does any run of commits. |
| `History.RetryReturnsFirstBatch` | internal/ledger/commit.go:346-368 | At any later point of any run a valid request reusing the pool and key returns the first batch and changes no table. |
| `History.RunConserves` | internal/ledger/invariant.go:318-341 | If every batch committed to a pool declares that what it moves sums to zero, all balances of every kind sum to zero at every seq. |
| `History.CommitRespectsFloor` | internal/ledger/invariant.go:365-437 | Under a declared floor one commit either does not lower a person's balance or leaves it at or above the floor. |
| `History.RunRespectsFloor` | internal/ledger/invariant.go:365-437 | If every batch committed to a pool declares the floor for the kind, every person's balance is at least min(0, floor) at every seq. |
| `History.RunKeepsLinks` | internal/ledger/invariant.go:180-236 | In every reachable ledger the pointer is set exactly on reversals, points back within the pool to a smaller seq, and no batch is pointed at twice. |
| `History.Origin` | internal/ledger/invariant.go:180-236 | Following reversal pointers ends, at a batch of the same pool that is not a reversal. |
| `Soundness.WalkIsVisible` | internal/ledger/verify.go:387-471 | In a clean ledger a pool's walk is the entry rows that carry the pool and belong to a batch of positive seq, each once. |
| `Soundness.CleanCacheIsTheLog` | internal/ledger/verify.go:589-724 | A clean report means the listed cache equals the sums over those entry rows. |
| `Soundness.NamedAccountsTableIff` | internal/ledger/verify.go:393-435 | With no row cached at the key of two empty strings, as when every account has a name, the cache equals the sums over the whole entry table if and only if every entry of the pool belongs to a batch the replay walks. |
| `Soundness.CleanCacheIsTheTableIff` | internal/ledger/verify.go:393-435 | Whatever is cached at that key: if and only if no entry the replay cannot reach moves another key, and that one row, which the replay cannot list, agrees with the table. |
| `Soundness.HiddenBatchChangesNoFinding` | internal/ledger/verify.go:393-435 | A batch at seq 0 or below, with any entries, changes no finding: the cursor starts at 0 and no CHECK forbids it. |
| `Standings.StandingsFromSnapshot` | internal/ledger/standings.go:58-86 | The top of the cached balances of a kind: as many as the limit allows, each in front of those after it and of everybody not listed, by amount and then by account. |
| `Standings.StandingsFromLedger` | internal/ledger/standings.go:96-125 | The same top of the sums and counts over the log up to a seq, each row stamped with that seq. |
| `Standings.SnapshotIsRanked` | internal/ledger/standings.go:58-86 | For every limit: min(limit, accounts) rows of the kind, or all of them under a negative one; a row has more points than any after it or left out, or as many and the smaller account. |
| `Standings.LedgerIsRanked` | internal/ledger/standings.go:96-125 | The same of the read over the log, whose accounts are those with an entry of the kind up to the seq. |
| `Standings.BalanceIsSum` | internal/ledger/balance.go:12-43 | A balance as of a seq is the sum of the amounts of that pool, account and kind up to it. |
| `Standings.CleanStandingsAgree` | internal/ledger/standings.go:88-125 | After a clean report the two reads agree at the head for every kind and limit. |
| `Standings.RunCacheIsTheTable` | internal/ledger/snapshot.go:25-54 | After any run the cache is the sums over the entry table up to the head, whether or not the replay could add them up. |
| `Standings.RunStandingsAgree` | internal/ledger/standings.go:88-125 | So the two standings reads of any reachable ledger agree at its head. |
| `Range.SmallVolumeFits` | internal/ledger/verify.go:559-581 | If everything moved in a pool, without sign, fits in 64 bits, no running total of the replay can overflow. |
| `Range.SmallRunsVerify` | internal/ledger/verify.go:306-330 | Every reachable ledger of such volume verifies clean, all pool chains and the audit chain. |
| `Range.RunHasUniqueSeqs` | internal/ledger/seq.go:23-43 | Seqs are unique per pool and in the audit log in every reachable ledger. |
| `Range.ReplayRun` | internal/ledger/verify.go:306-330 | Running the paged replay over one counts no finding and reports every pool up to its head, for every page size and cap. |
| `OverflowRuns.PlainWrites` | internal/ledger/commit.go:372-456 | Enough for a commit to be accepted: the proposal rules, room in the deltas and cache, and new ids. |
| `OverflowRuns.AcceptedRunIsNotClean` | internal/ledger/verify.go:559-581 | Two accepted commits after which the replay is not clean: a +1/-1 pair on a full balance, one delta of zero to the cache and an overflow to the fold. |
| `OverflowRuns.DeltaOverflowIsReached` | internal/ledger/commit.go:708-722 | The per-account overflow branch is reachable, and the commit is refused with nothing written. |
| `Damage.RewriteIsLocal` | internal/ledger/verify.go:473-554 | Rewriting other columns of one batch of a clean ledger gives exactly a hash mismatch there, plus the count or net finding when those were rewritten, and nothing anywhere else. |
| `Damage.RehashIsTwoFindings` | internal/ledger/verify.go:473-554 | Rewriting one stored hash gives exactly two findings: the row, and the next link or the head. |
| `Damage.RelinkIsLocal` | internal/ledger/verify.go:498-510 | Rewriting one stored prev_hash of a clean ledger gives exactly the broken link, and the hash mismatch if and only if the row no longer hashes to what it stores; nothing anywhere else. |
| `AuditDamage.AuditRewriteIsLocal` | internal/ledger/verify.go:780-813 | Overwriting one audit row of a clean ledger with any other of its seq: exactly the link when its prev_hash changed, the hash when the row no longer hashes to what it stores, and, when its hash changed, the link of the next row or the head. |
| `AuditDamage.AuditBodyIsOneFinding` | internal/ledger/verify.go:806-811 | Rewriting what a row says gives exactly one hash mismatch, at that row. |
| `AuditDamage.AuditRehashIsTwoFindings` | internal/ledger/verify.go:780-813 | Rewriting a stored hash gives exactly two findings: the row, and the link of the next row or the head. |
| `AuditDamage.AuditRelinkIsLocal` | internal/ledger/verify.go:795-811 | Rewriting a stored prev_hash gives the broken link, and the hash mismatch if and only if the row no longer hashes to what it stores. |
| `Binding.RelinkIsTwoFindings` | internal/ledger/verify.go:498-510 | Under the chain's own framing it is always both, if the two preimages of the one batch do not collide. |
| `EntryDamage.AmendIsLocal` | internal/ledger/verify.go:473-724 | Rewriting columns of one entry of a clean ledger is reported at its batch by the hash, and by the net amount and the denormalised columns when they disagree, at the cached balances of its old and its new key, and nowhere else. |
| `EntryDamage.AmountIsThreeFindings` | internal/ledger/verify.go:473-724 | Rewriting one amount gives exactly three findings: the hash and the net of its batch, and the cached balance of its key, as a wrong amount or as an overflow. |
| `Binding.ChangedAmountIsReported` | internal/ledger/hashchain.go:113-175 | Under the chain's own framing that is always so, if the two contents of the one batch do not collide. |
| `Binding.ChangedColumnIsReported` | internal/ledger/hashchain.go:113-175 | Under the chain's own framing any changed column is such local damage, if the two contents of the one batch do not collide. |
| `Json.BodyDelimits` | internal/ledger/hashchain.go:206-217 | An encoded string ends at its first bare quote: text and remainder are both determined. |
| `Json.ValueDelimits` | internal/ledger/hashchain.go:206-229 | A value is determined by its text, and null is not the empty string. |
| `Json.ObjectDelimits` | internal/ledger/hashchain.go:206-217 | An object with known names ends where its text says and holds the values it was made from. |
| `Json.ArrayDelimits` | internal/ledger/hashchain.go:206-217 | So does an array of such objects. |
| `Json.Utf8Injective` | internal/ledger/hashchain.go:206-217 | The bytes determine the text. |
| `Json.EscapeMeans` | internal/ledger/hashchain.go:206-217 | Every character of a string reads back as itself by the rules of RFC 8259. |
| `Json.EscapeClasses` | internal/ledger/hashchain.go:206-217 | Which characters take a short escape, which a long one, and that no other is escaped. |
| `Json.Utf8Is` | internal/ledger/hashchain.go:206-217 | Each character is its shortest UTF-8 sequence and stands for itself. |
| `HashChain.BatchHash` | internal/ledger/hashchain.go:113-175 | Copy, sort by id, project, feed: the hash of previous hash, batch and entries in id order, whatever order they came in. |
| `HashChain.AuditHash` | internal/ledger/hashchain.go:178-200 | The hash of previous hash and audit row. |
| `HashChain.BatchTextIs` | internal/ledger/hashchain.go:38-69 | What is hashed of a batch: every column but the two of the chain, under its own name and in this order, null for what is missing. |
| `HashChain.EntryTextIs` | internal/ledger/hashchain.go:71-87 | The same of an entry. |
| `HashChain.AuditTextIs` | internal/ledger/hashchain.go:89-101 | The same of an audit row. |
| `HashChain.IdAt32` | internal/ledger/hashchain.go:40-67 | An object whose first field is a 26-character ULID has an id character, not an opening brace, 32 bytes in. |
| `HashChain.BatchPreimageInjective` | internal/ledger/hashchain.go:113-175 | With the previous hash absent or 32 bytes, the concatenation determines all three parts. |
| `HashChain.AuditPreimageInjective` | internal/ledger/hashchain.go:178-200 | The same for audit rows. |
| `Binding.HeadBindsHistory` | internal/ledger/hashchain.go:113-175 | Two clean ledgers with the same head of a pool hold the same batches and the same entries of it, given no collision among what they hash. |
| `Binding.RunHeadsBind` | internal/ledger/hashchain.go:113-175 | So do two ledgers that runs of commits built over the real chain, within the range that verifies. |
| `Binding.AuditHeadBindsLog` | internal/ledger/hashchain.go:178-200 | Two clean ledgers with the same audit head hold the same audit rows. |
| `Restore.Files.WriteMarker` | internal/migrate/restore.go:65-70 | A complete marker, or what an interrupted truncate-and-write leaves. |
| `Restore.Files.Decompress` | internal/migrate/snapshot.go:169-204 | The image of a whole snapshot, or a torn scratch file. |
| `Restore.Files.Restore` | internal/migrate/restore.go:65-106 | The steps in their order, stopping at the first that fails or dies. |
| `Restore.Files.ResumeRestore` | internal/migrate/restore.go:124-155 | Nothing to do without a marker; an unreadable or blank one refuses the boot; otherwise the restore it names. |
| `Restore.RestoreOwedOrDone` | internal/migrate/restore.go:65-106 | Once the marker is down a restore either completes or leaves the same restore owed, wherever it stops. |
| `Restore.CompletesIff` | internal/migrate/restore.go:65-106 | A restore completes if and only if every step goes through and the snapshot unpacks to a sound image, and then the database is that image with nothing beside it. |
| `Restore.StoppedLeaves` | internal/migrate/restore.go:84-103 | Until the rename the database file is the old one; a failed unpacking leaves nothing or a torn scratch file, and a snapshot that does not verify or move is left for inspection. |
| `Restore.ResumesIff` | internal/migrate/restore.go:124-155 | A boot goes on to open the database if and only if there is no marker, or the restore it names completes. |
| `Restore.RecoveryIsSafe` | internal/migrate/restore.go:108-155 | Over any number of boots, crashes and errors: the first boot that opens the database opens the snapshot, with no WAL and no marker. |
| `Restore.RecoversIff` | internal/migrate/restore.go:118-155 | A later fault-free boot completes the restore if and only if no boot was interrupted while rewriting the marker. |
| `Restore.ResumeIsNotIdempotent` | internal/migrate/restore.go:118-155 | One crash inside that rewrite leaves a torn marker, and then no boot ever opens the database by itself. |
| `Restore.RestoreOutcomes` | internal/migrate/runner.go:503-513 | A failed upgrade's restore is done, owed, torn, or never began and changed nothing. |
| `Runner.NotIn` | internal/migrate/runner.go:430-445 | What of the one list does not appear in the other, in order. |
| `Runner.Booter.Snapshot` | internal/migrate/snapshot.go:68-162 | Checkpoint, copy, compress to a file that must not exist; an error may leave a torn archive. |
| `Runner.Booter.ApplyPending` | internal/migrate/runner.go:274-368 | One migration at a time with every check after it, each compared with what the one before left. |
| `Runner.Booter.Failed` | internal/migrate/runner.go:476-513 | Close, then restore; Restored is true exactly when the restore completed. |
| `Runner.Booter.RecordVersion` | internal/migrate/runner.go:532-544 | The version rows are written and the store closed; an error after them is still an error. |
| `Runner.Booter.Migrate` | internal/migrate/runner.go:200-379 | The boot sequence equals its specification, and opening requires that no marker is present. |
| `Runner.OpensUnmarked` | internal/migrate/runner.go:200-211 | The database is never opened while a restore is pending. |
| `Runner.ClimbIsLadder` | internal/migrate/runner.go:274-368 | The loop ends well only on a sequence of migrations, each applied and passing every check, that leaves nothing pending. |
| `Runner.LadderKeepsGuard` | internal/migrate/runner.go:318-365 | Along it no ledger table is dropped and no trigger is lost. |
| `Runner.NoMixedState` | internal/migrate/runner.go:200-379 | Short of a crash or an unfinished restore, the schema is as before or fully migrated and checked; a restored failure leaves exactly the database it found; a boot refused for a blank or unreadable marker changes nothing. |
| `BootOutcomes.ServesIff` | internal/migrate/runner.go:200-379 | A boot serves if and only if it opens a database it can read and that is not ahead, and then: with nothing pending the version is recorded; with something pending it may not migrate, or all is prepared, every migration applies and passes, and the version is recorded. |
| `BootOutcomes.PendingAndAllowed` | internal/migrate/runner.go:269-379 | With migrations pending and allowed: unprepared, it is refused with the database untouched; if every one applies and passes, all are applied over a snapshot of what was there; and if one does not, the boot does not serve. |
| `BootOutcomes.PendingButForbidden` | internal/migrate/runner.go:261-267 | With migrations pending and not allowed the boot serves, changes nothing and takes no snapshot. |
| `BootOutcomes.FailedUpgradeIs` | internal/migrate/runner.go:274-365 | When a migration fails or fails a check, the boot says that it restored exactly when every step of the restore went through and the snapshot is sound, and then the database is the one it found. |
| `BootOutcomes.UnpreparedLeaves` | internal/migrate/snapshot.go:68-162 | What such a boot leaves under the snapshot path: what was there, a torn archive, or the snapshot. |
| `BootOutcomes.NothingPending` | internal/migrate/runner.go:257-259 | With nothing pending it writes the version rows, and serves exactly when that works. |
| `BootOutcomes.RefusesWhatItMustNotTouch` | internal/migrate/runner.go:229-241 | A database that cannot be read, or that a newer binary wrote, is refused and left alone. |
| `Runner.CrashBeforeMarkerIsKept` | internal/migrate/runner.go:476-513 | Dying between a migration and the marker leaves the database where the loop was, and the next boot opens it as it stands. |
| `Tokens.EmitAll` | internal/mockup/token.go:205-215 | The tokens that were not dropped, in order. |
| `Tokens.GetIs` | internal/mockup/token.go:37-52 | Of several attributes of one name the first is the value, and of none it is the empty text. |
| `Lifting.MatchBlock` | internal/mockup/publish.go:242-262 | The end tag of the block, or none when it is missing or of another name. |
| `Lifting.InTableContext` | internal/mockup/publish.go:270-306 | Per token, whether an open element is a table element, with tags popped to the nearest of their name. |
| `Lifting.TopLevelChildren` | internal/mockup/publish.go:407-441 | The immediate element children and whether loose text sits between them, skipping dropped tokens. |
| `Lifting.LiftOnto` | internal/mockup/publish.go:310-398 | Drops the two tags and gives the only child the attributes, exactly when there is one element child, no loose text, the child is no block, and an import is in a table. |
| `Lifting.LiftDirectives` | internal/mockup/publish.go:202-238 | In place and innermost first, what is emitted is the lifted token list, and the count is of the blocks lifted; tokens outside the range are untouched. |
| `Lifting.CountIsBlocksGone` | internal/mockup/publish.go:202-238 | The count that is returned is the number of blocks that are gone from the tokens. |
| `Lifting.AssertNoDirectiveInTable` | internal/mockup/publish.go:451-488 | Passes if and only if no remaining directive opens inside a table. |
| `Markup.BlockEndOfTree` | internal/mockup/publish.go:242-262 | In a well-nested page a block's end is its own, whatever it holds. |
| `Markup.CanLiftIs` | internal/mockup/publish.go:310-345 | The token scan decides as the tree does, and points at the same child. |
| `Markup.FlagsOfForest` | internal/mockup/publish.go:270-306 | In a well-nested page a token is in table context exactly when some ancestor is a table element. |
| `Markup.LiftTokensForest` | internal/mockup/publish.go:202-238 | Lifting the tokens of a tree gives the tokens of the lifted tree. |
| `Markup.ClearOfForest` | internal/mockup/publish.go:451-488 | On a well-nested page the check passes exactly when no directive element has a table ancestor. |
| `Markup.ClearOfEmitted` | internal/mockup/publish.go:451-488 | It decides on the tokens with the dropped ones skipped as it would on what is emitted. |
| `Markup.LiftPage` | internal/mockup/publish.go:44-59 | Flag, lift in place, check and emit: the output is the tokens of the lifted tree, well nested, or nothing exactly when a directive of that tree is left in a table. |
| `Rendering.LiftAllRenders` | internal/mockup/publish.go:193-374 | A page each of whose lifts is exact renders lifted as its source up to ASCII white space, in every scope and under every runtime. |
| `Rendering.OntoAgrees` | docs/design/mockups/harness/mockup-runtime.js:113-182 | An exact lift: the attribute form of a block on its only child renders as the element form around it. |
| `Rendering.ImportProps` | internal/mockup/publish.go:376-398 | The props of a lifted import are those of the element, hints and the module path left out. |
| `Rendering.ConditionShows` | docs/design/mockups/harness/mockup-runtime.js:113-182 | A condition shows its children unless it resolves to zero or to a falsy scalar. |
| `Rendering.PropsAre` | docs/design/mockups/harness/mockup-runtime.js:183-194 | An import hands its component every attribute but the two it reads itself and the hints. |
| `LiftLimits.LiftIff` | internal/mockup/publish.go:310-374 | A block whose inner lifts are exact means the same lifted up to ASCII white space, under every runtime with the same names in its texts and in every scope, if and only if its own lift is exact. |
| `LiftLimits.OntoIff` | docs/design/mockups/harness/mockup-runtime.js:113-182 | The same of one block and one child, whatever the child has collected. |
| `LiftLimits.NestedIff` | internal/mockup/publish.go:346-374 | Two nested blocks around a bare element: which pairs can both be lifted onto it, and which change what is rendered. |
| `LiftLimits.BesideIff` | internal/mockup/publish.go:323-345 | Up to ASCII white space, a blank text beside the only child may stay behind a lifted block if and only if it is ASCII white space. |
| `LiftLimits.NoBreakSpace` | internal/mockup/publish.go:418-421 | A no-break space is blank to Go and is not ASCII white space. |
| `LiftLimits.MaskedLift` | internal/mockup/publish.go:310-374 | Of a whole page the condition is not necessary: an inexact lift below the same condition is never seen. |
| `Reconcile.AuthStore.UpsertCatalogue` | internal/authz/reconcile.go:264-294 | Writes only what is absent, stale or orphaned, counts each kind, and leaves every shipped key with the shipped columns, live, and every other row as it was. |
| `Reconcile.AuthStore.SeedBuiltinRoles` | internal/authz/reconcile.go:187-236 | Inserts exactly the built-in roles whose key no row had, with their grants. |
| `Reconcile.AuthStore.OrphanRetired` | internal/authz/reconcile.go:301-338 | Stamps the rows no longer shipped, keeps stamps already there, and lists them sorted. |
| `Reconcile.AuthStore.RequireKeys` | internal/authz/reconcile.go:350-375 | Names every required key that does not resolve to a live row. |
| `Reconcile.AuthStore.Reconcile` | internal/authz/reconcile.go:113-165 | One transaction: the tables it leaves and the report it returns, with any failure rolled back whole. |
| `ReconcileRuns.BootProjects` | internal/authz/reconcile.go:113-165 | After a boot each shipped key is live with the shipped columns, booleans as 1 and 0; the others keep their columns and are stamped; the built-in roles that were missing are inserted with exactly their grants, the others keep their row and exactly theirs; and every grant resolves. |
| `ReconcileRuns.ReportSays` | internal/authz/reconcile.go:113-165 | The report counts the permissions without a row, with a live row that differs and with a stamped one, and names the roles seeded with the number of their grants. |
| `ReconcileRuns.BootSentAll` | internal/authz/reconcile.go:113-165 | A boot goes through only when every statement it sends does. |
| `ReconcileRuns.MissingAreNamed` | internal/authz/reconcile.go:350-375 | When required keys are not shipped the boot names all of them in the order asked, and changes nothing. |
| `ReconcileRuns.BootsIff` | internal/authz/reconcile.go:113-165 | With a sound store a boot goes through if and only if the roles it has to seed fit the tables, the catalogue and each other, and every required key is shipped. |
| `ReconcileRuns.SeededIff` | internal/authz/reconcile.go:187-236 | Seeding succeeds exactly when each missing role has a free id and name, is apart from the other missing ones, and names no permission twice or unknown; and then it adds exactly those rows. |
| `ReconcileRuns.SecondBootChangesNothing` | internal/authz/reconcile.go:256-294 | Booting the same binary again changes no row and reports no change. |
| `ReconcileRuns.RunKeepsRows` | internal/authz/reconcile.go:89-96 | Over any run of binaries and role edits no permission row is lost and every grant references a row. |
| `ReconcileRuns.StampIsFirstAbsence` | internal/authz/reconcile.go:296-338 | Over any run a row is live while the last boot shipped its key, and otherwise carries the time of the first boot of its current absence. |
| `Base64.RoundTrip` | internal/core/cursor.go:140-142 | Decoding what was encoded returns the bytes. |
| `Base64.QuadsDetermine` | internal/core/cursor.go:140-142 | Texts of one length that decode alike differ in the last character at most. |
| `Base64.DigitsAreTheAlphabet` | internal/core/cursor.go:140-142 | The digits are the alphabet of table 2 of RFC 4648. |
| `Cursor.RoundTripIff` | internal/core/cursor.go:165-293 | Decoding an encoded cursor for the same class and filter returns it if and only if the key has no dot and the version is current or unset. |
| `Cursor.PresentedElsewhere` | internal/core/cursor.go:213-293 | What a minted token comes to for any class and any filter: another class is refused as no cursor whatever its filter, and only its own class learns that the filter is another. |
| `Cursor.DecodeIs` | internal/core/cursor.go:213-293 | What any text at all decodes to: the filter error and the cursor exactly when its MAC verifies and its body is a payload of this version, for the key in the clear and this class. |
| `Cursor.TokenIs` | internal/core/cursor.go:165-200 | A token is the key in the clear, the payload, and the MAC over the key, a NUL and the payload. |
| `Cursor.TokensSortAsKeys` | internal/core/cursor.go:153-160 | For keys of one length tokens sort as their keys do. |
| `Cursor.AcceptedWasSigned` | internal/core/cursor.go:213-307 | If no presented token carries a MAC of bytes that were never signed, an accepted token's key and body are a pair that was signed: no byte can move between them. |
| `Cursor.AcceptedWasMinted` | internal/core/cursor.go:165-293 | What it decodes to is then a cursor that was minted, for this class and filter. |
| `Cursor.HonestTokensAreNoForgery` | internal/core/cursor.go:165-211 | For every codec: presenting what was minted, and texts whose MAC does not verify, meets that hypothesis. |
| `AccessToken.MintedParses` | internal/auth/token.go:68-143 | A minted token is 60 characters and parses back to its prefix and secret, underscores or not. |
| `AccessToken.MintedCanHoldUnderscores` | internal/auth/token.go:94-100 | Underscores do occur in a minted prefix. |
| `AccessToken.AcceptedIffShaped` | internal/auth/token.go:109-143 | Accepted texts are exactly scheme, eight digits, separator and forty-three digits of the alphabet. |
| `AccessToken.SameTokenSameText` | internal/auth/token.go:109-143 | Two accepted texts with the same parts agree in all but the last character. |
| `AccessToken.TextIsNotUnique` | internal/auth/token.go:109-143 | That last character can differ: its two low bits are not read. |

## Assumptions stated in the theorems

- Hash functions are parameters. Nothing says they are injective: `Binding` and `Damage` ask for no
  collision among the preimages that occur, and the 32-byte length is all the other theorems use.
- Batch and audit ids are 26 characters of Crockford's base 32 where the framing needs it. Strings
  are Unicode text; the JSON encoder is not injective on invalid UTF-8.
- `UniqueSeqs` is ux_batch_seq and ux_audit_seq; `Schema` is the batch primary key and the foreign
  keys of batches and entries; `DistinctBy(IdOf, ...)` is the batch primary key alone.
- `Honest` says of the migrator that a successful apply removes the first pending migration and that
  the two version rows are no part of the schema.
- `Local` says of the page runtime that a binding resolves from the names it reads. `AllAuthored` says
  of a source page that nobody wrote the attributes lifting makes: data-sc-for, data-sc-as,
  data-sc-if, data-sc-import and data-sc-prop-*.
- `NoForgery` says that no token among those presented carries a MAC of bytes that were never signed;
  any codec meets it on the tokens it minted (`Cursor.HonestTokensAreNoForgery`).

## Left out

- Seqs, event numbers and times are unbounded integers; running out of int64 is not modelled.
- SQLite's own arithmetic: an additive upsert that overflows fails as a statement, and a `sum()` that
  overflows in a balance or standings read is an exact sum here, where SQLite raises an error.
- Read errors of the replay, the standings and the balances, progress callbacks, log lines and the
  text of findings and errors.
- Failures to mint an id and guild time zones: ids, times and the day come from the environment of a
  call. dkp_meta's own updated_at column is not part of the model.
- CurrentBalance is a balance at the head; it adds no logic of its own.
- Damage.RewriteIsLocal: id, pool_id and seq are not among the columns rewritten: they say which row
  it is, and the original makes no promise for them.
- EntryDamage.AmendIsLocal: nor are id and batch_id of an entry, for the same reason.
- Restore: a crash is the process dying. Steps reach the disk in order; the marker and the rename are
  not flushed by the original, and a power failure that reorders them is not modelled.
- Runner.NoMixedState: it speaks of boots that were not killed. A kill before the marker is down is
  `Runner.CrashBeforeMarkerIsKept`; within one migration it is a transaction of goose and SQLite.
- Runner: an image is the logical content of a database file; VACUUM INTO and zstd are taken to keep
  it.
- Readiness, the status endpoint and the warning about a database that arrives degraded.
- Lifting.LiftDirectives: starts from tokens of which no block tag has been dropped, as
  rewriteRuntimeRefs leaves them; that step, the tokenizer, the tree builder and the byte splice that
  adds attributes to a tag's source text are not modelled.
- Markup.LiftPage: the runtime references before it, the banner after it and the second parse of the
  finished page are not part of the contract. An element written `<x/>` is a leaf, as the scans of
  publish.go take it; an HTML parser would leave a non-void one open.
- Rendering.LiftAllRenders: of a whole page its condition is sufficient, and exact for each block
  (`LiftLimits.LiftIff`); that it is not necessary for a page is `LiftLimits.MaskedLift`. ASCII white
  space is not part of what a page means, though between inline content it shows as one space; event handlers, interpolation and
  components are parameters, and a helmet renders to nothing.
- Reconcile: the permission label column is called caption; role names, descriptions and sort orders
  that no rule reads are left out. Role edits replace roles and grants within the foreign keys.
- Cursor.RoundTripIff: the JSON of the payload is a parameter that is assumed to round-trip.
- Key generation, peppers and the hash of a token's secret; bearer header parsing; filter
  fingerprints.
- The HTTP layer, commands, authorization checks, sessions and the strategies that make proposals.
