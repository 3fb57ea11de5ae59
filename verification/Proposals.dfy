/** What a strategy proposes and a request adds to it (internal/strategy/proposal.go, commit.go). */
module Proposals {
  import opened Wrappers
  import opened Int64
  import opened Rows

  datatype InvariantKind = SumZero | NonNegative | LargestRemainderSumsToDebit
                         | Conserved | MonotoneNonDecreasing | Permutation | RatioPreserved
                         | Unknown(name: string)

  /** A declared constraint. An empty `balanceKind` means every kind the batch touches. */
  datatype Invariant = Invariant(kind: InvariantKind, balanceKind: string, floor: Option<int64>)

  datatype EntryProposal = EntryProposal(
    account: string, character: Option<string>, kind: string, amount: int64,
    item: Option<string>, itemAward: Option<string>, raid: Option<string>, tick: Option<string>,
    metadata: string)

  datatype BatchProposal = BatchProposal(
    kind: string, strategyId: string, strategyVersion: string, configSnapshot: string,
    rngSeed: Option<int>, reason: string, reverses: Option<string>, effectiveAt: int,
    entries: seq<EntryProposal>, invariants: seq<Invariant>)

  datatype Actor = Actor(kind: string, displayName: string, user: Option<string>, token: Option<string>)

  datatype CommitRequest = CommitRequest(
    pool: string, proposal: BatchProposal, source: string, sourceRef: Option<string>,
    idempotencyKey: Option<string>, actor: Actor, action: string, eventType: string, topic: string)

  const KIND_REVERSAL: string := "reversal"

  predicate IsBatchKind(s: string) {
    s in {"attendance", "award", "adjustment", "decay", "cap", "start_points", "zero_sum_credit",
          "reversal", "correction", "re_attribution", "migration", "import", "seed", "write_off"}
  }

  predicate IsBatchSource(s: string) {
    s in {"web", "api", "discord", "parser", "import", "system"}
  }

  predicate IsActorKind(s: string) {
    s in {"user", "service_account", "system", "boot", "import", "anonymous"}
  }

  function ProposalMoves(es: seq<EntryProposal>): (r: seq<Move>)
    ensures |r| == |es|
    ensures forall i :: 0 <= i < |es| ==> r[i] == Move(SnapKey(es[i].account, es[i].kind), es[i].amount)
  {
    seq(|es|, i requires 0 <= i < |es| => Move(SnapKey(es[i].account, es[i].kind), es[i].amount))
  }

  /** The rule that refused a batch, or why the commit could not be decided. */
  datatype Rule = BatchNonEmpty | AmountsNonZero | NoAmountOverflow | SeqMonotonic | ReversalLinkage
                | EntriesReferenceLiveAccounts | Declared(kind: InvariantKind)

  datatype CommitError = InvalidRequest | Violation(rule: Rule) | DeltaOverflow | BadHead | StoreFailure
}
