/** The progress of a bridge transfer as the host records it. */
module BridgeProgress {
  import opened Wrappers

  datatype Progress =
    | SOURCE_PENDING
    | SOURCE_FAILED
    | AWAITING_ATTESTATION
    | READY_TO_MINT
    | MINT_PENDING
    | MINT_AND_SUPPLY_PENDING
    | MINTED
    | SUPPLY_PENDING
    | LENT
    | DESTINATION_RECOVERY

  function Transitions(p: Progress): set<Progress> {
    match p
    case SOURCE_PENDING => {SOURCE_FAILED, AWAITING_ATTESTATION}
    case SOURCE_FAILED => {}
    case AWAITING_ATTESTATION => {READY_TO_MINT, DESTINATION_RECOVERY}
    case READY_TO_MINT => {MINT_PENDING, MINT_AND_SUPPLY_PENDING, DESTINATION_RECOVERY}
    case MINT_PENDING => {MINTED, DESTINATION_RECOVERY}
    case MINT_AND_SUPPLY_PENDING => {LENT, DESTINATION_RECOVERY}
    case MINTED => {SUPPLY_PENDING, DESTINATION_RECOVERY}
    case SUPPLY_PENDING => {LENT, DESTINATION_RECOVERY}
    case LENT => {}
    case DESTINATION_RECOVERY => {READY_TO_MINT, MINTED}
  }

  /** The next state, or nothing for a transition the table does not list. */
  function Advance(current: Progress, next: Progress): Option<Progress> {
    if next in Transitions(current) then Some(next) else None
  }

  /** Advancing through the observations one by one, none of them refused. */
  predicate Accepted(start: Progress, observed: seq<Progress>)
    decreases |observed|
  {
    observed == [] || (Advance(start, observed[0]).Some? && Accepted(observed[0], observed[1..]))
  }

  function Last(start: Progress, observed: seq<Progress>): Progress {
    if observed == [] then start else observed[|observed| - 1]
  }

  predicate OnSource(p: Progress) {
    p == SOURCE_PENDING || p == SOURCE_FAILED || p == AWAITING_ATTESTATION
  }

  /** Once a transfer has left the source states, no run brings it back to one. */
  lemma {:induction false} NeverBackToSource(start: Progress, observed: seq<Progress>)
    requires !OnSource(start) && Accepted(start, observed)
    ensures forall i :: 0 <= i < |observed| ==> !OnSource(observed[i])
    decreases |observed|
  {
    if observed != [] {
      assert observed[0] in Transitions(start);
      NeverBackToSource(observed[0], observed[1..]);
      assert observed == [observed[0]] + observed[1..];
    }
  }

  /** Exactly which state each one is entered from; SOURCE_PENDING is where a transfer starts, and is never entered. */
  lemma EnteredFromExactly(p: Progress, next: Progress)
    ensures Advance(p, next).Some? ==> Advance(p, next).value == next
    ensures Advance(p, next).Some? <==>
      match next
      case SOURCE_PENDING => false
      case SOURCE_FAILED => p == SOURCE_PENDING
      case AWAITING_ATTESTATION => p == SOURCE_PENDING
      case READY_TO_MINT => p == AWAITING_ATTESTATION || p == DESTINATION_RECOVERY
      case MINT_PENDING => p == READY_TO_MINT
      case MINT_AND_SUPPLY_PENDING => p == READY_TO_MINT
      case MINTED => p == MINT_PENDING || p == DESTINATION_RECOVERY
      case SUPPLY_PENDING => p == MINTED
      case LENT => p == MINT_AND_SUPPLY_PENDING || p == SUPPLY_PENDING
      case DESTINATION_RECOVERY => p !in {SOURCE_PENDING, SOURCE_FAILED, LENT, DESTINATION_RECOVERY}
  {
  }

  function ToLent(p: Progress): (r: seq<Progress>) {
    match p
    case SOURCE_PENDING => [AWAITING_ATTESTATION, READY_TO_MINT, MINT_AND_SUPPLY_PENDING, LENT]
    case AWAITING_ATTESTATION => [READY_TO_MINT, MINT_AND_SUPPLY_PENDING, LENT]
    case READY_TO_MINT => [MINT_AND_SUPPLY_PENDING, LENT]
    case MINT_PENDING => [MINTED, SUPPLY_PENDING, LENT]
    case MINT_AND_SUPPLY_PENDING => [LENT]
    case MINTED => [SUPPLY_PENDING, LENT]
    case SUPPLY_PENDING => [LENT]
    case DESTINATION_RECOVERY => [MINTED, SUPPLY_PENDING, LENT]
    case _ => []
  }

  predicate CanEndAt(start: Progress, end: Progress, observed: seq<Progress>) {
    Accepted(start, observed) && Last(start, observed) == end
  }

  lemma FailureIsFinal(observed: seq<Progress>)
    requires Accepted(SOURCE_FAILED, observed)
    ensures observed == []
  {
  }

  lemma StepsToLent(start: Progress)
    requires start != SOURCE_FAILED
    ensures CanEndAt(start, LENT, ToLent(start))
  {
    var o := ToLent(start);
    assert |o| <= 4;
    if 1 < |o| {
      assert Accepted(o[0], o[1..]) by {
        if 2 < |o| {
          assert Accepted(o[1], o[1..][1..]) by {
            if 3 < |o| {
              assert o[1..][1..][1..] == [o[3]];
            }
          }
        }
      }
    }
  }

  /** A failed source is the only state from which the transfer can no longer end up lent. */
  lemma LentStaysReachable(start: Progress)
    ensures (exists observed :: CanEndAt(start, LENT, observed)) <==> start != SOURCE_FAILED
  {
    if start == SOURCE_FAILED {
      forall observed ensures !CanEndAt(start, LENT, observed) {
        if Accepted(start, observed) {
          FailureIsFinal(observed);
        }
      }
    } else {
      StepsToLent(start);
    }
  }

  /** A run can stop for good exactly at LENT and at SOURCE_FAILED. */
  lemma TerminalExactly(p: Progress)
    ensures (forall next :: Advance(p, next).None?) <==> p == LENT || p == SOURCE_FAILED
  {
    if p != LENT && p != SOURCE_FAILED {
      var next := if p == SOURCE_PENDING then SOURCE_FAILED
                  else if p == DESTINATION_RECOVERY then MINTED else DESTINATION_RECOVERY;
      assert Advance(p, next).Some?;
    }
  }

  function Rank(p: Progress): nat {
    match p
    case SOURCE_PENDING => 0
    case AWAITING_ATTESTATION => 1
    case READY_TO_MINT => 2
    case MINT_PENDING => 3
    case MINT_AND_SUPPLY_PENDING => 3
    case MINTED => 4
    case SUPPLY_PENDING => 5
    case DESTINATION_RECOVERY => 1
    case _ => 6
  }

  /** Without another recovery a run is over after a bounded number of steps: it cannot go round. */
  lemma BoundedWithoutRecovery(start: Progress, observed: seq<Progress>)
    requires Accepted(start, observed) && DESTINATION_RECOVERY !in observed
    ensures |observed| <= 6 - Rank(start)
    ensures forall i :: 0 <= i < |observed| ==> observed[i] != start
  {
    ClimbsWithoutRecovery(start, observed);
    forall i | 0 <= i < |observed| ensures observed[i] != start {
      assert Rank(start) < Rank(observed[i]);
    }
  }

  lemma {:induction false} ClimbsWithoutRecovery(start: Progress, observed: seq<Progress>)
    requires Accepted(start, observed) && DESTINATION_RECOVERY !in observed
    ensures |observed| <= 6 - Rank(start)
    ensures forall i :: 0 <= i < |observed| ==> Rank(start) < Rank(observed[i])
    decreases |observed|
  {
    if observed != [] {
      assert observed == [observed[0]] + observed[1..];
      assert observed[0] in observed && observed[0] in Transitions(start);
      ClimbsWithoutRecovery(observed[0], observed[1..]);
    }
  }
}
