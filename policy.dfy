/**
 * What the two group policies share: the outcome of an eligibility check
 * and the membership cap, where a cap that is not positive means unlimited.
 */
module GroupPolicy {

  /** Why a request was refused: one reason per early return of a check. */
  datatype Refusal =
    | CannotAfford      // the player cannot pay the command's cost
    | AtMaximum         // the player's group has reached the cap
    | AlreadyHasParent  // the would-be child already has a parent

  datatype Verdict = Allowed | Refused(reason: Refusal)

  /** A group of `count` members may grow under `cap`. */
  predicate HasRoom(count: nat, cap: int)
  {
    cap <= 0 || count < cap
  }

  /** A group with room takes one more member and stays within a positive cap. */
  lemma RoomForOneMore(members: set<string>, newcomer: string, cap: int)
    requires HasRoom(|members|, cap) && cap > 0
    ensures |members + {newcomer}| <= cap
  {
  }
}
