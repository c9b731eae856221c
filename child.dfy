/**
 * The child (asymmetric) group policy: a parent lists the names of its
 * children and each child names its single parent. A player who sends a
 * child request asks the receiver to become their child; on acceptance
 * the sender becomes the parent.
 */
module CommandChild {
  import opened Wrappers
  import opened Names
  import opened Persons
  import opened GroupPolicy

  /**
   * May `sender` ask `receiver` to become their child? The checks run in
   * order: the cost, then the sender's cap on children, then that the
   * receiver has no parent yet; the first that fails gives the refusal.
   */
  function AllowSendRequest(canAfford: bool, maximumChildren: int, sender: Person, receiver: Person): (v: Verdict)
    reads sender, receiver
    ensures !canAfford ==> v == Refused(CannotAfford)
    ensures canAfford && maximumChildren > 0 && |sender.children| >= maximumChildren ==> v == Refused(AtMaximum)
    ensures v == Refused(AlreadyHasParent) <==>
      canAfford && (maximumChildren <= 0 || |sender.children| < maximumChildren) && receiver.childOf.Some?
    ensures v == Allowed <==>
      canAfford && (maximumChildren <= 0 || |sender.children| < maximumChildren) && receiver.childOf == None
  {
    if !canAfford then Refused(CannotAfford)
    else if !HasRoom(sender.NumberChildren(), maximumChildren) then Refused(AtMaximum)
    else if receiver.childOf != None then Refused(AlreadyHasParent)
    else Allowed
  }

  /**
   * May `acceptor` still accept `sender`'s request? The cost, then the
   * ACCEPTOR's own cap on children, then that the acceptor has no parent.
   * Nothing about the sender is consulted.
   */
  function AllowAcceptRequest(canAfford: bool, maximumChildren: int, acceptor: Person, sender: Person): (v: Verdict)
    reads acceptor
    ensures !canAfford ==> v == Refused(CannotAfford)
    ensures canAfford && maximumChildren > 0 && |acceptor.children| >= maximumChildren ==> v == Refused(AtMaximum)
    ensures v == Refused(AlreadyHasParent) <==>
      canAfford && (maximumChildren <= 0 || |acceptor.children| < maximumChildren) && acceptor.childOf.Some?
    ensures v == Allowed <==>
      canAfford && (maximumChildren <= 0 || |acceptor.children| < maximumChildren) && acceptor.childOf == None
  {
    if !canAfford then Refused(CannotAfford)
    else if !HasRoom(acceptor.NumberChildren(), maximumChildren) then Refused(AtMaximum)
    else if acceptor.childOf != None then Refused(AlreadyHasParent)
    else Allowed
  }

  /** Is `member` already a child of `player`? Only the player's list is consulted. */
  function PersonInGroup(player: Person, member: Person): (r: bool)
    reads player
    ensures r <==> member.name in player.children
  {
    player.IsParentOf(member.name)
  }

  /** A sender allowed to send has room for the child it asks for. */
  lemma SendAllowedLeavesRoom(canAfford: bool, maximumChildren: int, sender: Person, receiver: Person)
    requires AllowSendRequest(canAfford, maximumChildren, sender, receiver) == Allowed
    requires maximumChildren > 0
    ensures |sender.children + {receiver.name}| <= maximumChildren
  {
    RoomForOneMore(sender.children, receiver.name, maximumChildren);
  }

  /** A cap that is not positive never refuses a request or an acceptance. */
  lemma UnlimitedCapNeverRefuses(maximumChildren: int, sender: Person, receiver: Person)
    requires maximumChildren <= 0
    ensures AllowSendRequest(true, maximumChildren, sender, receiver) != Refused(AtMaximum)
    ensures AllowAcceptRequest(true, maximumChildren, receiver, sender) != Refused(AtMaximum)
  {
  }

  /** Makes `added` a child of `player`: both halves of the directed edge. */
  method AddPersonToGroup(player: Person, added: Person)
    modifies player`children, added`childOf
    ensures player.children == old(player.children) + {added.name}
    ensures added.childOf == Some(player.name)
    ensures PersonInGroup(player, added)
    ensures player != added ==> player.childOf == old(player.childOf) && added.children == old(added.children)
  {
    player.AddChild(added.name);
    added.CreateChildOf(player.name);
  }

  /** Detaches `removed` from `player`: the inverse of AddPersonToGroup. */
  method RemovePersonFromGroup(player: Person, removed: Person)
    modifies player`children, removed`childOf
    ensures player.children == old(player.children) - {removed.name}
    ensures removed.childOf == None
    ensures !PersonInGroup(player, removed)
    ensures player != removed ==> player.childOf == old(player.childOf) && removed.children == old(removed.children)
  {
    player.RemoveChild(removed.name);
    removed.BreakChildOf();
  }

  /** Accepting makes the sender the parent and the receiver the child, never the other way round. */
  method HandleAccept(receiver: Person, sender: Person)
    modifies sender`children, receiver`childOf
    ensures sender.children == old(sender.children) + {receiver.name}
    ensures receiver.childOf == Some(sender.name)
    ensures PersonInGroup(sender, receiver)
    ensures sender != receiver ==> sender.childOf == old(sender.childOf) && receiver.children == old(receiver.children)
  {
    AddPersonToGroup(sender, receiver);
  }

  /** The part the initiator of a removal plays, read from the initiator's parent. */
  datatype RemovalRole =
    | AsChild    // the other person is the initiator's parent, ignoring case
    | AsParent   // the initiator has no parent
    | Unrelated  // the initiator has some other parent

  function RoleInRemoval(player: Person, other: Person): RemovalRole
    reads player
  {
    if player.childOf.Some? && EqualsIgnoreCase(player.childOf.value, other.name) then AsChild
    else if player.childOf == None then AsParent
    else Unrelated
  }

  /**
   * `player` asks to end the relationship with `other`. A child leaves its
   * parent's list and forgets its parent; a player without a parent drops
   * `other` from its children and clears `other`'s parent, whoever that
   * was; a player with some other parent changes nothing.
   */
  method HandleRemove(player: Person, other: Person)
    modifies player`children, player`childOf, other`children, other`childOf
    ensures old(RoleInRemoval(player, other)) == AsChild ==>
      && other.children == old(other.children) - {player.name}
      && player.childOf == None
      && (player != other ==> player.children == old(player.children) && other.childOf == old(other.childOf))
    ensures old(RoleInRemoval(player, other)) == AsParent ==>
      && player.children == old(player.children) - {other.name}
      && other.childOf == None
      && player.childOf == None
      && (player != other ==> other.children == old(other.children))
    ensures old(RoleInRemoval(player, other)) == Unrelated ==>
      && player.children == old(player.children) && player.childOf == old(player.childOf)
      && other.children == old(other.children) && other.childOf == old(other.childOf)
  {
    if player.childOf.Some? && EqualsIgnoreCase(player.childOf.value, other.name) {
      RemovePersonFromGroup(other, player);
      player.BreakChildOf();
    } else if player.childOf == None {
      RemovePersonFromGroup(player, other);
      other.BreakChildOf();
    }
  }

  /**
   * The cap re-check at acceptance looks at the acceptor, who becomes a
   * child, while the accept adds a child to the sender. With a cap of one,
   * a player who sent two requests while childless ends with two children.
   */
  method AcceptExceedsCapWitness() returns (sentFirst: bool, sentSecond: bool, acceptedSecond: bool, childCount: nat)
    ensures sentFirst && sentSecond && acceptedSecond
    ensures childCount == 2
  {
    var parent := new Person("alice");
    var first := new Person("bob");
    var second := new Person("carol");
    sentFirst := AllowSendRequest(true, 1, parent, first) == Allowed;
    sentSecond := AllowSendRequest(true, 1, parent, second) == Allowed;
    HandleAccept(first, parent);
    acceptedSecond := AllowAcceptRequest(true, 1, second, parent) == Allowed;
    HandleAccept(second, parent);
    childCount := |parent.children|;
    assert parent.children == {"bob", "carol"};
  }

  /**
   * The accept-time test as the cap evidently intends it: the cap is
   * tested against the sender, who gains the child.
   */
  function AllowAcceptRequestIntended(canAfford: bool, maximumChildren: int, acceptor: Person, sender: Person): (v: Verdict)
    reads acceptor, sender
    ensures !canAfford ==> v == Refused(CannotAfford)
    ensures canAfford && maximumChildren > 0 && |sender.children| >= maximumChildren ==> v == Refused(AtMaximum)
    ensures v == Allowed <==>
      canAfford && (maximumChildren <= 0 || |sender.children| < maximumChildren) && acceptor.childOf == None
  {
    if !canAfford then Refused(CannotAfford)
    else if !HasRoom(sender.NumberChildren(), maximumChildren) then Refused(AtMaximum)
    else if acceptor.childOf != None then Refused(AlreadyHasParent)
    else Allowed
  }

  /** Under the intended check, the child list that the accept grows stays within a positive cap. */
  lemma IntendedAcceptKeepsCap(canAfford: bool, maximumChildren: int, acceptor: Person, sender: Person)
    requires AllowAcceptRequestIntended(canAfford, maximumChildren, acceptor, sender) == Allowed
    requires maximumChildren > 0
    ensures |sender.children + {acceptor.name}| <= maximumChildren
  {
    RoomForOneMore(sender.children, acceptor.name, maximumChildren);
  }

  /**
   * Nothing in the policy stops two players from being each other's
   * parent: a child may ask its own parent to become its child.
   */
  method MutualParentWitness() returns (sent: bool, accepted: bool, bothParents: bool)
    ensures sent && accepted && bothParents
  {
    var a := new Person("alice");
    var b := new Person("bob");
    HandleAccept(b, a);
    sent := AllowSendRequest(true, 0, b, a) == Allowed;
    accepted := AllowAcceptRequest(true, 0, a, b) == Allowed;
    HandleAccept(a, b);
    bothParents := PersonInGroup(a, b) && PersonInGroup(b, a) && a.childOf == Some("bob") && b.childOf == Some("alice");
  }
}
