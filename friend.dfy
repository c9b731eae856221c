/**
 * The friend group policy. Each edit touches only the owner's friend
 * list; the other side's list is edited by a separate call.
 */
module CommandFriend {
  import opened Persons
  import opened GroupPolicy

  /** May `sender` ask `receiver` to be friends? The cost, then the sender's cap; nothing about the receiver. */
  function AllowSendRequest(canAfford: bool, maximumFriends: int, sender: Person, receiver: Person): (v: Verdict)
    reads sender
    ensures !canAfford ==> v == Refused(CannotAfford)
    ensures canAfford && maximumFriends > 0 && |sender.friends| >= maximumFriends ==> v == Refused(AtMaximum)
    ensures v == Allowed <==> canAfford && (maximumFriends <= 0 || |sender.friends| < maximumFriends)
    ensures v != Refused(AlreadyHasParent)
  {
    if !canAfford then Refused(CannotAfford)
    else if !HasRoom(sender.NumberFriends(), maximumFriends) then Refused(AtMaximum)
    else Allowed
  }

  /** May `acceptor` still accept? The cost, then the acceptor's own cap on friends. */
  function AllowAcceptRequest(canAfford: bool, maximumFriends: int, acceptor: Person, sender: Person): (v: Verdict)
    reads acceptor
    ensures !canAfford ==> v == Refused(CannotAfford)
    ensures canAfford && maximumFriends > 0 && |acceptor.friends| >= maximumFriends ==> v == Refused(AtMaximum)
    ensures v == Allowed <==> canAfford && (maximumFriends <= 0 || |acceptor.friends| < maximumFriends)
    ensures v != Refused(AlreadyHasParent)
  {
    if !canAfford then Refused(CannotAfford)
    else if !HasRoom(acceptor.NumberFriends(), maximumFriends) then Refused(AtMaximum)
    else Allowed
  }

  /** Is `member` on `player`'s friend list? */
  function PersonInGroup(player: Person, member: Person): (r: bool)
    reads player
    ensures r <==> member.name in player.friends
  {
    player.IsFriendWith(member.name)
  }

  /** A sender allowed to send has room for the friend it asks for. */
  lemma SendAllowedLeavesRoom(canAfford: bool, maximumFriends: int, sender: Person, receiver: Person)
    requires AllowSendRequest(canAfford, maximumFriends, sender, receiver) == Allowed
    requires maximumFriends > 0
    ensures |sender.friends + {receiver.name}| <= maximumFriends
  {
    RoomForOneMore(sender.friends, receiver.name, maximumFriends);
  }

  /** An acceptor allowed to accept has room for the sender. */
  lemma AcceptAllowedLeavesRoom(canAfford: bool, maximumFriends: int, acceptor: Person, sender: Person)
    requires AllowAcceptRequest(canAfford, maximumFriends, acceptor, sender) == Allowed
    requires maximumFriends > 0
    ensures |acceptor.friends + {sender.name}| <= maximumFriends
  {
    RoomForOneMore(acceptor.friends, sender.name, maximumFriends);
  }

  /** Puts `added` on `player`'s friend list; `added`'s own list is not touched. */
  method AddPersonToGroup(player: Person, added: Person)
    modifies player`friends
    ensures player.friends == old(player.friends) + {added.name}
    ensures PersonInGroup(player, added)
    ensures player != added ==> added.friends == old(added.friends)
  {
    player.AddFriend(added.name);
  }

  /** Takes `removed` off `player`'s friend list; `removed`'s own list is not touched. */
  method RemovePersonFromGroup(player: Person, removed: Person)
    modifies player`friends
    ensures player.friends == old(player.friends) - {removed.name}
    ensures !PersonInGroup(player, removed)
    ensures player != removed ==> removed.friends == old(removed.friends)
  {
    player.RemoveFriend(removed.name);
  }
}
