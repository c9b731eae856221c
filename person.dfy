/**
 * The per-player record the group commands read and edit: the names of
 * the player's friends, the names of the player's children, and the name
 * of the player's parent, if any. The record's own implementation is not
 * part of this model; its accessors are stated here on sets and an Option.
 */
module Persons {
  import opened Wrappers

  class Person {
    const name: string
    var friends: set<string>
    var children: set<string>
    var childOf: Option<string>

    /** A player with no relationships yet. */
    constructor (name: string)
      ensures this.name == name
      ensures friends == {} && children == {} && childOf == None
    {
      this.name := name;
      friends, children, childOf := {}, {}, None;
    }

    function NumberChildren(): nat
      reads this
    {
      |children|
    }

    function NumberFriends(): nat
      reads this
    {
      |friends|
    }

    predicate IsParentOf(n: string)
      reads this
    {
      n in children
    }

    predicate IsFriendWith(n: string)
      reads this
    {
      n in friends
    }

    method AddChild(n: string)
      modifies this`children
      ensures children == old(children) + {n}
    {
      children := children + {n};
    }

    method RemoveChild(n: string)
      modifies this`children
      ensures children == old(children) - {n}
    {
      children := children - {n};
    }

    method CreateChildOf(n: string)
      modifies this`childOf
      ensures childOf == Some(n)
    {
      childOf := Some(n);
    }

    method BreakChildOf()
      modifies this`childOf
      ensures childOf == None
    {
      childOf := None;
    }

    method AddFriend(n: string)
      modifies this`friends
      ensures friends == old(friends) + {n}
    {
      friends := friends + {n};
    }

    method RemoveFriend(n: string)
      modifies this`friends
      ensures friends == old(friends) - {n}
    {
      friends := friends - {n};
    }
  }
}
