# Social Network group policies in Dafny

A model of the two relationship kinds of the "Social Network" game-server
plugin: the **child** kind and the **friend** kind. Child is asymmetric: a
parent lists its children and each child names at most one parent. Friend
is a plain list per player. For each kind the model gives the same policy
operations:

- the eligibility checks the request/accept workflow calls:
  `AllowSendRequest`, `AllowAcceptRequest` and `PersonInGroup`;
- the record edits it performs: `AddPersonToGroup` and
  `RemovePersonFromGroup`;
- for the child kind, also `HandleAccept` and `HandleRemove`.

Modules, one per component:

- `Wrappers` (wrappers.dfy): `Option`, standing for a Java reference that may be null.
- `Names` (names.dfy): the case-insensitive name comparison that `handleRemove` uses.
- `Persons` (person.dfy): the player record, a class with fields `name`, `friends`,
  `children` and `childOf`. The record's implementation is not part of this model.
  Its accessors (`addChild`, `createChildOf`, `removeChild`, `breakChildOf`,
  `addFriend`, `removeFriend`, `getNumberChildren`, `isParentOf`, ...) are stated
  as set and Option edits, and each edit modifies only the field it names.
- `GroupPolicy` (policy.dfy): the outcome of a check (`Verdict`) and the cap rule.
  A cap that is not positive means unlimited.
- `CommandChild` (child.dfy) and `CommandFriend` (friend.dfy): the two policies.

A check returns a `Verdict`. The source returns `true` exactly when the verdict
is `Allowed`. Each `Refused(reason)` names the early return that fired, and so
the chat message the source sends at that point. This is what makes the order
of the checks visible: affordability first, then the cap, then the parent rule.

Inputs from outside the core are parameters. Whether the player can pay the
command's cost is the flag `canAfford`. The configured caps `maximumChildren`
and `maximumFriends` are integers, because the source tests them with `> 0`.

## Model

| member | source | states |
|---|---|---|
| `CommandChild.AllowSendRequest` | src/main/java/com/netprogs/minecraft/plugins/social/command/group/CommandChild.java:57-85 | A sender who cannot pay is refused for cost, before any other check. A positive cap at or below the sender's child count refuses for the cap. A receiver who already has a parent is refused. The request is allowed exactly when all three checks pass. A cap of 0 or less never refuses. |
| `CommandChild.AllowAcceptRequest` | src/main/java/com/netprogs/minecraft/plugins/social/command/group/CommandChild.java:95-121 | The same three checks in the same order, all applied to the acceptor: cost, the acceptor's own child count against a positive cap, and the acceptor having no parent. The acceptance is allowed exactly when they pass. The sender is not consulted. |
| `CommandChild.PersonInGroup` | src/main/java/com/netprogs/minecraft/plugins/social/command/group/CommandChild.java:131-135 | Holds exactly when the member's name is in the player's children. |
| `CommandChild.SendAllowedLeavesRoom` | src/main/java/com/netprogs/minecraft/plugins/social/command/group/CommandChild.java:70-75 | When a request is allowed under a positive cap, the sender's children plus the requested child still fit within the cap. |
| `CommandChild.UnlimitedCapNeverRefuses` | src/main/java/com/netprogs/minecraft/plugins/social/command/group/CommandChild.java:71 | With a cap of 0 or less, neither check ever refuses for the cap. |
| `CommandChild.AddPersonToGroup` | src/main/java/com/netprogs/minecraft/plugins/social/command/group/CommandChild.java:143-149 | The added person's name joins the player's children. The added person's parent becomes the player. `PersonInGroup(player, added)` then holds. Only these two fields change. |
| `CommandChild.RemovePersonFromGroup` | src/main/java/com/netprogs/minecraft/plugins/social/command/group/CommandChild.java:167-173 | The removed person's name leaves the player's children. The removed person has no parent afterwards. `PersonInGroup` no longer holds. Only these two fields change. |
| `CommandChild.HandleAccept` | src/main/java/com/netprogs/minecraft/plugins/social/command/group/CommandChild.java:187-192 | The sender becomes the parent and the receiver the child, never the reverse. The sender's own parent and the receiver's own children are unchanged. |
| `CommandChild.HandleRemove` | src/main/java/com/netprogs/minecraft/plugins/social/command/group/CommandChild.java:202-224 | The action depends on the initiator's parent. If it equals the other's name ignoring case, the initiator leaves the other's children and its parent is cleared. If the initiator has no parent, the other leaves the initiator's children and the other's parent is cleared, whoever that parent was. If the initiator has some other parent, nothing changes. |
| `CommandChild.MutualParentWitness` | src/main/java/com/netprogs/minecraft/plugins/social/command/group/CommandChild.java:78-84 | Both checks look only at the child side's parent. So after alice becomes bob's parent, bob may still ask alice to become his child and alice may accept. Afterwards each is the other's parent. |
| `CommandChild.AcceptExceedsCapWitness` | src/main/java/com/netprogs/minecraft/plugins/social/command/group/CommandChild.java:105-111 | Take a cap of 1 and a childless sender. The sender's two requests are both allowed. After the first accept, the accept-time test still allows the second, and the sender ends with 2 children. |
| `CommandChild.AllowAcceptRequestIntended` | src/main/java/com/netprogs/minecraft/plugins/social/command/group/CommandChild.java:95-121 | The corrected accept-time test checks the cap against the sender, who gains the child. It is allowed exactly when the acceptor can pay, the sender is under a positive cap (or the cap is unlimited), and the acceptor has no parent. |
| `CommandChild.IntendedAcceptKeepsCap` | src/main/java/com/netprogs/minecraft/plugins/social/command/group/CommandChild.java:187-192 | Under the corrected check with a positive cap, the sender's child list that the accept grows stays within the cap. |
| `CommandFriend.AllowSendRequest` | src/main/java/com/netprogs/minecraft/plugins/social/command/group/CommandFriend.java:55-74 | A sender who cannot pay is refused for cost, before the cap check. A positive cap at or below the sender's friend count refuses for the cap. Otherwise the request is allowed. A cap of 0 or less never refuses. Nothing about the receiver is read, and no refusal is for a parent. |
| `CommandFriend.AllowAcceptRequest` | src/main/java/com/netprogs/minecraft/plugins/social/command/group/CommandFriend.java:84-103 | The acceptor is refused for cost first, then for a positive cap at or below its own friend count. Otherwise the acceptance is allowed. |
| `CommandFriend.PersonInGroup` | src/main/java/com/netprogs/minecraft/plugins/social/command/group/CommandFriend.java:113-116 | Holds exactly when the member's name is on the player's friend list. |
| `CommandFriend.SendAllowedLeavesRoom` | src/main/java/com/netprogs/minecraft/plugins/social/command/group/CommandFriend.java:64-73 | When a request is allowed under a positive cap, the sender's friends plus the receiver fit within the cap. |
| `CommandFriend.AcceptAllowedLeavesRoom` | src/main/java/com/netprogs/minecraft/plugins/social/command/group/CommandFriend.java:93-102 | When an acceptance is allowed under a positive cap, the acceptor's friends plus the sender fit within the cap. |
| `CommandFriend.AddPersonToGroup` | src/main/java/com/netprogs/minecraft/plugins/social/command/group/CommandFriend.java:124-128 | The added person's name joins the player's friend list, and `PersonInGroup` then holds. Only the player's friend list changes; the added person's list is untouched. |
| `CommandFriend.RemovePersonFromGroup` | src/main/java/com/netprogs/minecraft/plugins/social/command/group/CommandFriend.java:145-149 | The removed person's name leaves the player's friend list, and `PersonInGroup` no longer holds. Only the player's friend list changes. |
| `Names.EqualsIgnoreCase` | src/main/java/com/netprogs/minecraft/plugins/social/command/group/CommandChild.java:206 | Names that match ignoring case have equal length. Equal names always match. |
| `Names.EqualsIgnoreCaseIsFolded` | src/main/java/com/netprogs/minecraft/plugins/social/command/group/CommandChild.java:206 | Two names match ignoring case exactly when their lower-cased forms are equal. |
| `Names.EqualsIgnoreCaseSymmetric` | src/main/java/com/netprogs/minecraft/plugins/social/command/group/CommandChild.java:206 | Matching ignoring case is symmetric. |
| `Names.EqualsIgnoreCaseTransitive` | src/main/java/com/netprogs/minecraft/plugins/social/command/group/CommandChild.java:206 | Matching ignoring case is transitive. |

## Findings

| source | as written | input that shows it | evidently intended | confidence | as-written member | corrected member |
|---|---|---|---|---|---|---|
| src/main/java/com/netprogs/minecraft/plugins/social/command/group/CommandChild.java:105-111 | The accept-time cap check counts the acceptor's children. But `handleAccept` (line 191) adds the child to the sender. | Cap 1. alice has no children and sends requests to bob and carol; both are allowed. bob accepts. carol's acceptance is still allowed because carol has 0 children. alice ends with 2 children. | The re-check at accept time should limit the sender's children, the list that grows. | medium, not executed | `CommandChild.AcceptExceedsCapWitness` | `CommandChild.IntendedAcceptKeepsCap` |

`AllowAcceptRequest` itself models the code as written. `AllowAcceptRequestIntended` is the corrected check that `IntendedAcceptKeepsCap` is proved about.

## Left out

- Chat messages (`MessageUtil.sendMessage`). Only the outcome each message accompanies is kept, as the `Refusal` reason.
- Charging the player in `addPersonToGroup`. It looks up a live server player and calls the economy plugin, both foreign calls.
- The permission-sync call `checkForPermissionsUpdate`, and the cost check `checkCommandCost`. Both are in a base class that is not part of this model. Affordability is the input flag `canAfford`.
- `help()` and `handleList`: they only render text.
- The generic request/accept/reject/ignore workflow and the player record's internals. The workflow base class and `SocialPerson` are not part of this model. So the model has no pending requests, no ignore lists and no persistence. Whether the workflow checks membership before it calls `handleRemove` is not known here. `HandleRemove` states what the method does either way.
- The friend kind's two-sided symmetry. A friend add or remove edits only the owner's list, as the code does. A description of the system that says both lists change refers to the unseen workflow calling the edit once per side.
- `Settings`, `PluginIntegration`, `PlayerNotInNetworkException`, `Friend`: configuration beans, plugin-loader state, an exception and an empty subclass, with no policy logic.
- Concurrency: commands are modelled one at a time. The code has no locking.
- `Names.EqualsIgnoreCase`: folds only the ASCII letters, because Java's Unicode case mapping tables are not modelled.
- The record's lists are modelled as sets of names, with exact (case-sensitive) membership. The record's own implementation, which could differ, is not part of this model.
