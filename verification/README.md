# Verified models of the game server and the asset cache

This project models, in Dafny 4.11, the parts of the repository whose behaviour is hardest to see from one
function: the relationship protocols between accounts, the delayed account updates, the chat rooms, the transport
session, the cache machinery and the codecs under them. `dafny verify dfyconfig.toml` checks everything.

Most parts come in two layers. A state machine over values says what one call does and carries the theorems about
every run. A class with the source's own fields does the same thing by editing them in place, and each of its
methods ensures that its abstract state afterwards is the machine's step from the state before.

What a single step does is told once more without the machine's own terms: `RelationshipCalls`, `RoomCalls`,
`UpdateCalls` and `GlobText`, and lemmas beside the other machines, say in plain numbers and words which branch a call
takes, what it leaves in memory and in store, and, over runs, what comes out of the events alone.

| part | values and theorems | in place |
|---|---|---|
| ownership and lovership | `Lovers`, `Relationships`, `RelationshipInvariants`, `RelationshipTheorems`, `RelationshipLosses`, `RelationshipCalls` | `AccountManager` |
| delayed account updates | `WriteBehind`, `ProfileServer`, `UpdateCalls`, over `JsonMerge` | `Profiles`, `JsonMerge.Document` |
| login queue | `LoginQueue`, over `WriteBehind` | `LoginQueue.Logins` |
| chat rooms | `RoomNames`, `Rooms`, `RoomInvariants`, `RoomCalls`, over `Trimming` | `ChatRoomManager` |
| connection: outbox, upgrade, close | `Connection`, over `Payload` and `Text` | `Connection.EioConnection` |
| connection: event rate limit | `RateLimiter` | `RateLimiter.Limiter` |
| connections per address | `IpConnections` | `IpConnections.SocketIoServer` |
| singleflight | `Flight` | `Flight.FlightGroup` |
| cache store | `CacheStore` | `CacheStore.LevelDbStore` |
| cache routing globs | `Glob`, `GlobText` | loops of `Glob` |
| traffic counters | `TrafficStats` | `TrafficStats.TrafficCollector` |
| Base64 and stored passwords | `Base64`, `Password` | loops of both |

`GameState` holds the account and room objects the account and room handlers share, `AccountFields` what it means to
read a text field of an account.

## Where the code does less than it seems

- Two accounts can record different starts for one bond: an acceptance reads the clock twice
  (`account_manager.cpp:1106-1113`). The accepting side always waits the full delay (`AcceptanceWaits`). When both lists
  in memory agree beforehand on whether there is a bond, the other side may fall short by the time between the
  readings, and by no more (`OtherSideIff`, `SkewIsTight`); then both sides always wait in full if and only if the two
  readings agree (`FullWaitIff`).
- After a break that is cut short (below) the lists need not agree, and an acceptance overwrites whatever entry the
  other side has under the caller's key, whatever its stage (`account_manager.cpp:1129-1185`). So someone can be wed who
  was never engaged, and a wedding can fall back to dating (`WedUnengaged`). `StageOrderIff` and `WeddingHistory` say
  exactly when the stages keep their order; `StagesNeverDiffer` that two who both have a bond on record still agree on it.
- A delayed Appearance, Skill or Game value that is flushed later overwrites a dotted update below the same field
  that was stored at once (`DottedUpdateLost`). `UpdateRefines` says exactly when an update is harmless.
- The fields an account update may not name are compared as whole keys (`account_manager.cpp:434-470`), so a key with
  a dot after such a name gets through and turns the field into an object; `ImmutableFieldKept` says exactly when, for
  the record, and `UnreadAfter` for the account in memory. Reading such a field as text throws from then on, and the
  handler ends where it stands. So:
  - An update that reaches `AccountName` (`{"AccountName.x": 1}`) is never stored, because the record is refused
    (`game_db.cpp:86-104`), and drops the waiting values it names (`NamedUpdateLost`). After it nothing of that session is
    stored by account name. If anything of it waits, the next flush throws, what it had collected from other sessions
    is lost and the flush loop ends (`account_manager.cpp:1442-1480`, `FlushLosesOthers`). `RunInSyncIff` says exactly which
    runs of the whole server lose nothing, `PlainRunInSync` that runs without such keys lose nothing, `FlushIff` when a
    flush stores all that waits.
  - The same session's ownership calls change memory and then throw before the database write: a trial it has broken is
    back after the next login (`NamelessBreak`). Notes that are cut inside a UTF-8 character are not stored either
    (`account_manager.cpp:729-738`). `MemoryRefinesDisk` says exactly which runs keep memory what is stored.
  - While such a session lasts, every login that comes to it on its way through the sessions, in search of its own
    account, throws (`account_manager.cpp:342-350`).
  - An account whose `Name` is no text leaves a room that has other members only halfway
    (`chatroom_manager.cpp:302-325`): it is off the list, and its pointer stays. Once the others leave, the room is gone and
    the pointer dangles (`GhostPointer`). `DepartKeepsIff`, `StepKeepsInvariant` and `MembershipAgrees` give the exact
    condition for one leave, for any call and for whole runs; `ListsAlwaysAgree` says what holds regardless. Such an
    account can also neither create a room, nor kick or ban, nor be kicked or banned out. An administrator who is off
    the list that way can expel the last one on it, which ends the room the handler goes on using (`AdminStays`).
  - An update that reaches Owner, Ownership or Lovership (`{"Lovership.Stage": 2}`) lets a client write its own record as
    it likes; then nothing is promised about that record (`RewriteDisagrees`).
- When the other side of a break is online in a room and that room cannot be sent their data, because their
  ItemPermission is no number or their notes are cut inside a character, the break ends after their list in memory has
  been changed and before anything is stored (`account_manager.cpp:954-969`). One of the two then has the bond on record
  and the other has not (`CutBreak`); in runs that rewrite no record nothing else has that effect
  (`LovershipIsSymmetric`).
- A login that throws, for example because the stored password is no longer text (`account_manager.cpp:327`,
  `PasswordStaysText`), ends the runner of the login queue and leaves its flag up. Every login after it waits for
  ever: `WaitsInVain` gives the exact condition, `FailureStrands` a run.
- The rate limiter counts exactly until it first rejects, which is when the connection is closed (`LimitIsExact`); after
  that it may count too little once the limit is raised (`RaisedAfterRejection`, exactly when: `VerdictIff`). And it is
  exact only once the clock is past its first second (`EarlyClockRejects`).
- The rate of new connections from one address is tested on the times kept, and a disconnect drops the oldest of
  them. So under a rate of two a second three connections can be admitted within three milliseconds
  (`ThirdSlipsIn`); `VerdictIff` and `HistorySpacedIff` say exactly when the test agrees with the full history.
- A connection counts for its address until the server removes its session id, once (`CountsUntilRemoved`). A frame `40`
  that is read after a ping timeout has removed the id registers it again, and that count is never given back.
- A glob class may match `/`. The slash count of what a pattern matches is fixed if and only if some class takes no byte
  at all or no class takes `/` and another byte too (`SlashesFixedIff`); `[!a]` does (`NegatedClassVaries`), `[a]` does not.
- Two stars side by side mean one, but taking one of them out of the text of a pattern can close a bracket before
  them that was a literal (`BracketCloses`). `TokenRemoved` gives the exact condition on the tokens.

## Model

| member | source | states |
|---|---|---|
| `Lovers.IndexOf` | src/server/gameserver/game/account_manager.cpp:1002-1014 | the first entry keyed by a member, or none; keys of offers are their suitors |
| `Lovers.StripKeeps` | src/server/gameserver/game/account_manager.cpp:893-904 | what remains of a list are exactly its bonds, without their pending offers |
| `Lovers.StripConcat` | src/server/gameserver/game/account_manager.cpp:893-904 | the two halves of a list are stripped each on its own, so what remains keeps its order |
| `Lovers.StripBond` | src/server/gameserver/game/account_manager.cpp:893-904 | dropping offers keeps every bond a list has, up to its own offers |
| `Lovers.DropBond` | src/server/gameserver/game/account_manager.cpp:945-984 | erasing one bond removes exactly that member's bond |
| `RelationshipInvariants.StepKeepsSound` | src/server/gameserver/game/account_manager.cpp:620-1190 | whatever throws in it, every call, login, logout and name-spoiling update keeps: lists of at most five distinct keys, offers only once the wait is over, stored records without offers, and the stored ownership in memory, but for offers and notes, of every session whose account name is text |
| `RelationshipInvariants.StepKeepsSettled` | src/server/gameserver/game/account_manager.cpp:620-1190 | every step that rewrites no record, breaks cut short included, keeps: a list in memory has no bond but those in store, and two that both have a bond in store have it at one stage, begun at nearly the same time |
| `RelationshipInvariants.StepKeepsInvariant` | src/server/gameserver/game/account_manager.cpp:620-1190 | of these steps exactly a break that is cut short ends the agreement of memory and disk on every list and of both sides on every bond |
| `RelationshipInvariants.ProposedListOk` | src/server/gameserver/game/account_manager.cpp:1020-1077 | a proposal leaves a list whose every offer is on the right stage and late enough |
| `RelationshipInvariants.BreakIsMutual` | src/server/gameserver/game/account_manager.cpp:915-989 | a bond that can be broken is with another account; that one has it on record too, at the same stage, exactly when it has any bond with the caller, and always while no break has been cut short |
| `RelationshipInvariants.ForsakeSound` | src/server/gameserver/game/account_manager.cpp:945-969 | the other side's half of a break that is not cut short removes that one bond for everybody to see and keeps lists in memory and on disk in agreement, online or offline |
| `RelationshipTheorems.RunKeepsInvariant` | src/server/gameserver/game/account_manager.cpp:620-1190 | the invariant holds in every state a run reaches before a break is cut short, while no update rewrites a record |
| `RelationshipTheorems.LovershipIsSymmetric` | src/server/gameserver/game/account_manager.cpp:882-1190 | while no update rewrites a record, any two accounts record the same stage for each other, online or not, in all states of a run if and only if none of its breaks is cut short |
| `RelationshipTheorems.StagesNeverDiffer` | src/server/gameserver/game/account_manager.cpp:882-1190 | in every state of such a run, cut short breaks included, two accounts that both have a bond with the other on record have it at the same stage, begun within the clock skew |
| `RelationshipTheorems.ListsStayShort` | src/server/gameserver/game/account_manager.cpp:1016-1081 | in every state of such a run, cut short breaks included, every list has at most five entries, with distinct keys |
| `RelationshipTheorems.MemoryRefinesDisk` | src/server/gameserver/game/account_manager.cpp:589-1190 | while no update rewrites a record, memory without its offers is what is stored in all states of a run if and only if no call of it changes memory alone: a break cut short, an ownership write for a session whose account name is no text, or new notes cut inside a character |
| `RelationshipTheorems.MatchKeptIff` | src/server/gameserver/game/account_manager.cpp:620-880 | the same for one step |
| `RelationshipTheorems.BondStep` | src/server/gameserver/game/account_manager.cpp:915-1189 | in every state a run without rewrites reaches, one call changes a stored bond only by a break of one of the two that is not cut short, by storing a list from which memory had lost it, or by an acceptance between the two; the last moves a party one stage up, after its wait, exactly when that party accepts or both lists agree beforehand |
| `RelationshipTheorems.AcceptanceWaits` | src/server/gameserver/game/account_manager.cpp:1079-1189 | whatever was cut short before, an acceptance moves the accepting side exactly one stage up after the full delay; it moves the other side one stage up, after any given wait, exactly when that side has the bond at the stage left, for that long (none, for dating) |
| `RelationshipTheorems.OtherSideIff` | src/server/gameserver/game/account_manager.cpp:1079-1189 | in every state a run without rewrites reaches, the other side moves up one stage after the delay less the clock skew exactly when both lists agree beforehand on whether there is a bond, and after the full delay exactly when it has also been at its stage that long |
| `RelationshipTheorems.StageOrderIff` | src/server/gameserver/game/account_manager.cpp:1020-1189 | in every run without rewrites the acceptances between two accounts move one of them a stage at a time, after its wait, if and only if before each that is not its own both lists agree |
| `RelationshipTheorems.WeddingEnds` | src/server/gameserver/game/account_manager.cpp:931-989 | in every state a run without rewrites reaches, a wedding on record ends in store only by the break of someone wed for at least the delay, or when the other side, who has lost it, accepts a dating offer |
| `RelationshipTheorems.WeddingHistory` | src/server/gameserver/game/account_manager.cpp:1042-1074 | whoever is wed in a run without rewrites became so by an acceptance, and was engaged before it, for the wait, exactly when it was their own or both lists agreed; likewise engaged by an acceptance, and dating before it |
| `RelationshipTheorems.SkewIsTight` | src/server/gameserver/game/account_manager.cpp:1100-1145 | for every delay and skew, a run in which one side waits exactly the delay less the skew, or not at all when the skew is the longer |
| `RelationshipTheorems.FullWaitIff` | src/server/gameserver/game/account_manager.cpp:1079-1189 | with any positive delay, every acceptance of every run without rewrites before which both lists agree has both sides wait the full delay if and only if the two clock readings agree |
| `RelationshipTheorems.CollarBegins` | src/server/gameserver/game/account_manager.cpp:771-878 | a collar is put on only by its wearer accepting; a full one only from a trial with the same owner begun at least the delay before |
| `RelationshipTheorems.FullCollarEnds` | src/server/gameserver/game/account_manager.cpp:636-769 | a full collar comes off only by its owner's release, or by its wearer's break after the delay on difficulty at most 2 |
| `RelationshipTheorems.MemoryCollarStep` | src/server/gameserver/game/account_manager.cpp:824-878 | in memory too a full collar is put on only by an acceptance of a trial with the same owner begun at least the delay before, also when it is then not stored |
| `RelationshipTheorems.FullCollarHistory` | src/server/gameserver/game/account_manager.cpp:771-878 | whoever wears a full collar in a run, in memory or on disk, was on trial with the same owner earlier in it, for at least the delay |
| `RelationshipLosses.NamelessBreak` | src/server/gameserver/game/account_manager.cpp:636-660 | a run in which a trial is broken in memory alone, because the account name is no text, and is back after the next login |
| `RelationshipLosses.CutBreak` | src/server/gameserver/game/account_manager.cpp:954-969 | a run in which a break is cut short and leaves one side with the bond and the other without |
| `RelationshipLosses.WedUnengaged` | src/server/gameserver/game/account_manager.cpp:1129-1185 | for any delay, a run with two breaks cut short in which one account is wed without ever having been engaged, and the other one's wedding ends in dating |
| `RelationshipLosses.RewriteDisagrees` | src/server/gameserver/game/account_manager.cpp:434-466 | a run in which an update that reaches the lovership leaves one side wed and the other not |
| `RelationshipCalls.BreakFrees` | src/server/gameserver/game/account_manager.cpp:636-660 | a break takes the caller's collar off, in memory and by name in store, exactly from a trial, or after the delay from a full collar on difficulty at most 2; else it does nothing |
| `RelationshipCalls.ProposeOffers` | src/server/gameserver/game/account_manager.cpp:771-822 | after a proposal the target is offered a trial, or the end of one, exactly if it was before or is free or wears the caller's due trial, is owned by no name, has not blocked the caller and is not the caller's owner; nothing is stored and nothing else changes |
| `RelationshipCalls.AcceptCollars` | src/server/gameserver/game/account_manager.cpp:824-878 | an acceptance puts a trial or a full collar on exactly where the caller has that offer of the target, which has not blocked it and whose name is text |
| `RelationshipCalls.ReleaseFrees` | src/server/gameserver/game/account_manager.cpp:672-769 | an owner frees whom it owns: in the room by what memory says, elsewhere by what is stored |
| `RelationshipCalls.NotesWritten` | src/server/gameserver/game/account_manager.cpp:725-741 | notes go on a full collar of the caller's, cut to the longest length; they are stored unless the cut falls inside a character |
| `RelationshipCalls.OtherWordsOnOwnership` | src/server/gameserver/game/account_manager.cpp:620-880 | every other action word does nothing |
| `RelationshipCalls.ProposeAdds` | src/server/gameserver/game/account_manager.cpp:1016-1077 | a proposal adds a dating offer to the target's list in memory exactly if that has no entry for the caller and fewer than five, and the caller has fewer than five or one for the target; under the latter the bond there is gets the engagement or wedding offer of its stage exactly when it is due and has none; nothing else changes |
| `RelationshipCalls.AcceptBinds` | src/server/gameserver/game/account_manager.cpp:1079-1189 | an acceptance goes through when the caller's first entry for the target has the target's offer of the next stage, its list has at most five entries, and for dating the other list has room or an entry; both lists then have the bond at that stage, in memory and in store, without offers |
| `RelationshipCalls.AcceptRefused` | src/server/gameserver/game/account_manager.cpp:1079-1189 | otherwise an acceptance changes nothing |
| `RelationshipCalls.StripSingle` | src/server/gameserver/game/account_manager.cpp:893-904 | dropping offers takes a bare dating offer off a list and both pending offers off a bond |
| `RelationshipCalls.BreakParts` | src/server/gameserver/game/account_manager.cpp:931-989 | a break takes the bond off the caller's list and off the other side's stored one, which a session of the other side takes over; a wedding only after the delay |
| `RelationshipCalls.BreakAlone` | src/server/gameserver/game/account_manager.cpp:931-989 | when the other side has no bond in store only the caller's half is taken off |
| `RelationshipCalls.BreakOfSelf` | src/server/gameserver/game/account_manager.cpp:945-972 | a bond with oneself would be taken off only as far as it is stored |
| `RelationshipCalls.BreakCutShort` | src/server/gameserver/game/account_manager.cpp:954-969 | when the other side's room cannot be told only the other side's list in memory loses the bond |
| `RelationshipCalls.BreakRefused` | src/server/gameserver/game/account_manager.cpp:915-996 | any other break does nothing, but that one from a named non-player has the caller's list saved without offers |
| `RelationshipCalls.OtherWordsOnLovership` | src/server/gameserver/game/account_manager.cpp:882-1190 | every other action word does nothing, nor does any but a break outside a room, without the target there, blocked or towards oneself |
| `RelationshipCalls.SessionBounds` | src/server/gameserver/game/account_manager.cpp:396-402 | an account begins without ties, a session with what is stored, and its end stores nothing of them; an update that spoils the account name marks the session, one that reaches the record makes of it what it likes |
| `RelationshipCalls.CollarReached` | src/server/gameserver/game/account_manager.cpp:771-878 | for every delay a run from the empty server in which a trial is offered, accepted and ended in a full collar |
| `AccountManager.Manager.AccountOwnership` | src/server/gameserver/game/account_manager.cpp:620-880 | the handler takes the world of memory and disk to the ownership step's, whatever names can be read |
| `AccountManager.Manager.Misnamed` | src/server/gameserver/game/account_manager.cpp:461-466 | an update that makes the account name in memory unreadable is the step of the world that marks the session |
| `AccountManager.Manager.ReleaseAbsent` | src/server/gameserver/game/account_manager.cpp:672-719 | the database decides the release of someone outside the room; memory follows when they are online |
| `AccountManager.Manager.UpdateLovership` | src/server/gameserver/game/account_manager.cpp:893-904 | the backwards erasing loop returns and stores the stripped list |
| `AccountManager.Manager.AccountLovership` | src/server/gameserver/game/account_manager.cpp:882-1190 | the handler takes the world of memory and disk to the lovership step's, whatever names can be read and whether or not a break is cut short |
| `AccountManager.Manager.WriteNotes` | src/server/gameserver/game/account_manager.cpp:725-741 | notes go to memory; they are stored if the account name is text and the cut falls between characters |
| `AccountManager.Manager.BreakLovership` | src/server/gameserver/game/account_manager.cpp:937-988 | both lists lose the bond, in memory and on disk; cut short, only the other side's list in memory does |
| `AccountManager.Manager.LoverIndex` | src/server/gameserver/game/account_manager.cpp:1002-1014 | the search loop finds the first entry of that key |
| `JsonMerge.Document.MergeSetField` | src/common/json_merge.cpp:5-28 | a dotted update is the recursive update along the split path, and fails exactly on a root that is neither object nor null |
| `JsonMerge.Document.Walk` | src/common/json_merge.cpp:13-27 | the in-place walk, creating or replacing intermediate objects, ends with that recursive update |
| `JsonMerge.Document.MergeSetFields` | src/common/json_merge.cpp:30-34 | the members are merged in order |
| `JsonMerge.ReadBack` | src/common/json_merge.cpp:5-28 | the written path, and everything below it, reads back the value |
| `JsonMerge.ReadElsewhere` | src/common/json_merge.cpp:5-28 | every path that is neither a prefix nor an extension of the written one reads as before |
| `JsonMerge.Commute` | src/common/json_merge.cpp:5-28 | updates on incomparable paths commute |
| `JsonMerge.OrderIrrelevant` | src/common/json_merge.cpp:30-34 | members on pairwise incomparable paths may be merged in any order |
| `WriteBehind.UpdateRefines` | src/server/gameserver/game/account_manager.cpp:466-495 | after an update, the stored account overlaid with what is delayed equals the write-through store if and only if the update is harmless: it writes nothing new below what stays delayed, and if it reaches the account name it drops nothing that is not stored |
| `WriteBehind.UndottedIsHarmless` | src/server/gameserver/game/account_manager.cpp:461-495 | updates without dotted keys under the three delayed fields and the account name are always harmless |
| `WriteBehind.DottedUpdateLost` | src/server/gameserver/game/account_manager.cpp:466-495 | a dotted update under a delayed field that is lost at the next flush |
| `WriteBehind.NamedUpdateLost` | src/server/gameserver/game/account_manager.cpp:466-495 | an update with a new look and a key under the account name, after which neither the new nor the waiting look is stored or waits |
| `WriteBehind.NamedKey` | src/server/gameserver/game/account_manager.cpp:434-466 | `AccountName.x` is such a key: it is not among the keys erased, and its path begins with the account name |
| `WriteBehind.FlushRefines` | src/server/gameserver/game/account_manager.cpp:1452-1480 | a flush makes the stored account of a session whose account name is text equal to the overlay |
| `WriteBehind.LossRefines` | src/server/gameserver/game/account_manager.cpp:1452-1467 | dropping what waits keeps the overlay exactly when all that waits is stored already |
| `WriteBehind.RunRefines` | src/server/gameserver/game/account_manager.cpp:1391-1480 | over every run of updates, character updates, flushes, failed flushes and session ends that are each harmless, the overlay is the write-through store; after a flush or the end of the session the two stores are equal |
| `WriteBehind.ServeRefines` | src/server/gameserver/game/account_manager.cpp:1391-1480 | one call of any kind keeps the overlay the write-through store if and only if it is harmless |
| `WriteBehind.PlainRunHarmless` | src/server/gameserver/game/account_manager.cpp:1391-1480 | in every run without those dotted keys and without failed flushes every call is harmless |
| `WriteBehind.ReadableIff` | src/common/json_merge.cpp:5-34 | after a merge that names no immutable field, a text field reads as text exactly when it did before and no path of the merge begins with it |
| `WriteBehind.UnreadAfter` | src/server/gameserver/game/account_manager.cpp:461-466 | an update makes unreadable in memory exactly the text fields its accepted keys reach |
| `ProfileServer.RunInSyncIff` | src/server/gameserver/game/account_manager.cpp:431-505 | over all accounts and the flush loop, overlays and write-through records agree all along a run if and only if every event of it is harmless to every account |
| `ProfileServer.PlainRunInSync` | src/server/gameserver/game/account_manager.cpp:1442-1480 | in every run whose updates have no dotted key under a delayed field or the account name they agree, no flush fails, and a flush leaves every record as the write-through one |
| `ProfileServer.FlushIff` | src/server/gameserver/game/account_manager.cpp:1452-1480 | a flush stores all that waits if and only if no session with waiting values has an unreadable account name, or nothing that waits is new; otherwise the loop ends |
| `ProfileServer.FlushLosesOthers` | src/server/gameserver/game/account_manager.cpp:1442-1480 | a run in which one session's unreadable account name loses another session's look and ends the loop |
| `UpdateCalls.MembersAllowed` | src/server/gameserver/game/account_manager.cpp:434-487 | the 22 keys an update may not name are dropped, and `MapData` is not stored; each member is judged alone and their order stays |
| `UpdateCalls.UpdateDoes` | src/server/gameserver/game/account_manager.cpp:461-490 | a single Appearance, Skill or Game waits; any other update is stored at once, as a whole or, with a key below the account name, not at all, and several fields supersede what waits of those they name |
| `UpdateCalls.FlushDoes` | src/server/gameserver/game/account_manager.cpp:1391-1480 | a flush and the end of a session lay what waits over the record, if the account name can be read, and drop it otherwise |
| `UpdateCalls.CallsDo` | src/server/gameserver/game/chatroom_manager.cpp:613 | a look set by another member waits like one's own |
| `UpdateCalls.EventsDo` | src/server/gameserver/game/account_manager.cpp:431-505 | an update, a login and the end of a session touch their own account only |
| `UpdateCalls.FlushesDo` | src/server/gameserver/game/account_manager.cpp:1442-1480 | a flush touches the sessions it visits, and ends the loop exactly when one of those online has values waiting and an account name that cannot be read |
| `UpdateCalls.NameIs` | src/server/gameserver/game/game_db.cpp:86-89 | a record is stored by the text in `AccountName`, which must not be empty |
| `UpdateCalls.UnreadAre` | src/server/gameserver/game/account.hpp:38-44 | reading `AccountName`, `Name` or `Environment` throws exactly when the field is there and no text |
| `WriteBehind.DressRefines` | src/server/gameserver/game/chatroom_manager.cpp:610-617 | another member's character update is delayed like one's own |
| `Profiles.Keeper.AccountUpdate` | src/server/gameserver/game/account_manager.cpp:431-505 | the handler takes one account's stored and delayed fields and the readability of its name to the update step's, merges into memory, throws exactly when the name was unreadable before, and leaves every other account alone |
| `Profiles.Keeper.Supersede` | src/server/gameserver/game/account_manager.cpp:479-484 | an update of several fields drops the delayed values of those it names, and no others |
| `WriteBehind.ImmutableFieldKept` | src/server/gameserver/game/account_manager.cpp:434-470 | a stored field that no update may name, unless it is an object, survives an update exactly when the update does not write a path beginning with its name; an update that reaches the account name writes nothing |
| `Profiles.ToDress` | src/server/gameserver/game/chatroom_manager.cpp:594-612 | a request dresses only the first member with its id, in the caller's room, if the room does not ban the caller, the look is a list and the caller may |
| `Profiles.DressesIff` | src/server/gameserver/game/chatroom_manager.cpp:594-612 | it dresses a member if and only if all that holds |
| `Profiles.LooksDo` | src/server/gameserver/game/chatroom_manager.cpp:613-615 | dressing sets `Appearance`, and with a pose `ActivePose`, and no other field in memory |
| `Profiles.Keeper.CharacterUpdate` | src/server/gameserver/game/chatroom_manager.cpp:594-619 | exactly that member's appearance is set in memory and delayed, and its pose set in memory; otherwise nothing changes |
| `Profiles.Keeper.UpdateAccountFields` | src/server/gameserver/game/game_db.cpp:86-104 | the members are merged into a stored account; a merged record without a non-empty account name is refused with an exception, an unknown account is not created |
| `Profiles.MergedDoes` | src/server/gameserver/game/game_db.cpp:86-104 | a merged record is stored under the text in its AccountName; without such a text nothing is stored |
| `Profiles.DelaysAre` | src/server/gameserver/game/account_manager.cpp:469-484 | the three optionals of an account and the fields they hold back |
| `Profiles.Keeper.FlushDelayedUpdates` | src/server/gameserver/game/account_manager.cpp:1452-1480 | every session is flushed and every other account untouched, unless a session with waiting values has an unreadable name: then it throws, nothing is stored and the sessions visited have lost what waited |
| `Profiles.Keeper.DelayedUpdateRound` | src/server/gameserver/game/account_manager.cpp:1442-1450 | the loop goes on exactly when no session is stuck, and once ended flushes nothing |
| `Profiles.Keeper.CollectWork` | src/server/gameserver/game/account_manager.cpp:1453-1467 | each visited session's delayed values are taken out once; the collection throws at a session whose name cannot be read and that has some, after taking them |
| `Profiles.Keeper.RemoveAccount` | src/server/gameserver/game/account_manager.cpp:1391-1422 | the end of a session stores what was delayed, unless the account name is unreadable: then it throws and that is lost |
| `LoginQueue.OneAtATimeInOrder` | src/server/gameserver/game/account_manager.cpp:260-311 | in every interleaving, failed logins included, at most one login is served at a time, and logins are taken in order of arrival |
| `LoginQueue.ArrivedIsServed` | src/server/gameserver/game/account_manager.cpp:260-311 | over every run the logins begun, then those waiting, are the logins that have arrived, in order |
| `LoginQueue.ArrivalStarts` | src/server/gameserver/game/account_manager.cpp:260-281 | an arrival raises the flag, and starts a runner exactly if it was down |
| `LoginQueue.RunnerRounds` | src/server/gameserver/game/account_manager.cpp:283-311 | what a runner does next: serve the first, look for more, pause, take again, or end |
| `LoginQueue.ThrowsIff` | src/server/gameserver/game/account_manager.cpp:313-330 | a login throws when, for a client still there, something else fails or the stored password is no text |
| `LoginQueue.FailureIsFinal` | src/server/gameserver/game/account_manager.cpp:283-311 | after a login that throws the flag stays up with no runner and nothing is ever taken again |
| `LoginQueue.WaitsInVain` | src/server/gameserver/game/account_manager.cpp:260-311 | in a reachable state someone waits with no runner if and only if a login has failed and a request has arrived that was not taken by then |
| `LoginQueue.FailureStrands` | src/server/gameserver/game/account_manager.cpp:260-330 | a run in which one login with an unreadable stored password strands the next one |
| `LoginQueue.PasswordStaysText` | src/server/gameserver/game/account_manager.cpp:327 | an account update makes a stored password unreadable exactly when it is written, so does not reach the account name, and has a key whose path begins with it |
| `LoginQueue.TakeNeverFails` | src/server/gameserver/game/account_manager.cpp:283-295 | a runner that takes always finds a request |
| `LoginQueue.Logins.EnqueueLogin` | src/server/gameserver/game/account_manager.cpp:260-281 | arrival, and whether a runner is to be started |
| `LoginQueue.Logins.TakeNext` | src/server/gameserver/game/account_manager.cpp:283-295 | the first request is taken, or the runner ends and lowers the flag |
| `LoginQueue.Logins.LookForMore` | src/server/gameserver/game/account_manager.cpp:300-306 | the runner goes on exactly when someone waits |
| `Trimming.TrimCutsBlanks` | src/server/gameserver/game/chatroom_manager.cpp:33-37 | trimming cuts a blank prefix and a blank suffix and leaves no blank end |
| `Trimming.TrimIs` | src/server/gameserver/game/chatroom_manager.cpp:33-37 | exactly spaces and tabs are cut |
| `RoomNames.UpperTrimIdempotent` | src/server/gameserver/game/chatroom_manager.cpp:24-31 | upper-trimming again, or trimming first, changes nothing |
| `RoomNames.UpperTrimMeets` | src/server/gameserver/game/chatroom_manager.cpp:24-31 | two names are the same if and only if, once trimmed, they have the same letters up to case |
| `Rooms.Shuffled` | src/server/gameserver/game/chatroom_manager.cpp:921-926 | whatever is drawn, a shuffle keeps the members |
| `Rooms.SwapMembers` | src/server/gameserver/game/chatroom_manager.cpp:856-873 | a swap keeps the members |
| `Rooms.Named` | src/server/gameserver/game/chatroom_manager.cpp:526-529 | the room found has the wanted upper-trimmed name; when none is found no room has it |
| `Rooms.FirstMember` | src/server/gameserver/game/chatroom_manager.cpp:876-878 | the first position with that member number, or nobody has it |
| `RoomInvariants.StepKeepsInvariant` | src/server/gameserver/game/chatroom_manager.cpp:293-978 | every sign-in, name-spoiling update, disconnect, create, join, leave and administrator action keeps pointers and lists in agreement if and only if it does not throw between taking its caller off a list and clearing the pointer; lists, rooms and names stay sound in any case |
| `RoomInvariants.RemoveKeeps` | src/server/gameserver/game/chatroom_manager.cpp:293-326 | leaving removes one pointer, keeps everybody else's, and ends a room left empty |
| `RoomInvariants.DepartKeepsIff` | src/server/gameserver/game/chatroom_manager.cpp:293-326 | leaving keeps the agreement if and only if the leaver's name is text or nobody else is in the room |
| `RoomInvariants.SkippedCheckIsHarmless` | src/server/gameserver/game/chatroom_manager.cpp:787-793 | the name check of an update finds a clash exactly when another room has the name, although it is skipped for some names |
| `RoomInvariants.JoinFindsTheOnlyRoom` | src/server/gameserver/game/chatroom_manager.cpp:525-529 | at most one room answers to a name, and the search finds it |
| `RoomInvariants.MembershipAgrees` | src/server/gameserver/game/chatroom_manager.cpp:293-978 | an account points to a room only if the room is alive and lists it, and whoever is listed points back, in all states of a run if and only if none of its calls throws halfway through a leave |
| `RoomInvariants.ListsAlwaysAgree` | src/server/gameserver/game/chatroom_manager.cpp:293-978 | in every state of every run whoever a room lists is online, listed once, by that room only, and points back; every room is in order once, no room is empty, names are pairwise distinct |
| `RoomInvariants.GhostPointer` | src/server/gameserver/game/chatroom_manager.cpp:302-325 | a run of two accounts after which one points to a room that is gone |
| `RoomInvariants.ReorderKeepsMembers` | src/server/gameserver/game/chatroom_manager.cpp:856-926 | swapping, moving and shuffling keep every room's members as a multiset and all properties, and move nobody |
| `RoomInvariants.AdminStays` | src/server/gameserver/game/chatroom_manager.cpp:746-978 | an administrator stays in the room, which the handler goes on using, if and only if the call does not expel the last one the room lists; one the room lists always stays |
| `RoomInvariants.OnlyCallerMoves` | src/server/gameserver/game/chatroom_manager.cpp:293-978 | in every hall a run can reach nobody but the caller changes rooms, except one expelled by an administrator of the same room while both names are text, and whoever still points to a room that the call ends |
| `RoomInvariants.JoinAppends` | src/server/gameserver/game/chatroom_manager.cpp:514-560 | in every hall a run can reach an admitted caller is appended to the one room of that name, within its limit, not banned and with access; one that leaves its old room only halfway gets no further; otherwise nothing changes |
| `RoomInvariants.BannedIsKeptOut` | src/server/gameserver/game/chatroom_manager.cpp:889-899 | after a ban the room, while it lasts, lists the ban and admits nobody with that number; it lasts if it lists the administrator |
| `RoomInvariants.UnbanUndoesBan` | src/server/gameserver/game/chatroom_manager.cpp:963-969 | unbanning restores the hall before the ban of someone absent |
| `RoomInvariants.DemoteUndoesPromote` | src/server/gameserver/game/chatroom_manager.cpp:927-940 | demoting restores the hall before a promotion |
| `RoomInvariants.SwapTwice` | src/server/gameserver/game/chatroom_manager.cpp:856-873 | swapping the same two members twice restores the order |
| `RoomCalls.CallsAreSteps` | src/server/gameserver/game/chatroom_manager.cpp:402-978 | the creates, joins and administrator actions of a run are the calls below |
| `RoomCalls.CreateAnswers` | src/server/gameserver/game/chatroom_manager.cpp:402-466 | the reply to a create request, by the bounds of its form, the session, the names taken and what can be read of the account |
| `RoomCalls.CreateOpens` | src/server/gameserver/game/chatroom_manager.cpp:466-508 | a new room has the form's lists or, for those missing, its creator as only administrator and nobody banned or listed, the limit asked for if the settings allow it, and lets in whom its form says; its creator has left its old room and is alone in it |
| `RoomCalls.CreateRefused` | src/server/gameserver/game/chatroom_manager.cpp:402-478 | a refused request changes nothing; one that throws has left the old room, as far as that goes |
| `RoomCalls.CreatedAdmits` | src/server/gameserver/game/chatroom_manager.cpp:429-552 | an unbanned account of that environment, with space left, joins a new room if and only if its form lets it in: locked, only administrators and the listed; unlocked or neither, everybody; with a list of roles, those of the roles |
| `RoomCalls.JoinAnswers` | src/server/gameserver/game/chatroom_manager.cpp:514-552 | what the room of the name asked for answers, test by test |
| `RoomCalls.JoinRefuses` | src/server/gameserver/game/chatroom_manager.cpp:514-526 | the replies when there is no such room, no session or no name |
| `RoomCalls.JoinEnters` | src/server/gameserver/game/chatroom_manager.cpp:546-552 | whoever is let in has left the old room and is last on the new one's list; on any other answer nothing changes, but that a leave may have stopped halfway |
| `RoomCalls.LeaveLeaves` | src/server/gameserver/game/chatroom_manager.cpp:293-326 | leaving, and the end of a connection, takes the account off its room, and the room away if nobody else is in it; halfway only if others stay and the name is no text |
| `RoomCalls.SessionMarks` | src/server/gameserver/game/account_manager.cpp:461-466 | a session begins outside every room, and an update marks the account whose name or environment it spoils |
| `RoomCalls.AdminRefused` | src/server/gameserver/game/chatroom_manager.cpp:745-763 | nobody but an administrator in the room acts on it, and only reordering may name oneself |
| `RoomCalls.MovesSeat` | src/server/gameserver/game/chatroom_manager.cpp:906-919 | moving left or right exchanges the member with the neighbour on that side, if there is one |
| `RoomCalls.SwapsSeats` | src/server/gameserver/game/chatroom_manager.cpp:856-873 | a swap exchanges the seats of the two members it names, and does nothing unless it names two who are there |
| `RoomCalls.ShufflesSeats` | src/server/gameserver/game/chatroom_manager.cpp:921-926 | an order of the members can come out of a shuffle if and only if it has the same members |
| `RoomCalls.EditsAdmins` | src/server/gameserver/game/chatroom_manager.cpp:927-943 | promoting adds a member to the administrators once, demoting removes it |
| `RoomCalls.EditsWhitelist` | src/server/gameserver/game/chatroom_manager.cpp:944-978 | the whitelist gains or loses a number, present or not |
| `RoomCalls.EditsAbsent` | src/server/gameserver/game/chatroom_manager.cpp:962-978 | someone absent is banned once and unbanned; no other action but those on the whitelist does anything |
| `RoomCalls.Expels` | src/server/gameserver/game/chatroom_manager.cpp:887-905 | a kick puts the member out of its room, a ban lists it first; without both names nobody is put out |
| `RoomCalls.UpdateAnswers` | src/server/gameserver/game/chatroom_manager.cpp:767-793 | the reply to an update, by the bounds of its form and the names of the other rooms |
| `RoomCalls.UpdateRefits` | src/server/gameserver/game/chatroom_manager.cpp:795-826 | what an update makes of a room; whitelist and access stay when the form does not mention them |
| `RoomCalls.UpdatedAdmits` | src/server/gameserver/game/chatroom_manager.cpp:795-826 | an unbanned account of that environment, with space left, joins an updated room if and only if the form lets it in, or the old access if the form speaks of neither |
| `RoomCalls.WithoutParts` | src/server/gameserver/game/chatroom_manager.cpp:928-935 | taking a number off a list takes all its occurrences and keeps the order of the rest |
| `ChatRoomManager.Manager.RoomRemove` | src/server/gameserver/game/chatroom_manager.cpp:293-326 | removal by id from the list and of the room edits the hall as leaving does; without a dictionary it throws, pointer in place, exactly when the name is no text and others stay |
| `ChatRoomManager.Manager.RemoveAccount` | src/server/gameserver/game/account_manager.cpp:1391-1407 | a session's account leaves its room before it goes offline; if leaving throws it stays listed as online |
| `ChatRoomManager.Manager.Spoiled` | src/server/gameserver/game/account_manager.cpp:461-466 | an update that spoils text fields of an account in memory is the step of the hall that marks them |
| `ChatRoomManager.Manager.Leave` | src/server/gameserver/game/chatroom_manager.cpp:562-566 | an online caller leaves its room, throwing exactly when it gets only halfway; an unknown socket changes nothing |
| `ChatRoomManager.Manager.Create` | src/server/gameserver/game/chatroom_manager.cpp:402-512 | the reply is the machine's; on success the new room has the form's properties and its creator as only member, who has left the old room; with a name or environment that is no text the old room is left, as far as that goes, and none is opened |
| `ChatRoomManager.Manager.FindNamed` | src/server/gameserver/game/chatroom_manager.cpp:525-529 | the loop finds the first room of that upper-trimmed name |
| `ChatRoomManager.Manager.Join` | src/server/gameserver/game/chatroom_manager.cpp:514-560 | reply and hall are the machine's, for malformed, unknown, admitted and halfway callers |
| `ChatRoomManager.Manager.Admin` | src/server/gameserver/game/chatroom_manager.cpp:746-978 | every action edits the hall as the machine's; an update is answered |
| `ChatRoomManager.Manager.FindClash` | src/server/gameserver/game/chatroom_manager.cpp:788-793 | the loop over the other rooms finds exactly the clashes |
| `ChatRoomManager.Manager.ShuffleRoom` | src/server/gameserver/game/chatroom_manager.cpp:921-926 | only the order of the room's list changes, as drawn |
| `ChatRoomManager.Manager.Expel` | src/server/gameserver/game/chatroom_manager.cpp:889-908 | the target is listed as banned, for a ban, and leaves the room if both names are text |
| `Payload.EncodePayload` | src/server/gameserver/engineio/eio_protocol.cpp:43-50 | the packets joined by the record separator |
| `Payload.DecodePayload` | src/server/gameserver/engineio/eio_protocol.cpp:52-64 | the non-empty segments between separators, in order |
| `Payload.DecodeEncode` | src/server/gameserver/engineio/eio_protocol.cpp:43-64 | decoding undoes encoding if and only if every packet is non-empty and free of the separator |
| `Payload.ParseEncode` | src/server/gameserver/engineio/eio_protocol.cpp:18-41 | parsing undoes encoding exactly for known packet types and accepts nothing but encodings |
| `Payload.ParsesDigits` | src/server/gameserver/engineio/eio_protocol.cpp:29-41 | exactly texts that begin with a digit from 0 to 6 are packets |
| `Payload.BodyJoins` | src/server/gameserver/engineio/eio_protocol.cpp:43-50 | one character 30 stands between two packets of a body |
| `Connection.EverythingDelivered` | src/server/gameserver/socketio/connection.cpp:62-337 | over every run and for any packets, what polls drained, then what the writers took, then the outbox, is what was pushed, in order |
| `Connection.GivenIsHandedOut` | src/server/gameserver/socketio/connection.cpp:62-337 | over every run, from the events alone: what answers to polls and writes begun have carried, then the outbox, is every packet pushed and every one enqueued before the first disconnect, in order |
| `Connection.EventWakes` | src/server/gameserver/socketio/connection.cpp:62-67 | after such a packet, an upgrade, the first disconnect or the end of a reader no poll or writer is parked |
| `Connection.ClosingIff` | src/server/gameserver/socketio/connection.cpp:204-211 | the connection is closing exactly from the first disconnect on |
| `Connection.PollsConserved` | src/server/gameserver/socketio/connection.cpp:80-99 | every poll that has arrived is parked, about to run or answered |
| `Connection.UpgradesCount` | src/server/gameserver/socketio/connection.cpp:284-294 | every upgrade before the first disconnect has a writer, and the first ends the polls' turn |
| `Connection.PollAnswers` | src/server/gameserver/socketio/connection.cpp:80-99 | the body a poll is answered with: `6` after the upgrade, else all that waits, `1` when closing, or none yet |
| `Connection.WriterRounds` | src/server/gameserver/socketio/connection.cpp:305-336 | a round of a writer by its signals: stop, write the oldest packet, write CLOSE or park |
| `Connection.WritesEnd` | src/server/gameserver/socketio/connection.cpp:313-369 | a write that succeeds lets its writer run again; any other end stops the writers |
| `Connection.ClosingRefuses` | src/server/gameserver/socketio/connection.cpp:69-289 | once closing, a connection takes no packet to enqueue, no upgrade and no other disconnect |
| `Connection.OthersUndisturbed` | src/server/gameserver/socketio/connection.cpp:80-82 | a writer that is cancelled and a poll that arrives concern nobody else |
| `Connection.PollsReceive` | src/server/gameserver/socketio/connection.cpp:80-99 | what clients decode from the poll bodies is what polls drained if and only if every packet drained is non-empty and free of the separator |
| `Connection.PollsTakeNothingAfterUpgrade` | src/server/gameserver/socketio/connection.cpp:80-99 | once upgraded, no poll is answered with packets again |
| `Connection.NobodyWaitsInVain` | src/server/gameserver/socketio/connection.cpp:62-337 | whoever is parked, poll or writer, has nothing to do: no wake-up is lost |
| `Connection.CloseComesLast` | src/server/gameserver/socketio/connection.cpp:94-337 | when a writer or a poll sends CLOSE, everything pushed has been drained by polls or taken by a writer, in that order |
| `Connection.LoneWriterIsNotStopped` | src/server/gameserver/socketio/connection.cpp:305-369 | with one WebSocket a parked writer has not been told to stop |
| `Connection.EioConnection.PushLocked` | src/server/gameserver/socketio/connection.cpp:62-67 | the packet is appended and every wait is woken |
| `Connection.EioConnection.EnqueueEio` | src/server/gameserver/socketio/connection.cpp:69-74 | packets for a closing connection are dropped |
| `Connection.EioConnection.DrainForPoll` | src/server/gameserver/socketio/connection.cpp:80-99 | one round of a poll: the whole outbox as one body, or NOOP, CLOSE or parking |
| `Connection.EioConnection.RunWebsocket` | src/server/gameserver/socketio/connection.cpp:284-294 | the flip to WebSocket mode, refused while closing |
| `Connection.EioConnection.WsWriter` | src/server/gameserver/socketio/connection.cpp:305-336 | one round of the writer: stop, send the oldest packet, send CLOSE or park |
| `Connection.EioConnection.WriteCompleted` | src/server/gameserver/socketio/connection.cpp:313-329 | a failed write and the final CLOSE stop the writer |
| `Connection.EioConnection.DoDisconnect` | src/server/gameserver/socketio/connection.cpp:204-229 | closing happens once and wakes every wait |
| `RateLimiter.Limiter.Dispatch` | src/server/gameserver/socketio/connection.cpp:151-166 | shrinking and zero-padding leave the last `limit` entries; the oldest decides |
| `RateLimiter.LimitIsExact` | src/server/gameserver/socketio/connection.cpp:151-166 | however the limit changes, up to and including the first rejection an event is rejected exactly when it is one too many in the closed window of the last second |
| `RateLimiter.RejectedOverLimit` | src/server/gameserver/socketio/connection.cpp:151-166 | that is: it makes it more than the limit, and more than one, within a thousand milliseconds |
| `RateLimiter.VerdictIff` | src/server/gameserver/socketio/connection.cpp:151-166 | any event, rejections before it included, is judged that exactly if and only if the bucket still has as many events as the limit looks back, or there have been fewer, or the one it should look at is out of the window |
| `RateLimiter.EarlyClockRejects` | src/server/gameserver/socketio/connection.cpp:43-53 | the initial zeros reject the very first event exactly while the clock is in its first window |
| `RateLimiter.RaisedAfterRejection` | src/server/gameserver/socketio/connection.cpp:155-166 | after a rejection, a raised limit lets events through that a count would reject |
| `IpConnections.ClientAddress` | src/server/gameserver/socketio/server.cpp:65-76 | there is always an address to count under |
| `IpConnections.AddressIs` | src/server/gameserver/socketio/server.cpp:65-76 | it is what stands behind the last comma without spaces and tabs around it, or else the peer, or else `unknown` |
| `IpConnections.HopSplit` | src/server/gameserver/socketio/server.cpp:67-69 | every header has such a last part |
| `IpConnections.CountsAgree` | src/server/gameserver/socketio/server.cpp:191-247 | in every interleaving an address has as many times as admitted connections in the server's maps, and is kept exactly while it has one |
| `IpConnections.CountsUntilRemoved` | src/server/gameserver/socketio/server.cpp:191-247 | an admitted connection counts until its session id is removed, so one admitted after that for ever |
| `IpConnections.LimitHolds` | src/server/gameserver/socketio/server.cpp:205-220 | under a fixed limit no address has more connections |
| `IpConnections.RateHolds` | src/server/gameserver/socketio/server.cpp:205-220 | under a fixed rate no closed window of a second holds more than that many of the admissions kept for an address |
| `IpConnections.AdmittedIff` | src/server/gameserver/socketio/server.cpp:205-220 | in every run a connection is let in if and only if its address has fewer connections than the limit, and fewer than the rate or the admission that many back lies more than a second ago |
| `IpConnections.LiveIff` | src/server/gameserver/socketio/server.cpp:191-247 | exactly the connections let in and not removed since count for an address |
| `IpConnections.KeptIsTail` | src/server/gameserver/socketio/server.cpp:205-230 | the times kept of an address are the last of all its admissions |
| `IpConnections.VerdictIff` | src/server/gameserver/socketio/server.cpp:205-230 | from a time on, the rate test agrees with the full history exactly when enough times are kept, or the history is too short, or the admission it should look at is more than a second old |
| `IpConnections.HistorySpacedIff` | src/server/gameserver/socketio/server.cpp:205-230 | under a fixed rate the full history of an address keeps to it exactly when no admission came while fewer times were kept than the rate and the admissions dropped by releases made up for those missing within the last second |
| `IpConnections.ThirdSlipsIn` | src/server/gameserver/socketio/server.cpp:205-230 | a run with three admissions in three milliseconds under a rate of two a second |
| `IpConnections.SocketIoServer.RegisterIpConnection` | src/server/gameserver/socketio/server.cpp:205-220 | admission by count and rate; a rejected address is not kept without times |
| `IpConnections.SocketIoServer.OnConnection` | src/server/gameserver/socketio/server.cpp:191-203 | exactly the admitted connection becomes live |
| `IpConnections.SocketIoServer.RemoveConnection` | src/server/gameserver/socketio/server.cpp:232-247 | a connection gone gives back its count, a rejected one nothing |
| `IpConnections.SocketIoServer.ReleaseIpConnection` | src/server/gameserver/socketio/server.cpp:222-230 | the oldest time goes, and with the last one the address |
| `Flight.OneLeaderPerKey` | src/cache/flight.hpp:29-77 | in every interleaving at most one leader of a key has not given it back |
| `Flight.FollowersShareTheResult` | src/cache/flight.hpp:51-56 | a follower returns its leader's value or error and never reads an unset result |
| `Flight.NobodyIsLeftWaiting` | src/cache/flight.hpp:68-77 | once the leader has returned nobody waits on its call, and a late waiter is woken at once |
| `Flight.ResultIsFinal` | src/cache/flight.hpp:58-77 | a caller's call and its outcome, once known, never change |
| `Flight.ArrivalJoins` | src/cache/flight.hpp:36-49 | who arrives joins the caller that leads its key, or leads a call of its own when there is none |
| `Flight.ReturnsComputed` | src/cache/flight.hpp:51-77 | whatever a caller returns is what the work of its call's leader came to |
| `Flight.CallerSteps` | src/cache/flight.hpp:51-77 | the order of a caller's steps: publish, give the key back, wake; wait unless the result is out, read |
| `Flight.FlightGroup.Begin` | src/cache/flight.hpp:36-49 | a caller joins the flight of its key, or begins one and leads it |
| `Flight.FlightGroup.PublishResult` | src/cache/flight.hpp:68-69 | value or error is set on the call |
| `Flight.FlightGroup.WakeWaiters` | src/cache/flight.hpp:74-77 | every waiter is woken and the leader returns its own result |
| `Flight.FlightGroup.ReadResult` | src/cache/flight.hpp:52-55 | a follower reads the error, else the value |
| `CacheStore.RunKeepsSound` | src/cache/leveldb_store.cpp:207-375 | over every sequence of operations metadata and bodies come in pairs, sizes are true and a seeded hint is at least the true total |
| `CacheStore.BudgetHolds` | src/cache/leveldb_store.cpp:297-349 | after enforcing a positive budget the bodies fit it, also when the hint made the scan unnecessary |
| `CacheStore.EvictsOldest` | src/cache/leveldb_store.cpp:306-348 | in every run an eviction keeps both records of what it keeps, drops nothing last used after anything kept, and without the most recently used entry dropped the bodies would not fit; the last use is read off the operations: the last touch or access time put with the entry, or its storing time when that is 0 |
| `CacheStore.StoredAsGiven` | src/cache/leveldb_store.cpp:207-264 | in every run the access time, the storing time and the body of an entry are those last given for its key |
| `CacheStore.OpsDo` | src/cache/leveldb_store.cpp:207-375 | what a put, a touch, a revalidation, an expiry, a clear and a reopening do to the records and the hint |
| `CacheStore.EnforceDoes` | src/cache/leveldb_store.cpp:297-349 | a budget evicts exactly when the bodies exceed it and no hint says otherwise; after a scan the hint is the true total |
| `CacheStore.TotalPut` | src/cache/leveldb_store.cpp:207-226 | an overwrite replaces the old size, so adding the new one to the hint can only overcount |
| `CacheStore.LevelDbStore.PutEntry` | src/cache/leveldb_store.cpp:207-231 | body and metadata are written together and a seeded hint grows by the size |
| `CacheStore.LevelDbStore.Update` | src/cache/leveldb_store.cpp:240-264 | the callers' edits change one entry's metadata, never its size |
| `CacheStore.LevelDbStore.ExpireMatching` | src/cache/leveldb_store.cpp:351-375 | exactly the matching entries get the expiry, and their number is returned |
| `CacheStore.LevelDbStore.EnforceMaxSize` | src/cache/leveldb_store.cpp:297-349 | the fast path changes nothing; the scan corrects the hint; eviction drops oldest entries only, and one fewer would not do |
| `CacheStore.LevelDbStore.Scan` | src/cache/leveldb_store.cpp:309-325 | every entry is a candidate once, and the total is the sum of the sizes |
| `CacheStore.LevelDbStore.Choose` | src/cache/leveldb_store.cpp:332-345 | the eviction loop stops at the first total within the budget |
| `CacheStore.Sort` | src/cache/leveldb_store.cpp:332-333 | a permutation ordered by last access |
| `Glob.GlobMatch` | src/cache/router.cpp:101-103 | true exactly when the text is in the language of the pattern's tokens |
| `GlobText.StarMeans` | src/cache/router.cpp:54-62 | a leading star takes any run without a slash; the empty pattern matches the empty text |
| `GlobText.MarkMeans` | src/cache/router.cpp:63-66 | a question mark takes one character that is no slash |
| `GlobText.CharMeans` | src/cache/router.cpp:80-89 | a character that is not special, or behind a backslash, takes itself |
| `GlobText.ClassMeans` | src/cache/router.cpp:17-48 | a closed class takes one character, a slash included, that one of its elements covers, or with `!` or `^` one that none does; ranges include both ends and compare signed bytes |
| `GlobText.OpenMeans` | src/cache/router.cpp:67-78 | a bracket that no class closes takes itself |
| `GlobText.ItemsAreSpelled` | src/cache/router.cpp:26-47 | whatever is read as the inside of a class is spelled as characters and ranges in that way |
| `Glob.GlobHere` | src/cache/router.cpp:50-92 | the backtracking loop decides what is left of the pattern on what is left of the text, and terminates |
| `Glob.TryStar` | src/cache/router.cpp:54-62 | a star is decided by trying every position up to the next slash |
| `Glob.MatchClass` | src/cache/router.cpp:17-48 | where a class ends, whether it is closed, and whether it takes the character |
| `Glob.MatchesIsLanguage` | src/cache/router.cpp:50-92 | matching token by token is splitting the text into one accepted piece for each token |
| `Glob.SlashesAgree` | src/cache/router.cpp:50-92 | what a class-free pattern matches has as many slashes as the pattern |
| `Glob.NothingMatchesIff` | src/cache/router.cpp:17-92 | no byte text matches a pattern if and only if one of its tokens fits no byte |
| `Glob.SlashesFixedIff` | src/cache/router.cpp:17-92 | all byte texts of a pattern have as many slashes if and only if some token fits no byte, or every class takes nothing but a slash or no slash |
| `Glob.NegatedClassVaries` | src/cache/router.cpp:17-48 | `[!a]` matches both a slash and another character |
| `Glob.PlainClassFixed` | src/cache/router.cpp:17-48 | `[a]` has a class and a fixed slash count |
| `Glob.StarsCollapse` | src/cache/router.cpp:54-62 | two adjacent star tokens mean one, anywhere among the tokens |
| `Glob.TokenRemoved` | src/cache/router.cpp:50-92 | without the character at which a token begins, the text of a pattern has the tokens before it followed by those of the text behind it, if and only if no unclosed bracket before it gets closed |
| `Glob.StarsCollapseInText` | src/cache/router.cpp:54-62 | under that condition one of two adjacent stars in the text of a pattern may go |
| `Glob.BracketCloses` | src/cache/router.cpp:17-48 | a pattern in which the condition fails, and a text that tells the two patterns apart |
| `Glob.PlainMatchesItself` | src/cache/router.cpp:84-89 | a pattern without special characters matches only itself |
| `TrafficStats.RecordAgrees` | src/cache/traffic_stats.cpp:44-74 | recording keeps each host equal to the sum of its resources, the hosts equal to all requests since the reset, and the rows bounded |
| `TrafficStats.CountersAgree` | src/cache/traffic_stats.cpp:44-123 | in every run each host's numbers are the sums over its resources, the hosts add up to all requests since the last reset, at most 513 hosts are kept and one resource per host more than the cap |
| `TrafficStats.OutcomesOf` | src/cache/traffic_stats.cpp:34-42 | which statuses count as hit, revalidated, miss, uncached, stale and bypass |
| `TrafficStats.HostsTallied` | src/cache/traffic_stats.cpp:44-59 | in every run the hosts' rows are those the requests with a host since the last reset leave, with room for 512 |
| `TrafficStats.ResourcesTallied` | src/cache/traffic_stats.cpp:61-73 | and so are each host's rows of resources, among the requests that go to that host's row |
| `TrafficStats.RowsExact` | src/cache/traffic_stats.cpp:51-70 | a row has exactly the requests and bytes of its key, and `(other)` also those of the keys without a row |
| `TrafficStats.TalliedPlaced` | src/cache/traffic_stats.cpp:51-68 | a key is without a row only if it came when the rows were full |
| `TrafficStats.RecordsLast` | src/cache/traffic_stats.cpp:61-73 | a resource's row has the last positive status and the last time |
| `TrafficStats.TrafficCollector.Record` | src/cache/traffic_stats.cpp:44-74 | requests without a host are ignored, negative sizes count as zero, everything else is counted in its row |
| `TrafficStats.TrafficCollector.SnapshotTotal` | src/cache/traffic_stats.cpp:76-96 | the total of every outcome is that of all accepted requests since the reset |
| `TrafficStats.TrafficCollector.Detail` | src/cache/traffic_stats.cpp:98-117 | the rows shown for a host add up to its total |
| `TrafficStats.TrafficCollector.Reset` | src/cache/traffic_stats.cpp:119-123 | nothing is left of what was counted |
| `Base64.Encode` | src/common/base64.cpp:18-48 | the digits of the bytes, six bits at a time, spelled in the alphabet and padded |
| `Base64.EncodingIsRadix64` | src/common/base64.cpp:18-48 | the digits are the bytes' number in radix 64 after the completing zero bits, and the length is a multiple of four (section 4 of RFC 4648) |
| `Base64.AlphabetIs` | src/common/base64.cpp:8 | which character stands for a digit, by its code (section 4 of RFC 4648) |
| `Base64.EncodedSpells` | src/common/base64.cpp:18-48 | the digits, one character each, then as many equals signs as complete four |
| `Base64.ReadsOne` | src/common/base64.cpp:50-59 | decoding stops at an equals sign and skips every other character that stands for no digit |
| `Base64.DecodingIsRadix64` | src/common/base64.cpp:50-67 | a text decodes to the number its digits spell, without the last bits that make no byte |
| `Base64.Decode` | src/common/base64.cpp:50-67 | the bytes of the digits read, although the accumulator wraps at 32 bits |
| `Base64.ShiftKeepsLowBits` | src/common/base64.cpp:60-66 | the bits lost by wrapping never reach a byte |
| `Base64.DecodeEncode` | src/common/base64.cpp:18-67 | decoding undoes encoding for byte strings of any length |
| `Base64.NoiseIsSkipped` | src/common/base64.cpp:57-59 | a character outside the alphabet other than padding, inserted anywhere, changes nothing |
| `Password.ConstantTimeEqual` | src/server/gameserver/game/password.cpp:52-58 | gathering differences with XOR and OR decides equality |
| `Password.BitsApart` | src/server/gameserver/game/password.cpp:52-58 | the two gathering operations act on each binary digit by itself |
| `Password.SplitOn` | src/server/gameserver/game/password.cpp:60-71 | the parts between separators, empty ones included |
| `Password.StoiDecimal` | src/server/gameserver/game/password.cpp:84-95 | the decimal text of a count reads back as the count |
| `Password.StoiReads` | src/server/gameserver/game/password.cpp:91-95 | white space, a sign and digits, whatever follows, read as the number the digits spell, if it fits 32 bits |
| `Password.StoiNeeds` | src/server/gameserver/game/password.cpp:91-95 | and no other text reads as a number |
| `Password.ParseHashed` | src/server/gameserver/game/password.cpp:75-101 | parsing a stored password gives back its iteration count, salt and hash |
| `Password.VerifiesHashed` | src/server/gameserver/game/password.cpp:75-103 | a password verifies against another's hash exactly when both derive the same bytes; so its own always does |
| `Password.HashedText` | src/server/gameserver/game/password.cpp:75-86 | the stored text: `pbkdf2`, the count or 100000, the salt and the derived bytes between dollar signs |
| `Password.VerifiesIff` | src/server/gameserver/game/password.cpp:88-103 | a text of four fields is accepted exactly if the second reads as a positive number, the next two decode to some bytes, and the last to those derived from the password |
| `Password.VerifiesNeeds` | src/server/gameserver/game/password.cpp:88-90 | no text of another shape is accepted |
| `Password.HashPassword` | src/server/gameserver/game/password.cpp:75-86 | the stored text is the four fields joined, with the default count for a non-positive one |
| `Password.VerifyPassword` | src/server/gameserver/game/password.cpp:88-103 | malformed text is refused and everything else decided by the derived bytes |
| `Text.SplitJoin` | src/server/gameserver/game/password.cpp:60-86 | splitting undoes joining for parts without the separator |
| `Text.JoinSplit` | src/common/json_merge.cpp:15-27 | joining undoes splitting for any text |

## Left out

- LovershipIsSymmetric, MemoryRefinesDisk: hold with the database writes of a call done at once and the background halves of Break and of Release away as one step with their handler; the interleavings of those halves with other calls are not modelled.
- WeddingHistory: allows the other side the clock skew inside one call, because the code falls short by it (`SkewIsTight`, `FullWaitIff`), and says exactly when a stage was skipped, because the code can skip one (`WedUnengaged`); clocks are parameters that never run back.
- OneAtATimeInOrder: what a login reads is a parameter of the step that ends it; the reply to the client and the session it opens are modelled in `AccountManager` only.
- CharacterUpdate: whom the caller may dress (`get_allow_item`) is a parameter, and the accounts of a room are taken to be online; the room's notification is left out.
- LimitIsExact: reaches up to the first rejection, where the connection is closed; after it the count need not be exact (`RaisedAfterRejection`), and `VerdictIff` says when it is.
- RunRefines: asks each call to be harmless, because the code loses others (`DottedUpdateLost`, `NamedUpdateLost`); `ServeRefines` gives the exact condition for each call. Database writes are done at once and in order here, while `update_account_fields` is an unsynchronised read-modify-write that runs on a pool of at least four threads, so that two updates of one record can overtake or undo each other.
- LoginAccount: a login is one step; the code waits several times between reading the record and entering `by_member`, so a break by the other side in between leaves the new session with a stale list.
- PasswordStaysText: speaks of account updates only; a password reset writes text.
- Profiles.Keeper.RemoveAccount: is what follows once the account has left its room; if that throws (`ChatRoomManager.Manager.RemoveAccount`) the session stays, with all that waits.
- PollsReceive: a client decodes what a poll drained only for packets that are non-empty and free of the record separator, the exact condition of `DecodeEncode`.
- CloseComesLast: a packet taken by a writer whose write then failed counts as taken.
- Connection: sections between suspension points are atomic, as the strand is meant to make them.
- MembershipAgrees: asks that no call follows a pointer to a room that is gone, because what it does then is undefined. The end of a session is one step here; the code locks once to find the account, again to leave the room and a third time to take it offline, and another call of the same socket may come in between.
- NobodyIsLeftWaiting: a follower whose own coroutine is cancelled while it waits is not modelled.
- RunKeepsSound: store operations do not overlap; the invariant does not survive a put inside an enforcement.
- JsonMerge.Document.Walk: the mutable pointer is a stack of the objects left behind on the way down, rebuilt at the end; aliasing inside one document is not modelled.
- Rooms: member lists of properties (administrators, bans, whitelist) hold numbers only; entries of other JSON types, which never match, are dropped. Descriptions, backgrounds and the other properties no decision reads are not kept.
- Room ids and session ids are random in the code and taken to be unused in the model; one session per account and one account per socket are assumed.
- Shuffle and the password salt are driven by a given sequence of draws; no distribution is claimed.
- LovershipIsSymmetric, MemoryRefinesDisk, FullCollarHistory and the other theorems about relationship runs: hold while no update rewrites a record (`Rewrite`), because a client can write anything there (`RewriteDisagrees`, `ImmutableFieldKept`); in place, the typed relationship fields of an account are not those of its document.
- Relationship entries with non-player characters, matched by name, are not modelled.
- Updates that reach MemberNumber, by which the account acts as number 0 from then on (`account.hpp:39-43`), are not modelled, nor those that reach BlackList, WhiteList, Difficulty or other fields handlers read; of the text fields, only AccountName, Name and Environment are.
- The account database's member-number index and counter are not modelled; records are reached by member number or by name directly.
- Notifications and socket emissions are not modelled, except the replies to create, join and update, and the packets of the outbox.
- Integers of the source are 64-bit and do not overflow here; the Base64 accumulator and the password iteration count are the exceptions and are modelled at their width.
- Characters are single bytes; glob ranges compare them as signed, as on the platforms where `char` is signed; letter case is ASCII.
- The derivation of password hashes is a parameter; LevelDB is a pair of maps; timers, sockets and threads appear only as the order of steps.
- Rows of the traffic snapshot are not ordered by request count here, and the cache's `versions` and `stats` scans are left out as easy.
- The reverse-proxy provider, URL and date parsing, regular-expression rules, configuration, desktop and Android hosts are not modelled.
