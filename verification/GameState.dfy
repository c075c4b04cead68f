/** The in-memory objects the account and chat-room handlers share. */
module GameState {
  import opened Options
  import opened Lovers
  import opened Relationships
  import opened JsonMerge
  import opened AccountFields

  /**
   A logged-in account. The fields the relationship and room handlers interpret are typed here; `data` is
   the rest of the account. The constants are fields no handler assigns. But an update can turn a text
   field into an object, and then reading it throws: `unread` has the names of those fields.
   */
  class OnlineAccount {
    const id: string
    const accountName: string
    const member: int
    const name: string
    const environment: string
    const data: Document
    var unread: set<string>
    var delayedAppearance: Option<Json>
    var delayedSkill: Option<Json>
    var delayedGame: Option<Json>
    var blackList: seq<int>
    var difficulty: Option<int>
    var owner: string
    var ownership: Ownership
    var lovers: seq<Lover>
    var chatRoom: ChatRoom?

    /** A session's account, as loaded from its stored record. */
    constructor (id: string, accountName: string, member: int, name: string, environment: string,
                 profile: Json, blackList: seq<int>, difficulty: Option<int>, stored: Ties)
      ensures this.id == id && this.accountName == accountName && this.member == member && this.name == name
      ensures this.environment == environment && this.blackList == blackList && this.difficulty == difficulty
      ensures fresh(data) && data.root == profile && unread == UnreadIn(profile)
      ensures delayedAppearance == delayedSkill == delayedGame == None
      ensures owner == stored.owner && ownership == stored.ownership && lovers == stored.lovers && chatRoom == null
    {
      this.id, this.accountName, this.member, this.name := id, accountName, member, name;
      this.environment, this.blackList, this.difficulty := environment, blackList, difficulty;
      data := new Document(profile);
      unread := UnreadIn(profile);
      delayedAppearance, delayedSkill, delayedGame := None, None, None;
      owner, ownership, lovers := stored.owner, stored.ownership, stored.lovers;
      chatRoom := null;
    }
  }

  /** A chat room: its properties and its ordered member list. */
  class ChatRoom {
    const id: string
    const environment: string
    var name: string
    var limit: int
    var admin: seq<int>
    var ban: seq<int>
    var whitelist: seq<int>
    var access: seq<string>
    var accounts: seq<OnlineAccount>

    constructor (id: string, environment: string, name: string, limit: int, admin: seq<int>, ban: seq<int>,
                 whitelist: seq<int>, access: seq<string>)
      ensures this.id == id && this.environment == environment && this.name == name && this.limit == limit
      ensures this.admin == admin && this.ban == ban && this.whitelist == whitelist && this.access == access
      ensures accounts == []
    {
      this.id, this.environment, this.name, this.limit := id, environment, name, limit;
      this.admin, this.ban, this.whitelist, this.access := admin, ban, whitelist, access;
      accounts := [];
    }
  }

  /** The first account in the room with that member number, if any. */
  method FindInRoom(room: ChatRoom, member: int) returns (found: OnlineAccount?)
    ensures found != null ==> found in room.accounts && found.member == member
    ensures found == null ==> forall a :: a in room.accounts ==> a.member != member
  {
    var i := 0;
    while i < |room.accounts|
      invariant i <= |room.accounts|
      invariant forall k :: 0 <= k < i ==> room.accounts[k].member != member
    {
      if room.accounts[i].member == member {
        return room.accounts[i];
      }
      i := i + 1;
    }
    found := null;
  }
}
