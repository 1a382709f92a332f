/** The value types shared by the dispatch engine: identities, users, and the lists a queue
    operation hands back to its caller. */
module Types {
  // Counters the server keeps in sixteen bits: an agent's load and capacity, a queue position.
  type uint16 = x: int | 0 <= x < 0x1_0000

  const UINT64_LIMIT: nat := 0x1_0000_0000_0000_0000

  function Inc16(x: uint16): uint16 {
    (x + 1) % 0x1_0000
  }

  function Dec16(x: uint16): uint16 {
    (x - 1) % 0x1_0000
  }

  /** A login: the account number, and which of the account's simultaneous logins it is. */
  datatype Umid = Umid(uin: nat, multpt: nat)

  datatype User = User(id: Umid, address: nat)

  datatype AgentState = Available | Inviting | Refused

  datatype UserInfo = UserInfo(mid: Umid, position: nat)

  datatype AgentInfo = AgentInfo(mid: Umid, name: string)

  datatype UserConversation = UserConversation(mid: Umid, conversationId: nat)

  datatype ConversationInfo = ConversationInfo(
    conversationId: nat, agent: Umid, agentName: string, user: Umid, userAddress: nat)

  datatype Option<+T> = None | Some(value: T)
}
