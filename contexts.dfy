/**
 * The bot's per-chat state: a context holds the chat's salt, its proposal
 * sequence number and the current proposal with its ballot. A context in
 * memory also owns a mutex; the stored record is the context without it.
 */
module Contexts {
  import opened Wrappers
  import opened OrderedMaps

  /** Telegram chat, user and message identifiers. */
  type ChatId = int
  type UserId = int
  type MessageId = int

  /** A calendar date, as days since 1970-01-01 in the bot's local time zone. */
  type Day = int

  /** The identity of an `async-mutex` object. */
  type MutexId = nat

  /**
   * The votes on a proposal: acceptors and rejecters in voting order with
   * the title each had when voting, and the acceptors who bring a guest.
   */
  datatype Ballot = Ballot(
    accepts: OrderedMap<UserId, string>,
    rejects: OrderedMap<UserId, string>,
    withGuests: set<UserId>)
  {
    /** No user both accepts and rejects; only acceptors bring guests. */
    ghost predicate Consistent()
    {
      && accepts.values.Keys !! rejects.values.Keys
      && withGuests <= accepts.values.Keys
    }
  }

  /** The ballot of a proposal nobody has voted on yet. */
  function EmptyBallot(): (b: Ballot)
    ensures b.Consistent()
    ensures |b.accepts.keys| == 0 && |b.rejects.keys| == 0 && b.withGuests == {}
  {
    Ballot(Empty(), Empty(), {})
  }

  /**
   * A proposal: the date of the get-together, the question shown, the
   * ballot, whether voting is closed, whether the message is pinned, and
   * the message that carries it once it has been sent.
   */
  datatype Proposal = Proposal(
    when: Day,
    question: string,
    ballot: Ballot,
    closed: bool,
    pinned: bool,
    messageId: Option<MessageId>)

  /** A context as written to `<chatId>.json`. */
  datatype Record = Record(chatId: ChatId, salt: string, sequence: nat, proposal: Option<Proposal>)

  /** A context in memory. */
  datatype Context = Context(
    chatId: ChatId,
    salt: string,
    sequence: nat,
    proposal: Option<Proposal>,
    mutex: Option<MutexId>)
  {
    /** The context without its mutex, which is what is persisted. */
    function Stripped(): (r: Record)
      ensures r.chatId == chatId && r.salt == salt && r.sequence == sequence && r.proposal == proposal
    {
      Record(chatId, salt, sequence, proposal)
    }
  }
}
