/**
 * The bot's handlers over the context store: the vote and propose
 * callbacks, sending and closing proposals, and the heartbeat's three
 * sweeps (pin, close, auto-propose).
 *
 * Telegram calls are not made; each operation returns the requests it
 * would issue, in order, and the message id that `sendAnimation` answers
 * with (or none, when the call fails) is a parameter.
 */
module Server {
  import opened Wrappers
  import opened OrderedMaps
  import opened Helpers
  import opened Contexts
  import opened Storage
  import opened Proposals
  import opened Schedule

  /** The configuration the core reads. */
  datatype Config = Config(quorumSize: int, questions: seq<string>, animations: seq<string>, userUnknown: string)

  /**
   * What comes from libraries: the hash, `date.format('YYYY-MM-DD')`, and
   * the substitution of a date into a question template's `{{format}}`.
   */
  datatype Env = Env(sha: Sha256, formatDate: Day -> string, formatQuestion: (string, Day) -> string)

  /** A Telegram Bot API call. */
  datatype Request =
    | SendAnimation(chatId: ChatId, animation: Option<string>, caption: Message, silent: bool)
    | EditCaption(chatId: ChatId, messageId: Option<MessageId>, caption: Message)
    | PinMessage(chatId: ChatId, messageId: Option<MessageId>)
    | UnpinMessage(chatId: ChatId, messageId: Option<MessageId>)

  /** `${item}` for a string item. */
  function Show(s: string): string
  {
    s
  }

  function MessageIdOf(c: Context): Option<MessageId>
  {
    if c.proposal.Some? then c.proposal.value.messageId else None
  }

  // ---------------------------------------------------------------------
  // Closing

  /** The context after `maybeCloseProposal`: its proposal, if any, is closed. */
  function Closed(c: Context): (r: Context)
    ensures r == c <==> c.proposal.None? || c.proposal.value.closed
    ensures r.proposal.Some? <==> c.proposal.Some?
    ensures r.proposal.Some? ==> r.proposal.value.closed
    ensures r.(proposal := c.proposal) == c
    ensures r.proposal.Some? ==> r.proposal.value.(closed := c.proposal.value.closed) == c.proposal.value
  {
    match c.proposal
    case None => c
    case Some(p) => c.(proposal := Some(p.(closed := true)))
  }

  /** The requests `maybeCloseProposal` issues: unpin, then the caption without buttons. */
  function CloseRequests(c: Context, cfg: Config, env: Env): (r: seq<Request>)
    ensures r == [] <==> Closed(c) == c
    ensures r != [] ==>
      && |r| == 2 && r[0] == UnpinMessage(c.chatId, MessageIdOf(c))
      && r[1].EditCaption? && r[1].chatId == c.chatId && r[1].messageId == MessageIdOf(c)
      && !r[1].caption.keyboard && r[1].caption.question == c.proposal.value.question
  {
    if c.proposal.None? || c.proposal.value.closed then []
    else
      var p := Closed(c).proposal.value;
      [UnpinMessage(c.chatId, p.messageId), EditCaption(c.chatId, p.messageId, GetProposalMessage(p, cfg.quorumSize, env.sha))]
  }

  /**
   * The caption edit shows the closed proposal: the same question and
   * ballot, rendered without buttons.
   */
  lemma CloseRequestsCaption(c: Context, cfg: Config, env: Env)
    requires CloseRequests(c, cfg, env) != []
    ensures CloseRequests(c, cfg, env)[1].caption == GetProposalMessage(Closed(c).proposal.value, cfg.quorumSize, env.sha)
    ensures Closed(c).proposal.value == c.proposal.value.(closed := true)
  {
  }

  /** Closing twice is closing once, and the second time issues nothing. */
  lemma CloseIdempotent(c: Context, cfg: Config, env: Env)
    ensures Closed(Closed(c)) == Closed(c)
    ensures CloseRequests(Closed(c), cfg, env) == []
  {
  }

  /** `maybeCloseProposal(context)` on the stored context of its chat. */
  method MaybeCloseProposal(store: ContextStore, c: Context, cfg: Config, env: Env) returns (r: Context, requests: seq<Request>)
    requires store.Valid()
    requires c.chatId in store.contexts.values && store.contexts.values[c.chatId] == c
    modifies store
    ensures store.Valid() && store.mutexCount == old(store.mutexCount)
    ensures r == Closed(c) && requests == CloseRequests(c, cfg, env)
    ensures store.contexts.keys == old(store.contexts.keys)
    ensures store.contexts.values == old(store.contexts.values)[c.chatId := r]
    ensures store.files == Persist(old(store.files), c, r)
  {
    if c.proposal.None? || c.proposal.value.closed {
      return c, [];
    }
    r := Closed(c);
    var _ := store.PushContext(r);
    requests := CloseRequests(c, cfg, env);
  }

  // ---------------------------------------------------------------------
  // Sending

  /**
   * The proposal `sendProposal` builds for date `when`: the question
   * template is picked with the next sequence number; none when there are
   * no templates.
   */
  function NewProposal(c: Context, when: Day, cfg: Config, env: Env): (r: Option<Proposal>)
    ensures r.Some? <==> |cfg.questions| > 0
    ensures r.Some? ==>
      && r.value.when == when && r.value.ballot == EmptyBallot()
      && !r.value.closed && !r.value.pinned && r.value.messageId.None?
      && exists template :: template in cfg.questions && r.value.question == env.formatQuestion(template, when)
  {
    match PickShuffledItem(cfg.questions, c.sequence + 1, c.salt, Show, env.sha)
    case None => None
    case Some(template) => Some(Proposal(when, env.formatQuestion(template, when), EmptyBallot(), false, false, None))
  }

  /** The animation `sendProposal` attaches: picked with the current sequence number. */
  function ProposalAnimation(c: Context, cfg: Config, env: Env): (r: Option<string>)
    ensures r.Some? <==> |cfg.animations| > 0
    ensures r.Some? ==> r.value in cfg.animations
  {
    PickShuffledItem(cfg.animations, c.sequence, c.salt, Show, env.sha)
  }

  /**
   * The context after `sendProposal(c, when)` when `sendAnimation` answers
   * with `sent`: on success the sequence number steps by one and the new
   * proposal, carrying the sent message's id, replaces the old one; on any
   * failure the old proposal has only been closed.
   */
  function SendResult(c: Context, when: Day, sent: Option<MessageId>, cfg: Config, env: Env): (r: Context)
    ensures r.chatId == c.chatId && r.salt == c.salt && r.mutex == c.mutex
    ensures |cfg.questions| > 0 && sent.Some? ==>
      && r.sequence == c.sequence + 1
      && r.proposal == Some(NewProposal(c, when, cfg, env).value.(messageId := sent))
    ensures !(|cfg.questions| > 0 && sent.Some?) ==> r == Closed(c)
  {
    var closed := Closed(c);
    match NewProposal(c, when, cfg, env)
    case None => closed
    case Some(p) =>
      if sent.None? then closed
      else closed.(sequence := c.sequence + 1, proposal := Some(p.(messageId := sent)))
  }

  /**
   * The template the current proposal of a context was made from, when a
   * send made it: the pick with the context's own sequence number.
   */
  function AskedTemplate(d: Context, cfg: Config, env: Env): Option<string>
  {
    PickShuffledItem(cfg.questions, d.sequence, d.salt, Show, env.sha)
  }

  /** A successful send asks the question picked with the new sequence number. */
  lemma SendAsks(c: Context, when: Day, sent: Option<MessageId>, cfg: Config, env: Env)
    requires |cfg.questions| > 0 && sent.Some?
    ensures var r := SendResult(c, when, sent, cfg, env);
      && r.chatId == c.chatId && r.salt == c.salt && r.sequence == c.sequence + 1
      && AskedTemplate(r, cfg, env) == PickShuffledItem(cfg.questions, c.sequence + 1, c.salt, Show, env.sha)
      && r.proposal.Some? && r.proposal.value.when == when && r.proposal.value.messageId == sent
      && r.proposal.value.question == env.formatQuestion(AskedTemplate(r, cfg, env).value, when)
  {
  }

  /** A successful send attaches the animation picked with the old sequence number. */
  lemma SendAnimates(c: Context, when: Day, silent: bool, cfg: Config, env: Env)
    requires |cfg.questions| > 0
    ensures var requests := SendRequests(c, when, silent, cfg, env);
      && requests != [] && requests[|requests| - 1].SendAnimation?
      && requests[|requests| - 1].animation == PickShuffledItem(cfg.animations, c.sequence, c.salt, Show, env.sha)
  {
    SendRequestsShape(c, when, silent, cfg, env);
  }

  /**
   * The context after sends `0` to `i` in a series of successful sends from
   * `c`: send `k` is for date `whens[k]`, and `sendAnimation` answers it
   * with message id `ids[k]`.
   */
  function AfterSends(c: Context, whens: seq<Day>, ids: seq<MessageId>, i: nat, cfg: Config, env: Env): Context
    requires |whens| == |ids| && i < |whens|
  {
    var before := if i == 0 then c else AfterSends(c, whens, ids, i - 1, cfg, env);
    SendResult(before, whens[i], Some(ids[i]), cfg, env)
  }

  /**
   * `d` is the context after `k` successful sends from `c`, the last for
   * date `when` answered with `id`: it carries sequence number
   * `c.sequence + k` and asks the template picked with that number.
   */
  ghost predicate SentAs(d: Context, c: Context, k: nat, when: Day, id: MessageId, cfg: Config, env: Env)
  {
    && |cfg.questions| > 0
    && d.chatId == c.chatId && d.salt == c.salt && d.sequence == c.sequence + k
    && d.proposal.Some? && d.proposal.value.when == when && d.proposal.value.messageId == Some(id)
    && d.proposal.value.question == env.formatQuestion(AskedTemplate(d, cfg, env).value, when)
  }

  /** The first send of a series is the first after `c`. */
  lemma AfterFirstSend(c: Context, whens: seq<Day>, ids: seq<MessageId>, cfg: Config, env: Env)
    requires |whens| == |ids| && |cfg.questions| > 0 && 0 < |whens|
    ensures SentAs(AfterSends(c, whens, ids, 0, cfg, env), c, 1, whens[0], ids[0], cfg, env)
  {
    SendAsks(c, whens[0], Some(ids[0]), cfg, env);
  }

  /** Send `i` of a series follows the `i` sends before it. */
  lemma AfterNextSend(c: Context, whens: seq<Day>, ids: seq<MessageId>, i: nat, cfg: Config, env: Env)
    requires |whens| == |ids| && |cfg.questions| > 0 && 0 < i < |whens|
    requires SentAs(AfterSends(c, whens, ids, i - 1, cfg, env), c, i, whens[i - 1], ids[i - 1], cfg, env)
    ensures SentAs(AfterSends(c, whens, ids, i, cfg, env), c, i + 1, whens[i], ids[i], cfg, env)
  {
    SendAsks(AfterSends(c, whens, ids, i - 1, cfg, env), whens[i], Some(ids[i]), cfg, env);
  }

  /** Send `i` of a series carries sequence number `c.sequence + i + 1` and asks the template picked with it. */
  lemma AfterSendsPicks(c: Context, whens: seq<Day>, ids: seq<MessageId>, i: nat, cfg: Config, env: Env)
    requires |whens| == |ids| && |cfg.questions| > 0 && i < |whens|
    ensures SentAs(AfterSends(c, whens, ids, i, cfg, env), c, i + 1, whens[i], ids[i], cfg, env)
  {
    AfterFirstSend(c, whens, ids, cfg, env);
    var k := 0;
    while k < i
      invariant k <= i
      invariant SentAs(AfterSends(c, whens, ids, k, cfg, env), c, k + 1, whens[k], ids[k], cfg, env)
    {
      AfterNextSend(c, whens, ids, k + 1, cfg, env);
      k := k + 1;
    }
  }

  /**
   * The sends whose sequence numbers fall in one round (`r*n` to `r*n+n-1`
   * for `n` templates) ask every configured question: `template` is asked
   * by one of them.
   */
  lemma SendRoundAsksEveryQuestion(c: Context, whens: seq<Day>, ids: seq<MessageId>, cfg: Config, env: Env, round: nat, template: string)
    requires |whens| == |ids| && template in cfg.questions
    requires c.sequence + 1 <= round * |cfg.questions|
    requires round * |cfg.questions| + |cfg.questions| <= c.sequence + 1 + |whens|
    ensures exists i :: (0 <= i < |whens|
      && AfterSends(c, whens, ids, i, cfg, env).sequence / |cfg.questions| == round
      && AskedTemplate(AfterSends(c, whens, ids, i, cfg, env), cfg, env) == Some(template))
  {
    var n := |cfg.questions|;
    PickRoundCoversItems(cfg.questions, round, c.salt, Show, env.sha, template);
    var index: nat :| index / n == round && PickShuffledItem(cfg.questions, index, c.salt, Show, env.sha) == Some(template);
    InRound(index, round, n, c.sequence + 1, |whens|);
    var i := index - c.sequence - 1;
    AfterSendsPicks(c, whens, ids, i, cfg, env);
    var d := AfterSends(c, whens, ids, i, cfg, env);
    assert d.sequence == index && d.salt == c.salt;
  }

  /** An index of a round that lies between `start` and `start + len` lies in that range. */
  lemma InRound(index: nat, round: nat, n: nat, start: int, len: nat)
    requires n > 0 && index / n == round
    requires start <= round * n && round * n + n <= start + len
    ensures start <= index < start + len
  {
    assert index == round * n + index % n;
  }

  /** When the templates are distinct, no two sends of one round ask the same one. */
  lemma SendRoundAsksOnce(c: Context, whens: seq<Day>, ids: seq<MessageId>, cfg: Config, env: Env, i: nat, j: nat)
    requires |whens| == |ids| && |cfg.questions| > 0 && Distinct(cfg.questions)
    requires i < j < |whens|
    requires AfterSends(c, whens, ids, i, cfg, env).sequence / |cfg.questions| == AfterSends(c, whens, ids, j, cfg, env).sequence / |cfg.questions|
    ensures AskedTemplate(AfterSends(c, whens, ids, i, cfg, env), cfg, env) != AskedTemplate(AfterSends(c, whens, ids, j, cfg, env), cfg, env)
  {
    AfterSendsPicks(c, whens, ids, i, cfg, env);
    AfterSendsPicks(c, whens, ids, j, cfg, env);
    var di, dj := AfterSends(c, whens, ids, i, cfg, env), AfterSends(c, whens, ids, j, cfg, env);
    assert di.sequence == c.sequence + i + 1 && di.salt == c.salt;
    assert dj.sequence == c.sequence + j + 1 && dj.salt == c.salt;
    PickRoundDistinct(cfg.questions, c.salt, Show, env.sha, di.sequence, dj.sequence);
  }

  /** A successful send always changes the stored context. */
  lemma SendChangesContext(c: Context, when: Day, sent: Option<MessageId>, cfg: Config, env: Env)
    requires |cfg.questions| > 0 && sent.Some?
    ensures SendResult(c, when, sent, cfg, env) != c
    ensures SendResult(c, when, sent, cfg, env) != Closed(c)
  {
  }

  /** The requests `sendProposal` issues: those of closing the old proposal, then the animation. */
  function SendRequests(c: Context, when: Day, silent: bool, cfg: Config, env: Env): seq<Request>
  {
    CloseRequests(c, cfg, env) +
    match NewProposal(c, when, cfg, env)
    case None => []
    case Some(p) => [SendAnimation(c.chatId, ProposalAnimation(c, cfg, env), GetProposalMessage(p, cfg.quorumSize, env.sha), silent)]
  }

  /**
   * `sendProposal` closes the old proposal first and then, when there is a
   * question template, sends one animation whose caption shows the new
   * question with no votes and the voting buttons.
   */
  lemma SendRequestsShape(c: Context, when: Day, silent: bool, cfg: Config, env: Env)
    ensures var r := SendRequests(c, when, silent, cfg, env);
      && (|cfg.questions| == 0 ==> r == CloseRequests(c, cfg, env))
      && (|cfg.questions| > 0 ==>
            && |r| == |CloseRequests(c, cfg, env)| + 1
            && r[..|r| - 1] == CloseRequests(c, cfg, env)
            && r[|r| - 1] == SendAnimation(c.chatId, ProposalAnimation(c, cfg, env),
                                           GetProposalMessage(NewProposal(c, when, cfg, env).value, cfg.quorumSize, env.sha), silent)
            && r[|r| - 1].caption.keyboard && r[|r| - 1].caption.tally.accepted == 0
            && r[|r| - 1].caption.question == NewProposal(c, when, cfg, env).value.question)
  {
    if |cfg.questions| > 0 {
      var p := NewProposal(c, when, cfg, env).value;
      var sending := SendAnimation(c.chatId, ProposalAnimation(c, cfg, env), GetProposalMessage(p, cfg.quorumSize, env.sha), silent);
      assert SendRequests(c, when, silent, cfg, env) == CloseRequests(c, cfg, env) + [sending];
    }
  }

  /** `sendProposal(context, when)` on the stored context of its chat; `silent` is `nowIsNight()`. */
  method SendProposal(store: ContextStore, c: Context, when: Day, sent: Option<MessageId>, silent: bool, cfg: Config, env: Env)
    returns (r: Context, requests: seq<Request>)
    requires store.Valid()
    requires c.chatId in store.contexts.values && store.contexts.values[c.chatId] == c
    modifies store
    ensures store.Valid() && store.mutexCount == old(store.mutexCount)
    ensures r == SendResult(c, when, sent, cfg, env)
    ensures requests == SendRequests(c, when, silent, cfg, env)
    ensures store.contexts.keys == old(store.contexts.keys)
    ensures store.contexts.values == old(store.contexts.values)[c.chatId := r]
    ensures store.files == Persist(old(store.files), c, r)
  {
    r, requests := MaybeCloseProposal(store, c, cfg, env);
    var proposal := NewProposal(c, when, cfg, env);
    if proposal.None? {
      return;
    }
    var caption := GetProposalMessage(proposal.value, cfg.quorumSize, env.sha);
    requests := requests + [SendAnimation(c.chatId, ProposalAnimation(c, cfg, env), caption, silent)];
    if sent.None? {
      return;
    }
    r := r.(sequence := c.sequence + 1, proposal := Some(proposal.value.(messageId := sent)));
    StoreTwice(old(store.contexts.values), c.chatId, store.contexts.values[c.chatId], r);
    SendChangesContext(c, when, sent, cfg, env);
    PersistAgain(old(store.files), c, Closed(c), r);
    var _ := store.PushContext(r);
  }

  // ---------------------------------------------------------------------
  // Callbacks

  /** The press is a vote on the chat's current proposal message. */
  ghost predicate VoteApplies(contexts: OrderedMap<ChatId, Context>, chatId: ChatId, messageId: MessageId)
  {
    && chatId in contexts.values
    && contexts.values[chatId].proposal.Some?
    && contexts.values[chatId].proposal.value.messageId == Some(messageId)
  }

  /**
   * The callback handler for any data but `propose`, pressed by `from` on
   * message `messageId` of chat `chatId`.
   */
  method HandleVote(store: ContextStore, chatId: ChatId, messageId: MessageId, from: User, data: string,
                    cfg: Config, env: Env)
    returns (modified: bool, requests: seq<Request>)
    requires store.Valid() && data != "propose"
    modifies store
    ensures store.Valid() && store.mutexCount == old(store.mutexCount)
    ensures store.contexts.keys == old(store.contexts.keys)
    ensures !VoteApplies(old(store.contexts), chatId, messageId) ==> !modified
    ensures !modified ==> store.contexts == old(store.contexts) && store.files == old(store.files) && requests == []
    ensures VoteApplies(old(store.contexts), chatId, messageId) ==>
      var c := old(store.contexts).values[chatId];
      var r := store.contexts.values[chatId];
      && store.contexts.values == old(store.contexts.values)[chatId := r]
      && r.proposal.Some?
      && r == c.(proposal := Some(c.proposal.value.(ballot := r.proposal.value.ballot)))
      && CastsVote(c.proposal.value.ballot, r.proposal.value.ballot, from.id,
                   GetUserTitle(Some(from), cfg.userUnknown), data, modified)
    ensures modified ==>
      && store.files == old(store.files)[FileName(chatId) := Json(store.contexts.values[chatId].Stripped())]
      && requests == [EditCaption(chatId, Some(messageId),
                                  GetProposalMessage(store.contexts.values[chatId].proposal.value, cfg.quorumSize, env.sha))]
  {
    modified, requests := false, [];
    var pulled := store.PullContext(chatId);
    if pulled.None? {
      return;
    }
    var c := pulled.value;
    if c.proposal.None? {
      return;
    }
    var proposal := c.proposal.value;
    if proposal.messageId != Some(messageId) {
      return;
    }
    var title := GetUserTitle(Some(from), cfg.userUnknown);
    var ballot;
    ballot, modified := CastVote(proposal.ballot, from.id, title, data);
    if modified {
      var updated := c.(proposal := Some(proposal.(ballot := ballot)));
      var _ := store.PushContext(updated);
      requests := [EditCaption(chatId, Some(messageId), GetProposalMessage(updated.proposal.value, cfg.quorumSize, env.sha))];
    }
  }

  /** How the propose button is answered. */
  datatype ProposeOutcome = UnknownChat | AlreadyProposed | Proposed

  /**
   * The callback handler for `propose` at local time `now`: a proposal for
   * the coming Friday, unless the chat's proposal is already for that date.
   */
  method HandlePropose(store: ContextStore, chatId: ChatId, now: Minutes, sent: Option<MessageId>, cfg: Config, env: Env)
    returns (outcome: ProposeOutcome, requests: seq<Request>)
    requires store.Valid()
    modifies store
    ensures store.Valid() && store.mutexCount == old(store.mutexCount)
    ensures store.contexts.keys == old(store.contexts.keys)
    ensures outcome == UnknownChat <==> chatId !in old(store.contexts.values)
    ensures outcome == AlreadyProposed <==>
      && chatId in old(store.contexts.values)
      && old(store.contexts.values)[chatId].proposal.Some?
      && old(store.contexts.values)[chatId].proposal.value.when == ManualProposalDay(now)
    ensures outcome != Proposed ==> store.contexts == old(store.contexts) && store.files == old(store.files) && requests == []
    ensures outcome == Proposed ==>
      var c := old(store.contexts.values)[chatId];
      && store.contexts.values == old(store.contexts.values)[chatId := SendResult(c, ManualProposalDay(now), sent, cfg, env)]
      && requests == SendRequests(c, ManualProposalDay(now), NowIsNight(HourOf(now)), cfg, env)
      && store.files == Persist(old(store.files), c, SendResult(c, ManualProposalDay(now), sent, cfg, env))
  {
    requests := [];
    var pulled := store.PullContext(chatId);
    if pulled.None? {
      return UnknownChat, [];
    }
    var c := pulled.value;
    var when := ManualProposalDay(now);
    if c.proposal.Some? && c.proposal.value.when == when {
      return AlreadyProposed, [];
    }
    var _, sending := SendProposal(store, c, when, sent, NowIsNight(HourOf(now)), cfg, env);
    outcome, requests := Proposed, sending;
  }

  // ---------------------------------------------------------------------
  // Heartbeat sweeps

  /** The pin sweep's condition: a proposal, open or closed, that is not pinned. */
  predicate NeedsPin(c: Context)
  {
    c.proposal.Some? && !c.proposal.value.pinned
  }

  /** The context with its proposal marked pinned. */
  function Pinned(c: Context): (r: Context)
    ensures r == c <==> !NeedsPin(c)
    ensures r.(proposal := c.proposal) == c
    ensures r.proposal.Some? ==> r.proposal.value.pinned && r.proposal.value.(pinned := c.proposal.value.pinned) == c.proposal.value
  {
    match c.proposal
    case None => c
    case Some(p) => c.(proposal := Some(p.(pinned := true)))
  }

  function PinRequests(s: seq<Context>): (r: seq<Request>)
    ensures |r| == |s|
    ensures forall i :: 0 <= i < |s| ==> r[i] == PinMessage(s[i].chatId, MessageIdOf(s[i]))
  {
    seq(|s|, i requires 0 <= i < |s| => PinMessage(s[i].chatId, MessageIdOf(s[i])))
  }

  lemma PinRequestsStep(s: seq<Context>, n: nat)
    requires n < |s|
    ensures PinRequests(s[..n + 1]) == PinRequests(s[..n]) + [PinMessage(s[n].chatId, MessageIdOf(s[n]))]
  {
  }

  /** The chat ids of the first `n` contexts of `s`. */
  ghost function ChatIdsOf(s: seq<Context>, n: nat): set<ChatId>
    requires n <= |s|
  {
    set i | 0 <= i < n :: s[i].chatId
  }

  /** One more context adds its chat id, which is new when the chat ids are distinct. */
  lemma ChatIdsOfStep(s: seq<Context>, n: nat)
    requires n < |s|
    ensures ChatIdsOf(s, n + 1) == ChatIdsOf(s, n) + {s[n].chatId}
    ensures ChatIdsDistinct(s) ==> s[n].chatId !in ChatIdsOf(s, n)
  {
  }

  /**
   * Part way through a sweep: the chats in `done` hold `step` of what they
   * held `before`, every other chat holds what it held.
   */
  ghost predicate Swept(before: map<ChatId, Context>, current: map<ChatId, Context>, done: set<ChatId>,
                        step: Context -> Context)
  {
    && current.Keys == before.Keys
    && forall id :: id in before ==> current[id] == if id in done then step(before[id]) else before[id]
  }

  lemma SweptStep(before: map<ChatId, Context>, current: map<ChatId, Context>, done: set<ChatId>,
                  step: Context -> Context, x: ChatId)
    requires Swept(before, current, done, step)
    requires x in before && x !in done
    ensures Swept(before, current[x := step(before[x])], done + {x}, step)
  {
  }

  /**
   * The state of a sweep that started from `m0` and `files0`: the same
   * chats in the same order, the chats in `done` stepped, and the
   * directory in step with memory.
   */
  ghost predicate SweepState(m0: OrderedMap<ChatId, Context>, files0: map<string, FileContent>,
                             m: OrderedMap<ChatId, Context>, files: map<string, FileContent>,
                             done: set<ChatId>, step: Context -> Context)
  {
    && m.keys == m0.keys
    && Swept(m0.values, m.values, done, step)
    && Mirrored(files0, files, m0, m)
  }

  /** Persisting the stepped context of a chat not yet swept advances the sweep. */
  lemma SweepPersist(m0: OrderedMap<ChatId, Context>, files0: map<string, FileContent>,
                     m1: OrderedMap<ChatId, Context>, files1: map<string, FileContent>,
                     m2: OrderedMap<ChatId, Context>, files2: map<string, FileContent>,
                     done: set<ChatId>, step: Context -> Context, c: Context)
    requires SweepState(m0, files0, m1, files1, done, step)
    requires c.chatId in m0.values && m0.values[c.chatId] == c && c.chatId !in done
    requires step(c).chatId == c.chatId
    requires m2.keys == m1.keys && m2.values == m1.values[c.chatId := step(c)]
    requires files2 == Persist(files1, c, step(c))
    ensures SweepState(m0, files0, m2, files2, done + {c.chatId}, step)
  {
    SweptStep(m0.values, m1.values, done, step, c.chatId);
    MirroredAfterPersist(files0, files1, m0, m1, m2, step(c));
  }

  /**
   * At the end of a sweep over the contexts a selection found, exactly the
   * contexts that satisfy the selection's condition have been stepped.
   */
  lemma SweptSelected(m: OrderedMap<ChatId, Context>, found: seq<Context>, condition: Context -> bool,
                      current: map<ChatId, Context>, step: Context -> Context)
    requires IndexedByChatId(m)
    requires forall c :: c in found <==> c.chatId in m.values && m.values[c.chatId] == c && condition(c)
    requires Swept(m.values, current, ChatIdsOf(found, |found|), step)
    ensures current.Keys == m.values.Keys
    ensures forall id :: id in m.values ==>
      current[id] == if condition(m.values[id]) then step(m.values[id]) else m.values[id]
  {
    forall id | id in m.values && condition(m.values[id])
      ensures id in ChatIdsOf(found, |found|)
    {
      var i :| 0 <= i < |found| && found[i] == m.values[id];
    }
  }

  /** `Pinned` as a function value. */
  function PinStep(): Context -> Context
  {
    c => Pinned(c)
  }

  /** The loop of `pinUnpinnedProposals()` over the contexts it found. */
  method PinEach(store: ContextStore, found: seq<Context>) returns (requests: seq<Request>)
    requires store.Valid() && ChatIdsDistinct(found)
    requires forall c :: c in found ==> c.chatId in store.contexts.values && store.contexts.values[c.chatId] == c && NeedsPin(c)
    modifies store
    ensures store.Valid() && store.mutexCount == old(store.mutexCount)
    ensures SweepState(old(store.contexts), old(store.files), store.contexts, store.files, ChatIdsOf(found, |found|), PinStep())
    ensures requests == PinRequests(found)
  {
    requests := [];
    var i := 0;
    while i < |found|
      invariant 0 <= i <= |found|
      invariant store.Valid() && store.mutexCount == old(store.mutexCount)
      invariant SweepState(old(store.contexts), old(store.files), store.contexts, store.files, ChatIdsOf(found, i), PinStep())
      invariant requests == PinRequests(found[..i])
    {
      var c := found[i];
      ChatIdsOfStep(found, i);
      ghost var files := store.files;
      ghost var contexts := store.contexts;
      var _ := store.PushContext(Pinned(c));
      SweepPersist(old(store.contexts), old(store.files), contexts, files, store.contexts, store.files,
                   ChatIdsOf(found, i), PinStep(), c);
      PinRequestsStep(found, i);
      requests := requests + [PinMessage(c.chatId, MessageIdOf(c))];
      i := i + 1;
    }
    assert found[..i] == found;
  }

  /**
   * `pinUnpinnedProposals()` at local time `now`: by day, every stored
   * proposal not yet pinned is marked pinned, persisted and pinned in
   * its chat; at night nothing happens.
   */
  method PinUnpinnedProposals(store: ContextStore, now: Minutes) returns (requests: seq<Request>)
    requires store.Valid()
    modifies store
    ensures store.Valid() && store.mutexCount == old(store.mutexCount)
    ensures store.contexts.keys == old(store.contexts.keys)
    ensures NowIsNight(HourOf(now)) ==>
      store.contexts == old(store.contexts) && store.files == old(store.files) && requests == []
    ensures !NowIsNight(HourOf(now)) ==>
      && (forall id :: id in old(store.contexts.values) ==>
            store.contexts.values[id] == Pinned(old(store.contexts.values)[id]))
      && requests == PinRequests(Select(old(store.contexts).Values(), NeedsPin))
    ensures Mirrored(old(store.files), store.files, old(store.contexts), store.contexts)
  {
    requests := [];
    if NowIsNight(HourOf(now)) {
      return;
    }
    var found := store.FindContexts(Some(NeedsPin));
    requests := PinEach(store, found);
    SweptSelected(old(store.contexts), found, NeedsPin, store.contexts.values, PinStep());
  }

  /** The close sweep's condition as a function value. */
  function ObsoleteAt(now: Minutes): Context -> bool
  {
    c => IsObsolete(c, now)
  }

  lemma CloseRequestsOfStep(s: seq<Context>, n: nat, cfg: Config, env: Env)
    requires n < |s|
    ensures CloseRequestsOf(s[..n + 1], cfg, env) == CloseRequestsOf(s[..n], cfg, env) + CloseRequests(s[n], cfg, env)
  {
    assert s[..n + 1][..n] == s[..n];
  }

  /** `Closed` as a function value. */
  function CloseStep(): Context -> Context
  {
    c => Closed(c)
  }

  /** The requests of closing each context of `s` in turn. */
  function CloseRequestsOf(s: seq<Context>, cfg: Config, env: Env): seq<Request>
  {
    if s == [] then [] else CloseRequestsOf(s[..|s| - 1], cfg, env) + CloseRequests(s[|s| - 1], cfg, env)
  }

  /** The loop of `closeObsoleteProposals()` over the contexts it found. */
  method CloseEach(store: ContextStore, found: seq<Context>, cfg: Config, env: Env) returns (requests: seq<Request>)
    requires store.Valid() && ChatIdsDistinct(found)
    requires forall c :: c in found ==> c.chatId in store.contexts.values && store.contexts.values[c.chatId] == c
    modifies store
    ensures store.Valid() && store.mutexCount == old(store.mutexCount)
    ensures SweepState(old(store.contexts), old(store.files), store.contexts, store.files, ChatIdsOf(found, |found|), CloseStep())
    ensures requests == CloseRequestsOf(found, cfg, env)
  {
    requests := [];
    var i := 0;
    while i < |found|
      invariant 0 <= i <= |found|
      invariant store.Valid() && store.mutexCount == old(store.mutexCount)
      invariant SweepState(old(store.contexts), old(store.files), store.contexts, store.files, ChatIdsOf(found, i), CloseStep())
      invariant requests == CloseRequestsOf(found[..i], cfg, env)
    {
      var c := found[i];
      ChatIdsOfStep(found, i);
      ghost var files := store.files;
      ghost var contexts := store.contexts;
      var _, closing := MaybeCloseProposal(store, c, cfg, env);
      SweepPersist(old(store.contexts), old(store.files), contexts, files, store.contexts, store.files,
                   ChatIdsOf(found, i), CloseStep(), c);
      CloseRequestsOfStep(found, i, cfg, env);
      requests := requests + closing;
      i := i + 1;
    }
    assert found[..i] == found;
  }

  /**
   * `closeObsoleteProposals()` at local time `now`: every proposal whose
   * date's 22:00 has passed is closed.
   */
  method CloseObsoleteProposals(store: ContextStore, now: Minutes, cfg: Config, env: Env) returns (requests: seq<Request>)
    requires store.Valid()
    modifies store
    ensures store.Valid() && store.mutexCount == old(store.mutexCount)
    ensures store.contexts.keys == old(store.contexts.keys)
    ensures forall id :: id in old(store.contexts.values) ==>
      var c := old(store.contexts.values)[id];
      store.contexts.values[id] == if IsObsolete(c, now) then Closed(c) else c
    ensures requests == CloseRequestsOf(Select(old(store.contexts).Values(), ObsoleteAt(now)), cfg, env)
    ensures Mirrored(old(store.files), store.files, old(store.contexts), store.contexts)
  {
    requests := [];
    var found := store.FindContexts(Some(ObsoleteAt(now)));
    requests := CloseEach(store, found, cfg, env);
    SweptSelected(old(store.contexts), found, ObsoleteAt(now), store.contexts.values, CloseStep());
  }

  /** The auto-propose sweep's condition as a function value, for the ISO week of `now`. */
  function DueAt(now: Minutes, env: Env): Context -> bool
  {
    c => IsProposalDue(c, now, IsoWeekStart(now), env.formatDate, env.sha)
  }

  lemma SendRequestsOfStep(s: seq<Context>, n: nat, when: Day, silent: bool, cfg: Config, env: Env)
    requires n < |s|
    ensures SendRequestsOf(s[..n + 1], when, silent, cfg, env) ==
            SendRequestsOf(s[..n], when, silent, cfg, env) + SendRequests(s[n], when, silent, cfg, env)
  {
    assert s[..n + 1][..n] == s[..n];
  }

  /** Sending a proposal for `when`, with each chat's `sendAnimation` answer, as a function value. */
  function SendStep(when: Day, sent: ChatId -> Option<MessageId>, cfg: Config, env: Env): Context -> Context
  {
    (c: Context) => SendResult(c, when, sent(c.chatId), cfg, env)
  }

  /** The requests of sending a proposal to each context of `s` in turn. */
  function SendRequestsOf(s: seq<Context>, when: Day, silent: bool, cfg: Config, env: Env): seq<Request>
  {
    if s == [] then [] else SendRequestsOf(s[..|s| - 1], when, silent, cfg, env) + SendRequests(s[|s| - 1], when, silent, cfg, env)
  }

  /** One round of the loop of `maybeSendProposals()`: sending a proposal to the `i`-th context found. */
  method SendNext(store: ContextStore, found: seq<Context>, i: nat, when: Day, sent: ChatId -> Option<MessageId>, silent: bool,
                  cfg: Config, env: Env, ghost m0: OrderedMap<ChatId, Context>, ghost files0: map<string, FileContent>,
                  prior: seq<Request>)
    returns (requests: seq<Request>)
    requires store.Valid() && ChatIdsDistinct(found) && i < |found|
    requires prior == SendRequestsOf(found[..i], when, silent, cfg, env)
    requires forall c :: c in found ==> c.chatId in m0.values && m0.values[c.chatId] == c
    requires SweepState(m0, files0, store.contexts, store.files, ChatIdsOf(found, i), SendStep(when, sent, cfg, env))
    modifies store
    ensures store.Valid() && store.mutexCount == old(store.mutexCount)
    ensures SweepState(m0, files0, store.contexts, store.files, ChatIdsOf(found, i + 1), SendStep(when, sent, cfg, env))
    ensures requests == SendRequestsOf(found[..i + 1], when, silent, cfg, env)
  {
    var c := found[i];
    ChatIdsOfStep(found, i);
    ghost var files := store.files;
    ghost var contexts := store.contexts;
    var _, sending := SendProposal(store, c, when, sent(c.chatId), silent, cfg, env);
    SweepPersist(m0, files0, contexts, files, store.contexts, store.files, ChatIdsOf(found, i), SendStep(when, sent, cfg, env), c);
    SendRequestsOfStep(found, i, when, silent, cfg, env);
    requests := prior + sending;
  }

  /** The loop of `maybeSendProposals()` over the contexts it found, sending proposals for `when`. */
  method SendEach(store: ContextStore, found: seq<Context>, when: Day, sent: ChatId -> Option<MessageId>, silent: bool,
                  cfg: Config, env: Env)
    returns (requests: seq<Request>)
    requires store.Valid() && ChatIdsDistinct(found)
    requires forall c :: c in found ==> c.chatId in store.contexts.values && store.contexts.values[c.chatId] == c
    modifies store
    ensures store.Valid() && store.mutexCount == old(store.mutexCount)
    ensures SweepState(old(store.contexts), old(store.files), store.contexts, store.files, ChatIdsOf(found, |found|),
                       SendStep(when, sent, cfg, env))
    ensures requests == SendRequestsOf(found, when, silent, cfg, env)
  {
    ghost var m0, files0 := store.contexts, store.files;
    requests := [];
    var i := 0;
    while i < |found|
      invariant 0 <= i <= |found|
      invariant store.Valid() && store.mutexCount == old(store.mutexCount)
      invariant SweepState(m0, files0, store.contexts, store.files, ChatIdsOf(found, i), SendStep(when, sent, cfg, env))
      invariant requests == SendRequestsOf(found[..i], when, silent, cfg, env)
    {
      requests := SendNext(store, found, i, when, sent, silent, cfg, env, m0, files0, requests);
      i := i + 1;
    }
    assert found[..i] == found;
  }

  /**
   * `maybeSendProposals()` at local time `now`: inside the window, every
   * due chat is sent a proposal for this ISO week's Friday; `sent` gives
   * each chat's `sendAnimation` answer.
   */
  method MaybeSendProposals(store: ContextStore, now: Minutes, sent: ChatId -> Option<MessageId>, cfg: Config, env: Env)
    returns (requests: seq<Request>)
    requires store.Valid()
    modifies store
    ensures store.Valid() && store.mutexCount == old(store.mutexCount)
    ensures store.contexts.keys == old(store.contexts.keys)
    ensures !InProposeWindow(now) ==>
      store.contexts == old(store.contexts) && store.files == old(store.files) && requests == []
    ensures InProposeWindow(now) ==>
      var week := IsoWeekStart(now);
      && (forall id :: id in old(store.contexts.values) ==>
            var c := old(store.contexts.values)[id];
            store.contexts.values[id] ==
              if IsProposalDue(c, now, week, env.formatDate, env.sha)
              then SendResult(c, AutoProposalDay(week), sent(id), cfg, env) else c)
      && requests == SendRequestsOf(Select(old(store.contexts).Values(), DueAt(now, env)), AutoProposalDay(week), false, cfg, env)
    ensures Mirrored(old(store.files), store.files, old(store.contexts), store.contexts)
  {
    requests := [];
    if !InProposeWindow(now) {
      return;
    }
    var week := IsoWeekStart(now);
    var when := AutoProposalDay(week);
    var found := store.FindContexts(Some(DueAt(now, env)));
    requests := SendEach(store, found, when, sent, NowIsNight(HourOf(now)), cfg, env);
    SweptSelected(old(store.contexts), found, DueAt(now, env), store.contexts.values, SendStep(when, sent, cfg, env));
  }
}
