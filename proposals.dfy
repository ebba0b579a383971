/**
 * Proposals on their own: how a button press changes the ballot, how a
 * voter is named, and what the proposal message shows.
 */
module Proposals {
  import opened Wrappers
  import opened Decimal
  import opened OrderedMaps
  import opened Helpers
  import opened Contexts

  // ---------------------------------------------------------------------
  // Voting

  /** Where a user stands on a ballot. */
  datatype Standing = Absent | Accepting | AcceptingWithGuest | Rejecting

  function StandingOf(b: Ballot, user: UserId): Standing
  {
    if user in b.withGuests then AcceptingWithGuest
    else if user in b.accepts.values then Accepting
    else if user in b.rejects.values then Rejecting
    else Absent
  }

  /** The standing a button asks for; none for data that is not a vote. */
  function Requested(data: string): (s: Option<Standing>)
    ensures s != Some(Absent)
  {
    if data == "accept" then Some(Accepting)
    else if data == "reject" then Some(Rejecting)
    else if data == "with-guest" then Some(AcceptingWithGuest)
    else None
  }

  /** The voter's entry carries the title they had when the vote changed. */
  ghost predicate TitleRecorded(b: Ballot, user: UserId, title: string)
  {
    if user in b.accepts.values then b.accepts.values[user] == title
    else user in b.rejects.values && b.rejects.values[user] == title
  }

  /**
   * What one button press does to a ballot `b`, giving `r` and whether
   * anything changed.
   */
  ghost predicate CastsVote(b: Ballot, r: Ballot, user: UserId, title: string, data: string, modified: bool)
  {
    // only the voter's entries can change
    && r.accepts.values - {user} == b.accepts.values - {user}
    && r.rejects.values - {user} == b.rejects.values - {user}
    && r.withGuests - {user} == b.withGuests - {user}
    // and the voter order of each list changes only at the voter's place
    && PlaceKept(b.accepts, r.accepts, user)
    && PlaceKept(b.rejects, r.rejects, user)
    // a press that changes nothing leaves the ballot as it was
    && (modified <==> r != b)
    && (Requested(data).None? ==> !modified)
    // a vote puts the voter where the button says, and changes something
    // exactly when the voter was not there yet
    && (Requested(data).Some? && b.Consistent() ==>
          && r.Consistent()
          && StandingOf(r, user) == Requested(data).value
          && (modified <==> StandingOf(b, user) != Requested(data).value))
    && (modified ==> TitleRecorded(r, user, title))
  }

  /** The `switch (data)` of the callback handler on a copy of the ballot. */
  method CastVote(b: Ballot, user: UserId, title: string, data: string) returns (r: Ballot, modified: bool)
    ensures CastsVote(b, r, user, title, data, modified)
  {
    var accepts := b.accepts;
    var rejects := b.rejects;
    var withGuests := b.withGuests;
    modified := false;
    if data == "accept" {
      if user !in accepts.values || user in withGuests {
        accepts := accepts.Set(user, title);
        withGuests := withGuests - {user};
        rejects := rejects.Delete(user);
        modified := true;
        AcceptCasts(b, user, title);
      }
    } else if data == "reject" {
      if user !in rejects.values {
        rejects := rejects.Set(user, title);
        accepts := accepts.Delete(user);
        withGuests := withGuests - {user};
        modified := true;
        RejectCasts(b, user, title);
      }
    } else if data == "with-guest" {
      if user !in withGuests {
        accepts := accepts.Set(user, title);
        rejects := rejects.Delete(user);
        withGuests := withGuests + {user};
        modified := true;
        GuestCasts(b, user, title);
      }
    }
    if !modified {
      IgnoredPress(b, user, title, data);
    }
    r := if modified then Ballot(accepts, rejects, withGuests) else b;
  }

  lemma AcceptCasts(b: Ballot, user: UserId, title: string)
    requires user !in b.accepts.values || user in b.withGuests
    ensures CastsVote(b, Ballot(b.accepts.Set(user, title), b.rejects.Delete(user), b.withGuests - {user}),
                      user, title, "accept", true)
  {
  }

  lemma RejectCasts(b: Ballot, user: UserId, title: string)
    requires user !in b.rejects.values
    ensures CastsVote(b, Ballot(b.accepts.Delete(user), b.rejects.Set(user, title), b.withGuests - {user}),
                      user, title, "reject", true)
  {
  }

  lemma GuestCasts(b: Ballot, user: UserId, title: string)
    requires user !in b.withGuests
    ensures CastsVote(b, Ballot(b.accepts.Set(user, title), b.rejects.Delete(user), b.withGuests + {user}),
                      user, title, "with-guest", true)
  {
  }

  lemma IgnoredPress(b: Ballot, user: UserId, title: string, data: string)
    requires data == "accept" ==> user in b.accepts.values && user !in b.withGuests
    requires data == "reject" ==> user in b.rejects.values
    requires data == "with-guest" ==> user in b.withGuests
    ensures CastsVote(b, b, user, title, data, false)
  {
  }

  /** Pressing the same button twice: the second press changes nothing. */
  lemma RepeatedVoteIsIgnored(b: Ballot, r: Ballot, r2: Ballot, user: UserId, title: string, title2: string,
                              data: string, modified: bool, modified2: bool)
    requires b.Consistent()
    requires CastsVote(b, r, user, title, data, modified)
    requires CastsVote(r, r2, user, title2, data, modified2)
    ensures !modified2 && r2 == r
  {
  }

  // ---------------------------------------------------------------------
  // Naming voters

  /** The fields of a Telegram user that name them; "" is an absent field. */
  datatype User = User(id: UserId, firstName: string, lastName: string, username: string)

  /** `parts.join(sep)`. */
  function Join(parts: seq<string>, sep: string): (r: string)
    ensures |parts| == 1 ==> r == parts[0]
  {
    if |parts| == 0 then ""
    else if |parts| == 1 then parts[0]
    else parts[0] + sep + Join(parts[1..], sep)
  }

  /** `getUserTitle(user)`; `userUnknown` is the configured fallback. */
  function GetUserTitle(user: Option<User>, userUnknown: string): (title: string)
    ensures user.None? ==> title == userUnknown
    ensures user.Some? && user.value.firstName != "" && user.value.lastName != "" ==>
      title == user.value.firstName + " " + user.value.lastName
    ensures user.Some? && (user.value.firstName == "") != (user.value.lastName == "") ==>
      title == user.value.firstName + user.value.lastName
    ensures user.Some? && user.value.firstName == "" && user.value.lastName == "" ==>
      title == if user.value.username != "" then "@" + user.value.username else userUnknown
    ensures userUnknown != "" ==> title != ""
  {
    match user
    case None => userUnknown
    case Some(u) =>
      var names := (if u.firstName != "" then [u.firstName] else []) + (if u.lastName != "" then [u.lastName] else []);
      var parts := if names != [] then names else if u.username != "" then ["@" + u.username] else [userUnknown];
      Join(parts, " ")
  }

  // ---------------------------------------------------------------------
  // The proposal message

  /** One line of a voter list: who, and whether they bring a guest. */
  datatype UserLine = UserLine(id: UserId, title: string, withGuest: bool)

  /**
   * The vote summary: bare counts below the quorum, the shuffled voter
   * lists once the quorum is reached.
   */
  datatype Tally =
    | Counts(accepted: nat, rejected: nat)
    | Lists(accepted: nat, acceptors: seq<UserLine>, rejecters: seq<UserLine>)

  /** `getProposalMessage(context)`: the caption and whether it has buttons. */
  datatype Message = Message(question: string, tally: Tally, keyboard: bool)

  /** `${salt}` for the proposal's message id; unset before it is sent. */
  function ShuffleSalt(messageId: Option<MessageId>): string
  {
    match messageId
    case None => "undefined"
    case Some(id) => IntToString(id)
  }

  /** `${[id, title]}`: the text a voter entry is hashed by. */
  function ShowEntry(entry: (UserId, string)): string
  {
    IntToString(entry.0) + "," + entry.1
  }

  function UserLines(entries: seq<(UserId, string)>, withGuests: set<UserId>): (r: seq<UserLine>)
    ensures |r| == |entries|
    ensures forall i :: 0 <= i < |r| ==> r[i] == UserLine(entries[i].0, entries[i].1, entries[i].0 in withGuests)
  {
    seq(|entries|, i requires 0 <= i < |entries| => UserLine(entries[i].0, entries[i].1, entries[i].0 in withGuests))
  }

  /**
   * `lines` lists every voter of `voters` once, with the title recorded
   * for them and the guest mark exactly for those who bring one.
   */
  ghost predicate ListsVoters(lines: seq<UserLine>, voters: OrderedMap<UserId, string>, withGuests: set<UserId>)
  {
    && |lines| == |voters.keys|
    && (forall l :: l in lines ==>
          l.id in voters.values && l.title == voters.values[l.id] && (l.withGuest <==> l.id in withGuests))
    && (forall id :: id in voters.values ==> exists l :: l in lines && l.id == id)
  }

  /** The entries of a map are exactly its key-value pairs. */
  lemma EntriesOf(voters: OrderedMap<UserId, string>, e: (UserId, string))
    ensures e in voters.Entries() <==> e.0 in voters.values && e.1 == voters.values[e.0]
  {
    if e.0 in voters.values && e.1 == voters.values[e.0] {
      var j :| 0 <= j < |voters.keys| && voters.keys[j] == e.0;
      assert voters.Entries()[j] == e;
    }
  }

  /** The voter lines of some ordering of a map's entries list the map. */
  lemma PermutedVoterLines(voters: OrderedMap<UserId, string>, withGuests: set<UserId>, entries: seq<(UserId, string)>)
    requires multiset(entries) == multiset(voters.Entries())
    ensures ListsVoters(UserLines(entries, withGuests), voters, withGuests)
  {
    var lines := UserLines(entries, withGuests);
    assert |entries| == |voters.keys| by {
      assert |multiset(entries)| == |multiset(voters.Entries())|;
    }
    forall l | l in lines
      ensures l.id in voters.values && l.title == voters.values[l.id]
    {
      var i :| 0 <= i < |lines| && lines[i] == l;
      assert entries[i] in multiset(voters.Entries());
      EntriesOf(voters, entries[i]);
    }
    forall id | id in voters.values
      ensures exists l :: l in lines && l.id == id
    {
      EntriesOf(voters, (id, voters.values[id]));
      assert (id, voters.values[id]) in multiset(entries);
      var i :| 0 <= i < |entries| && entries[i] == (id, voters.values[id]);
      assert lines[i].id == id;
    }
  }

  /**
   * `getProposalMessage({ proposal })` with the configured quorum size: the
   * accepted total counts guests, the voter lists appear exactly when the
   * total reaches the quorum, and the buttons exactly while voting is open.
   */
  function GetProposalMessage(p: Proposal, quorumSize: int, sha: Sha256): (m: Message)
    ensures m.question == p.question
    ensures m.keyboard <==> !p.closed
    ensures m.tally.accepted == |p.ballot.accepts.keys| + |p.ballot.withGuests|
    ensures m.tally.Lists? <==> m.tally.accepted >= quorumSize
    ensures m.tally.Counts? ==> m.tally.rejected == |p.ballot.rejects.keys|
    ensures m.tally.Lists? ==> |m.tally.rejecters| == |p.ballot.rejects.keys|
  {
    var salt := ShuffleSalt(p.messageId);
    var accepts := ShuffleItems(p.ballot.accepts.Entries(), salt, ShowEntry, sha);
    var rejects := ShuffleItems(p.ballot.rejects.Entries(), salt, ShowEntry, sha);
    var total := |accepts| + |p.ballot.withGuests|;
    var tally :=
      if total >= quorumSize
      then Lists(total, UserLines(accepts, p.ballot.withGuests), UserLines(rejects, p.ballot.withGuests))
      else Counts(total, |rejects|);
    Message(p.question, tally, !p.closed)
  }

  /**
   * Once the quorum is reached, the message lists every acceptor and every
   * rejecter once, under the title they voted with, marking exactly the
   * acceptors who bring a guest.
   */
  lemma ProposalMessageListsVoters(p: Proposal, quorumSize: int, sha: Sha256)
    ensures var m := GetProposalMessage(p, quorumSize, sha);
      m.tally.Lists? ==>
        && ListsVoters(m.tally.acceptors, p.ballot.accepts, p.ballot.withGuests)
        && ListsVoters(m.tally.rejecters, p.ballot.rejects, p.ballot.withGuests)
  {
    var salt := ShuffleSalt(p.messageId);
    PermutedVoterLines(p.ballot.accepts, p.ballot.withGuests, ShuffleItems(p.ballot.accepts.Entries(), salt, ShowEntry, sha));
    PermutedVoterLines(p.ballot.rejects, p.ballot.withGuests, ShuffleItems(p.ballot.rejects.Entries(), salt, ShowEntry, sha));
  }

  /** The configured `strings.accepts` and `strings.rejects` headings. */
  datatype Labels = Labels(accepts: string, rejects: string)

  /** `• [title +1](tg://user?id=id)`. */
  function UserListLine(l: UserLine): string
  {
    "• [" + l.title + (if l.withGuest then " +1" else "") + "](tg://user?id=" + IntToString(l.id) + ")"
  }

  function UserList(lines: seq<UserLine>): (r: seq<string>)
    ensures |r| == |lines|
    ensures forall i :: 0 <= i < |r| ==> r[i] == UserListLine(lines[i])
  {
    seq(|lines|, i requires 0 <= i < |lines| => UserListLine(lines[i]))
  }

  /** The part of the caption below the question and the blank line. */
  function TallyLines(t: Tally, labels: Labels): seq<string>
  {
    match t
    case Counts(accepted, rejected) =>
      [labels.accepts + ": " + NatToString(accepted), labels.rejects + ": " + NatToString(rejected)]
    case Lists(accepted, acceptors, rejecters) =>
      [labels.accepts + " (" + NatToString(accepted) + "):"] + UserList(acceptors) +
      (if rejecters == [] then []
       else ["", labels.rejects + " (" + NatToString(|rejecters|) + "):"] + UserList(rejecters))
  }

  /** The caption's lines: the question, a blank line, then the tally. */
  function MessageLines(m: Message, labels: Labels): seq<string>
  {
    [m.question, ""] + TallyLines(m.tally, labels)
  }

  /** The caption begins with the question and a blank line; below the quorum, two count lines follow. */
  lemma MessageLinesHead(m: Message, labels: Labels)
    ensures var lines := MessageLines(m, labels);
      && |lines| >= 3 && lines[0] == m.question && lines[1] == ""
      && (m.tally.Counts? ==> |lines| == 4)
  {
  }

  /**
   * Once the quorum is reached, the caption lists the acceptors after their
   * heading, followed by the rejecters' heading and list only when somebody
   * rejected.
   */
  lemma MessageLinesLists(m: Message, labels: Labels)
    requires m.tally.Lists?
    ensures var lines := MessageLines(m, labels);
      && |lines| == 3 + |m.tally.acceptors| + (if m.tally.rejecters == [] then 0 else 2 + |m.tally.rejecters|)
      && lines[3..3 + |m.tally.acceptors|] == UserList(m.tally.acceptors)
      && (m.tally.rejecters != [] ==> lines[3 + |m.tally.acceptors| + 2..] == UserList(m.tally.rejecters))
  {
    var heading := [labels.accepts + " (" + NatToString(m.tally.accepted) + "):"];
    var acceptors := UserList(m.tally.acceptors);
    var rejecters := UserList(m.tally.rejecters);
    var rest := if m.tally.rejecters == [] then [] else ["", labels.rejects + " (" + NatToString(|m.tally.rejecters|) + "):"] + rejecters;
    assert TallyLines(m.tally, labels) == heading + acceptors + rest;
    Concatenated([m.question, ""], heading, acceptors, rest);
    if m.tally.rejecters != [] {
      assert rest[2..] == rejecters;
    }
  }

  /** Where the parts of a concatenation sit in it. */
  lemma Concatenated<T>(a: seq<T>, h: seq<T>, b: seq<T>, c: seq<T>)
    ensures (a + (h + b + c))[|a| + |h|..|a| + |h| + |b|] == b
    ensures (a + (h + b + c))[|a| + |h| + |b|..] == c
    ensures |c| >= 2 ==> (a + (h + b + c))[|a| + |h| + |b| + 2..] == c[2..]
  {
  }

  /** The caption text: the lines joined by newlines. */
  function MessageText(m: Message, labels: Labels): string
  {
    Join(MessageLines(m, labels), "\n")
  }

  /**
   * The caption text is the question, an empty line, and the tally's lines
   * joined by newlines.
   */
  lemma {:induction false} MessageTextHead(m: Message, labels: Labels)
    ensures MessageText(m, labels) == m.question + "\n\n" + Join(TallyLines(m.tally, labels), "\n")
  {
    var tally := TallyLines(m.tally, labels);
    var lines := MessageLines(m, labels);
    assert |tally| >= 1;
    assert lines[1..] == [""] + tally;
    assert ([""] + tally)[1..] == tally;
    calc {
      MessageText(m, labels);
      lines[0] + "\n" + Join(lines[1..], "\n");
      m.question + "\n" + ("" + "\n" + Join(tally, "\n"));
    }
  }
}
