/** Asking teammates for their Trello username (actions/check-user-trello.js):
    who gets asked, which replies count as filler, and the ask / check /
    retry conversation, written as a transition function over an explicit
    state whose effects are the messages, the Trello lookups and the saves. */
module CheckUserTrello {
  import opened Wrappers
  import opened Strings
  import opened Seqs
  import opened Directory

  /** `u[mh]+`: "u" followed by one or more of m and h. */
  predicate IsHum(s: string)
  {
    |s| >= 2 && s[0] == 'u' && forall i :: 1 <= i < |s| ==> s[i] == 'm' || s[i] == 'h'
  }

  /** The other alternatives of the pattern: `hold on`, `(one|a) sec(ond)?`,
      `\bwait\b`, `^ok`, `got it`, `no|nope`. */
  const FillerWords: set<string> :=
    {"hold on", "one sec", "one second", "a sec", "a second", "wait", "ok", "got it", "no", "nope"}

  /** The filler pattern of lines 17-20: anchored at both ends and
      case-sensitive, so the whole reply must be one of the alternatives. */
  predicate IsFiller(reply: string)
    ensures IsFiller(reply) ==> |reply| >= 2 && reply[0] != ' ' && reply[|reply| - 1] != ' '
    ensures IsFiller(reply) ==> forall i :: 0 <= i < |reply| ==> !IsUpper(reply[i])
  {
    IsHum(reply) || reply in FillerWords
  }

  /** A reply with an upper-case letter is never filler ("Ok", "Wait"). */
  lemma UpperCaseIsNotFiller(reply: string, i: nat)
    requires i < |reply| && IsUpper(reply[i])
    ensures !IsFiller(reply)
  {
  }

  /** Filler followed by more words is not filler ("ok thanks", "no idea"). */
  lemma ExtraWordsAreNotFiller(reply: string, more: string)
    requires IsFiller(reply)
    ensures !IsFiller(reply + " " + more)
  {
    var s := reply + " " + more;
    assert s[|reply|] == ' ';
    assert !IsHum(s);
    SpacedIsNoFillerWord(reply, more);
  }

  /** No alternative of `FillerWords` is a filler, a space and more. */
  lemma SpacedIsNoFillerWord(reply: string, more: string)
    requires IsFiller(reply)
    ensures reply + " " + more !in FillerWords
  {
    var s := reply + " " + more;
    assert s[..|reply|] == reply && s[|reply|] == ' ';
    forall w, i | w in FillerWords && 0 <= i < |w| && w[i] == ' '
      ensures !IsFiller(w[..i])
    {
      FillerWordBeforeSpace(w, i);
    }
  }

  /** In the alternatives that have a space, the words before it ("hold",
      "one", "a", "got") are not filler. */
  lemma FillerWordBeforeSpace(w: string, i: nat)
    requires w in FillerWords && i < |w| && w[i] == ' '
    ensures !IsFiller(w[..i])
  {
    if w == "hold on" {
      assert i == 4 && w[..i] == "hold";
    } else if w == "one sec" || w == "one second" {
      assert i == 3 && w[..i] == "one";
    } else if w == "a sec" || w == "a second" {
      assert i == 1 && w[..i] == "a";
    } else if w == "got it" {
      assert i == 3 && w[..i] == "got";
    } else {
      assert false;
    }
  }

  /** The state of one conversation: waiting for an answer to `prompt`, or finished. */
  datatype FlowState = Asking(prompt: string) | Done

  /** What a step does: ask a question, say a line, look a username up on
      Trello (`/1/members/<name>/cards`), or save a record to the store. */
  datatype Effect = Prompt(text: string) | Say(text: string) | LookupCards(username: string) | Save(record: UserRecord)

  datatype Step = Step(state: FlowState, effects: seq<Effect>)

  /** A reply, and whether the Trello lookup of its text would succeed. */
  datatype Reply = Reply(text: string, found: bool)

  const DefaultQuestion := "Hey, real quick: what's your Trello username?"
  const RetryQuestion := "Hmm...I couldn't find that user. Could you check again?"
  const Checking := "Hold on, let me check that..."
  const Thanks := "Great, thanks!"

  /** `checkUsername(..., question)`: asks `question || DefaultQuestion`. */
  function Start(question: Option<string>): (st: Step)
    ensures st.state.Asking? && st.effects == [Prompt(st.state.prompt)]
    ensures Truthy(question) ==> st.state.prompt == question.value
    ensures !Truthy(question) ==> st.state.prompt == DefaultQuestion
  {
    var q := if Truthy(question) then question.value else DefaultQuestion;
    Step(Asking(q), [Prompt(q)])
  }

  /** One reply (lines 21-48): filler is silently repeated; anything else is
      looked up, then saved as `{id, trello}` and thanked for, or answered
      with the retry question. A finished conversation takes no replies. */
  function Next(userId: string, s: FlowState, reply: Reply): (st: Step)
    ensures st.state.Done? <==> s.Done? || (!IsFiller(reply.text) && reply.found)
    ensures st.state.Asking? ==> st.state == s || st.state == Asking(RetryQuestion)
    ensures s.Done? || IsFiller(reply.text) ==> st == Step(s, [])
    ensures s.Asking? && !IsFiller(reply.text) ==>
      |st.effects| >= 3 && st.effects[0] == Say(Checking) && st.effects[1] == LookupCards(reply.text)
  {
    match s
    case Done => Step(Done, [])
    case Asking(_) =>
      if IsFiller(reply.text) then Step(s, [])
      else if reply.found then
        Step(Done, [Say(Checking), LookupCards(reply.text), Say(Thanks), Save(UserRecord(userId, Some(reply.text), None))])
      else
        Step(Asking(RetryQuestion), [Say(Checking), LookupCards(reply.text), Prompt(RetryQuestion)])
  }

  /** Some reply is a username Trello knows. */
  predicate Answered(replies: seq<Reply>)
  {
    exists k :: 0 <= k < |replies| && !IsFiller(replies[k].text) && replies[k].found
  }

  /** A whole conversation after the first question: replies in order. */
  function Run(userId: string, s: FlowState, replies: seq<Reply>): (st: Step)
    ensures st.state.Done? <==> s.Done? || Answered(replies)
    decreases |replies|
  {
    if replies == [] then Step(s, [])
    else
      var first := Next(userId, s, replies[0]);
      var rest := Run(userId, first.state, replies[1..]);
      Step(rest.state, first.effects + rest.effects)
  }

  predicate IsSave(e: Effect) { e.Save? }
  predicate IsLookup(e: Effect) { e.LookupCards? }
  predicate IsThanks(e: Effect) { e == Say(Thanks) }
  predicate IsRetry(e: Effect) { e == Prompt(RetryQuestion) }

  /** Running two batches of replies one after the other. */
  lemma {:induction false} RunAppend(userId: string, s: FlowState, a: seq<Reply>, b: seq<Reply>)
    ensures Run(userId, s, a + b) ==
      Step(Run(userId, Run(userId, s, a).state, b).state,
           Run(userId, s, a).effects + Run(userId, Run(userId, s, a).state, b).effects)
    decreases |a|
  {
    if a == [] {
      assert a + b == b;
    } else {
      var first := Next(userId, s, a[0]);
      RunAppend(userId, first.state, a[1..], b);
      RunFront(userId, s, a);
      assert (a + b)[0] == a[0];
      assert (a + b)[1..] == a[1..] + b;
      RunFront(userId, s, a + b);
      var ra := Run(userId, first.state, a[1..]);
      var rb := Run(userId, ra.state, b);
      assert first.effects + (ra.effects + rb.effects) == (first.effects + ra.effects) + rb.effects;
    }
  }

  /** The first reply, then the others. */
  lemma RunFront(userId: string, s: FlowState, a: seq<Reply>)
    requires a != []
    ensures var first := Next(userId, s, a[0]);
      Run(userId, s, a) == Step(Run(userId, first.state, a[1..]).state, first.effects + Run(userId, first.state, a[1..]).effects)
  {
  }

  /** Filler replies leave the question standing and do nothing: no lookup,
      no save, no message. */
  lemma {:induction false} FillersAreSilent(userId: string, prompt: string, replies: seq<Reply>)
    requires forall k :: 0 <= k < |replies| ==> IsFiller(replies[k].text)
    ensures Run(userId, Asking(prompt), replies) == Step(Asking(prompt), [])
    decreases |replies|
  {
    if replies != [] {
      FillersAreSilent(userId, prompt, replies[1..]);
    }
  }

  /** The effects of a reply Trello knows, counted by kind. */
  lemma FoundEffects(userId: string, text: string)
    ensures var e := [Say(Checking), LookupCards(text), Say(Thanks), Save(UserRecord(userId, Some(text), None))];
      && Filter(e, IsLookup) == [LookupCards(text)]
      && Filter(e, IsSave) == [Save(UserRecord(userId, Some(text), None))]
      && Filter(e, IsThanks) == [Say(Thanks)]
      && Filter(e, IsRetry) == []
  {
    var saved := Save(UserRecord(userId, Some(text), None));
    Filter4(Say(Checking), LookupCards(text), Say(Thanks), saved, IsLookup);
    Filter4(Say(Checking), LookupCards(text), Say(Thanks), saved, IsSave);
    Filter4(Say(Checking), LookupCards(text), Say(Thanks), saved, IsThanks);
    Filter4(Say(Checking), LookupCards(text), Say(Thanks), saved, IsRetry);
  }

  /** The effects of a reply Trello does not know, counted by kind. */
  lemma MissEffects(text: string)
    ensures var e := [Say(Checking), LookupCards(text), Prompt(RetryQuestion)];
      && Filter(e, IsLookup) == [LookupCards(text)]
      && Filter(e, IsSave) == []
      && Filter(e, IsThanks) == []
      && Filter(e, IsRetry) == [Prompt(RetryQuestion)]
  {
    Filter3(Say(Checking), LookupCards(text), Prompt(RetryQuestion), IsLookup);
    Filter3(Say(Checking), LookupCards(text), Prompt(RetryQuestion), IsSave);
    Filter3(Say(Checking), LookupCards(text), Prompt(RetryQuestion), IsThanks);
    Filter3(Say(Checking), LookupCards(text), Prompt(RetryQuestion), IsRetry);
  }

  /** What one reply does, counted by kind: filler and finished
      conversations do nothing; otherwise one lookup of the reply, then
      either one save of `{id, trello: reply}` and one thanks, or one retry
      question and no save. */
  lemma NextEffects(userId: string, s: FlowState, reply: Reply)
    ensures var e := Next(userId, s, reply).effects;
      && (s.Done? || IsFiller(reply.text) ==> e == [])
      && (s.Asking? && !IsFiller(reply.text) ==>
            && Filter(e, IsLookup) == [LookupCards(reply.text)]
            && (reply.found ==> Filter(e, IsSave) == [Save(UserRecord(userId, Some(reply.text), None))])
            && (reply.found ==> |Filter(e, IsThanks)| == 1 && Filter(e, IsRetry) == [])
            && (!reply.found ==> Filter(e, IsSave) == [] && Filter(e, IsThanks) == [])
            && (!reply.found ==> Filter(e, IsRetry) == [Prompt(RetryQuestion)]))
  {
    if s.Asking? && !IsFiller(reply.text) {
      if reply.found {
        FoundEffects(userId, reply.text);
      } else {
        MissEffects(reply.text);
      }
    }
  }

  /** Filler, then a username Trello knows: exactly one lookup, of that
      name; exactly one save, of `{id, trello: name}` and nothing else;
      exactly one thanks; and the conversation is over. */
  lemma FillersThenFound(userId: string, prompt: string, fillers: seq<Reply>, name: string)
    requires forall k :: 0 <= k < |fillers| ==> IsFiller(fillers[k].text)
    requires !IsFiller(name)
    ensures var st := Run(userId, Asking(prompt), fillers + [Reply(name, true)]);
      && st.state == Done
      && Filter(st.effects, IsSave) == [Save(UserRecord(userId, Some(name), None))]
      && Filter(st.effects, IsLookup) == [LookupCards(name)]
      && |Filter(st.effects, IsThanks)| == 1
  {
    var r := Reply(name, true);
    FillersAreSilent(userId, prompt, fillers);
    RunAppend(userId, Asking(prompt), fillers, [r]);
    NextEffects(userId, Asking(prompt), r);
    var last := Next(userId, Asking(prompt), r);
    assert [r][1..] == [];
    assert Run(userId, Done, []) == Step(Done, []);
    assert Run(userId, Asking(prompt), [r]) == Step(Done, last.effects + []);
    assert last.effects + [] == last.effects;
    assert Run(userId, Asking(prompt), fillers + [r]) == Step(Done, [] + last.effects);
    assert [] + last.effects == last.effects;
  }

  /** Only usernames Trello does not know: nothing is ever saved, the retry
      question is asked once per reply, and the conversation is still
      waiting, however many replies came (there is no retry cap). */
  lemma {:induction false} OnlyUnknownNames(userId: string, prompt: string, replies: seq<Reply>)
    requires forall k :: 0 <= k < |replies| ==> !IsFiller(replies[k].text) && !replies[k].found
    ensures var st := Run(userId, Asking(prompt), replies);
      && st.state == (if replies == [] then Asking(prompt) else Asking(RetryQuestion))
      && Filter(st.effects, IsSave) == []
      && |Filter(st.effects, IsRetry)| == |replies|
      && |Filter(st.effects, IsLookup)| == |replies|
    decreases |replies|
  {
    if replies != [] {
      OnlyUnknownNames(userId, RetryQuestion, replies[1..]);
      NextEffects(userId, Asking(prompt), replies[0]);
      var first := Next(userId, Asking(prompt), replies[0]).effects;
      var rest := Run(userId, Asking(RetryQuestion), replies[1..]).effects;
      FilterAppend(first, rest, IsSave);
      FilterAppend(first, rest, IsRetry);
      FilterAppend(first, rest, IsLookup);
    }
  }

  /** Whatever the replies, a conversation saves at most once, and it saves
      exactly when it ends; a finished conversation does nothing more. */
  lemma {:induction false} AtMostOneSave(userId: string, s: FlowState, replies: seq<Reply>)
    ensures var st := Run(userId, s, replies);
      && |Filter(st.effects, IsSave)| <= 1
      && (s.Done? ==> st == Step(Done, []))
      && (s.Asking? ==> (|Filter(st.effects, IsSave)| == 1 <==> st.state == Done))
    decreases |replies|
  {
    if replies != [] {
      var first := Next(userId, s, replies[0]);
      AtMostOneSave(userId, first.state, replies[1..]);
      NextEffects(userId, s, replies[0]);
      var rest := Run(userId, first.state, replies[1..]);
      FilterAppend(first.effects, rest.effects, IsSave);
    }
  }

  /** A Slack roster entry (`res.members`); absent flags are false.
      `ultraRestricted` is the property the code reads, `ultra_restricted`
      (line 65). Slack's roster calls that flag `is_ultra_restricted`, so on a
      real roster `ultraRestricted` is always false and excludes no one. */
  datatype Member = Member(id: string, name: string, isBot: bool, isRestricted: bool,
                           ultraRestricted: bool, deleted: bool)

  /** Lines 63-67: a human, full, active member other than slackbot. */
  predicate IsTeammate(m: Member)
    ensures IsTeammate(m) ==> !m.isBot && m.name != "slackbot"
  {
    !m.isBot && !m.isRestricted && !m.ultraRestricted && !m.deleted && m.name != "slackbot"
  }

  /** Lines 61-70: the teammates, pushed in roster order. */
  method CollectTeammates(members: seq<Member>) returns (teammates: seq<Member>)
    ensures teammates == Filter(members, IsTeammate)
  {
    teammates := [];
    var k := 0;
    while k < |members|
      invariant 0 <= k <= |members|
      invariant teammates == Filter(members[..k], IsTeammate)
    {
      if IsTeammate(members[k]) {
        teammates := teammates + [members[k]];
      }
      k := k + 1;
      assert members[..k][..k - 1] == members[..k - 1];
    }
    assert members[..k] == members;
  }

  /** `usernames.indexOf(user.name) > -1` as a test on members. */
  function Listed(debugUsers: string): Member -> bool
  {
    (m: Member) => InCommaList(m.name, debugUsers)
  }

  /** Lines 72-75: in debug mode, only names in the comma-separated list. */
  function Narrowed(teammates: seq<Member>, debug: bool, debugUsers: string): (r: seq<Member>)
    ensures |r| <= |teammates|
    ensures forall m :: m in r <==> m in teammates && (!debug || InCommaList(m.name, debugUsers))
    ensures !debug ==> r == teammates
  {
    if debug then
      FilterMembers(teammates, Listed(debugUsers));
      Filter(teammates, Listed(debugUsers))
    else teammates
  }

  /** The record the store holds for `id`, or `None`. */
  function Stored(records: map<string, UserRecord>, id: string): Option<UserRecord>
  {
    if id in records then Some(records[id]) else None
  }

  /** Lines 82-83: the teammate has no stored username yet. */
  function Unverified(records: map<string, UserRecord>): Member -> bool
  {
    (m: Member) => !KnowsTrello(Stored(records, m.id))
  }

  /** Lines 77-85: look each teammate up and keep those to ask. */
  method SelectUnverified(dir: UserDirectory, teammates: seq<Member>) returns (ask: seq<Member>)
    requires dir.Valid()
    ensures ask == Filter(teammates, Unverified(dir.records))
  {
    ask := [];
    var k := 0;
    while k < |teammates|
      invariant 0 <= k <= |teammates|
      invariant ask == Filter(teammates[..k], Unverified(dir.records))
    {
      var data := dir.Get(teammates[k].id);
      if !KnowsTrello(data) {
        ask := ask + [teammates[k]];
      }
      k := k + 1;
      assert teammates[..k][..k - 1] == teammates[..k - 1];
    }
    assert teammates[..k] == teammates;
  }

  /** `checkUserTrello` up to the conversations (lines 61-85): the members
      who are asked, in roster order. A member is asked exactly when they are
      a teammate, allowed by the debug list when debug is on, and have no
      stored username. */
  method CheckUserTrello(dir: UserDirectory, members: seq<Member>, debug: bool, debugUsers: string)
    returns (ask: seq<Member>)
    requires dir.Valid()
    ensures forall m :: m in ask <==>
      && m in members
      && IsTeammate(m)
      && (!debug || InCommaList(m.name, debugUsers))
      && !KnowsTrello(Stored(dir.records, m.id))
  {
    var teammates := CollectTeammates(members);
    var narrowed := Narrowed(teammates, debug, debugUsers);
    ask := SelectUnverified(dir, narrowed);
    forall m: Member
      ensures m in ask <==>
        && m in members
        && IsTeammate(m)
        && (!debug || InCommaList(m.name, debugUsers))
        && !KnowsTrello(Stored(dir.records, m.id))
    {
      FilterMembership(members, IsTeammate, m);
      FilterMembership(narrowed, Unverified(dir.records), m);
    }
  }
}
