/** Trello comment alerts and the notification commands
    (actions/alert-user-trello.js): which webhook payloads are answered and
    who is told about a comment, the message built from the comment, and
    what "notifications on" and "notifications off" do to the stored record. */
module AlertUserTrello {
  import opened Wrappers
  import opened Seqs
  import opened Strings
  import opened Directory

  /** The parts of a Trello `action` the handler reads: its type, the
      commenter's username, the comment text, and the card and board. */
  datatype CommentAction = CommentAction(actionType: string, creator: Option<string>, text: string,
                                         cardShortLink: string, cardName: string, boardName: string)

  /** A webhook body: `action` is `None` when it is missing or not an object;
      `modelUsername` is `model.username`. */
  datatype Payload = Payload(action: Option<CommentAction>, modelUsername: Option<string>)

  datatype Field = Field(title: string, value: string, short: bool)
  datatype CommentAttachment = CommentAttachment(fallback: string, text: string, fields: seq<Field>, color: string)
  datatype CommentMessage = CommentMessage(text: string, attachments: seq<CommentAttachment>)
  datatype Delivery = Delivery(user: string, message: CommentMessage)

  /** What the handler does: the HTTP response it sends (`None`: it never
      answers) and the direct message it starts, if any. */
  datatype Handled = Handled(response: Option<string>, delivery: Option<Delivery>)

  const CommentColor := "#838C91"
  const CardBase := "https://trello.com/c/"
  const LinkOpen := " <" + CardBase
  const LinkClose := "|commented>"

  /** A value interpolated into a template literal: `undefined` prints as such. */
  function Show(v: Option<string>): string
  {
    if v.Some? then v.value else "undefined"
  }

  /** Line 46-47: `*<commenter>* <https://trello.com/c/<shortLink>|commented>`. */
  function Headline(creator: string, shortLink: string): string
  {
    "*" + creator + "*" + LinkOpen + shortLink + LinkClose
  }

  /** Lines 44-69: the direct message about a comment. */
  function MessageFor(a: CommentAction): (m: CommentMessage)
    ensures '*' !in Show(a.creator) && '|' !in a.cardShortLink ==>
      ParseHeadline(m.text) == Some((Show(a.creator), a.cardShortLink))
    ensures |m.attachments| == 1 && m.attachments[0].text == a.text && m.attachments[0].color == CommentColor
    ensures m.attachments[0].fields == [Field("Card", a.cardName, true), Field("Board", a.boardName, true)]
  {
    assert '*' !in Show(a.creator) && '|' !in a.cardShortLink ==>
      ParseHeadline(Headline(Show(a.creator), a.cardShortLink)) == Some((Show(a.creator), a.cardShortLink)) by {
      if '*' !in Show(a.creator) && '|' !in a.cardShortLink {
        HeadlineRoundTrip(Show(a.creator), a.cardShortLink);
      }
    }
    CommentMessage(
      Headline(Show(a.creator), a.cardShortLink),
      [CommentAttachment(
        "*" + Show(a.creator) + "* commented: " + CardBase + a.cardShortLink,
        a.text,
        [Field("Card", a.cardName, true), Field("Board", a.boardName, true)],
        CommentColor)])
  }

  /** Reads the short link back out of `" <https://trello.com/c/<shortLink>|commented>"`. */
  function ParseLink(tail: string): Option<string>
  {
    if |tail| < |LinkOpen| || tail[..|LinkOpen|] != LinkOpen then None
    else
      var link := tail[|LinkOpen|..];
      if '|' !in link then None
      else
        var j := IndexOf(link, '|');
        if link[j..] != LinkClose then None else Some(link[..j])
  }

  /** Reads the commenter and the short link back out of a headline. */
  function ParseHeadline(t: string): Option<(string, string)>
  {
    if |t| == 0 || t[0] != '*' || '*' !in t[1..] then None
    else
      var rest := t[1..];
      var i := IndexOf(rest, '*');
      var link := ParseLink(rest[i + 1..]);
      if link.None? then None else Some((rest[..i], link.value))
  }

  lemma ParseLinkRoundTrip(shortLink: string)
    requires '|' !in shortLink
    ensures ParseLink(LinkOpen + shortLink + LinkClose) == Some(shortLink)
  {
    var tail := LinkOpen + shortLink + LinkClose;
    var link := shortLink + ['|'] + "commented>";
    assert tail[..|LinkOpen|] == LinkOpen;
    assert tail[|LinkOpen|..] == link;
    IndexOfAfter(shortLink, '|', "commented>");
    assert link[|shortLink|..] == LinkClose;
    assert link[..|shortLink|] == shortLink;
  }

  /** The headline names the commenter and the card unambiguously: a Trello
      username has no `*` and a short link has no `|`, and then both are
      read back from the message text. */
  lemma HeadlineRoundTrip(creator: string, shortLink: string)
    requires '*' !in creator && '|' !in shortLink
    ensures ParseHeadline(Headline(creator, shortLink)) == Some((creator, shortLink))
  {
    var after := LinkOpen + shortLink + LinkClose;
    var rest := creator + ['*'] + after;
    HeadlineShape(creator, shortLink);
    IndexOfAfter(creator, '*', after);
    assert rest[|creator| + 1..] == after;
    assert rest[..|creator|] == creator;
    ParseLinkRoundTrip(shortLink);
  }

  /** The headline is a star, then the commenter, a star and the link. */
  lemma HeadlineShape(creator: string, shortLink: string)
    ensures var t := Headline(creator, shortLink);
      |t| > 0 && t[0] == '*' && t[1..] == creator + ['*'] + (LinkOpen + shortLink + LinkClose)
  {
    var t := Headline(creator, shortLink);
    assert t == "*" + (creator + ['*'] + (LinkOpen + shortLink + LinkClose));
  }

  /** Line 29: `u.trello === model.username`; an absent username on both
      sides counts as equal. */
  function Matches(username: Option<string>): UserRecord -> bool
  {
    (u: UserRecord) => u.trello == username
  }

  /** Lines 29-31: the first matching user, unless there is none or the
      commenter is the watched member. */
  function Recipient(users: seq<UserRecord>, username: Option<string>, creator: Option<string>): (to: Option<string>)
    ensures to.None? <==> username == creator || forall j :: 0 <= j < |users| ==> users[j].trello != username
    ensures to.Some? ==> exists u :: u in users && u.trello == username && u.id == to.value
  {
    var matching := Filter(users, Matches(username));
    FilterEmpty(users, Matches(username));
    assert matching != [] ==> matching[0] in users && matching[0].trello == username by {
      if matching != [] {
        FilterSound(users, Matches(username), matching[0]);
      }
    }
    if matching == [] || username == creator then None else Some(matching[0].id)
  }

  /** The recipient is the first stored user whose username is the watched
      member's, and no one when the watched member wrote the comment. */
  lemma RecipientIsFirstMatch(users: seq<UserRecord>, username: Option<string>, creator: Option<string>, k: nat)
    requires k < |users| && users[k].trello == username
    requires forall j :: 0 <= j < k ==> users[j].trello != username
    ensures Recipient(users, username, creator) == if username == creator then None else Some(users[k].id)
  {
    FilterHead(users, Matches(username), k);
  }

  /** No stored user has the watched member's username: nobody is told. */
  lemma NoMatchNoRecipient(users: seq<UserRecord>, username: Option<string>, creator: Option<string>)
    requires forall j :: 0 <= j < |users| ==> users[j].trello != username
    ensures Recipient(users, username, creator) == None
  {
    FilterEmpty(users, Matches(username));
  }

  /** The POST handler (lines 15-31, 73): `users` is the result of reading
      every stored record, `None` when the read fails. */
  function Dispatch(p: Payload, users: Option<seq<UserRecord>>): (h: Handled)
    ensures h.delivery.Some? <==>
      && p.action.Some? && p.action.value.actionType == "commentCard"
      && users.Some?
      && Recipient(users.value, p.modelUsername, p.action.value.creator).Some?
    ensures h.delivery.Some? ==>
      h.delivery.value == Delivery(Recipient(users.value, p.modelUsername, p.action.value.creator).value,
                                   MessageFor(p.action.value))
  {
    if p.action.None? || p.action.value.actionType != "commentCard" then Handled(None, None)
    else
      var a := p.action.value;
      var to := if users.Some? then Recipient(users.value, p.modelUsername, a.creator) else None;
      Handled(Some("ok"), if to.Some? then Some(Delivery(to.value, MessageFor(a))) else None)
  }

  /** Lines 16-23, 73: only a comment action is answered, and it is answered
      with "ok" whether or not anyone is told; a message is only ever sent
      about a comment, about that comment, and never when the listing fails. */
  lemma DispatchGate(p: Payload, users: Option<seq<UserRecord>>)
    ensures Dispatch(p, users).response.Some? <==> p.action.Some? && p.action.value.actionType == "commentCard"
    ensures Dispatch(p, users).response.Some? ==> Dispatch(p, users).response == Some("ok")
    ensures Dispatch(p, users).delivery.Some? ==>
      && Dispatch(p, users).response == Some("ok")
      && users.Some?
      && Dispatch(p, users).delivery.value.message == MessageFor(p.action.value)
      && Dispatch(p, users).delivery.value.message.text == Headline(Show(p.action.value.creator), p.action.value.cardShortLink)
  {
  }

  /** A comment by someone other than the watched member reaches exactly the
      first stored user watching that member, and a self-comment reaches no one. */
  lemma DispatchRecipient(p: Payload, users: seq<UserRecord>, k: nat)
    requires p.action.Some? && p.action.value.actionType == "commentCard"
    requires k < |users| && users[k].trello == p.modelUsername
    requires forall j :: 0 <= j < k ==> users[j].trello != p.modelUsername
    ensures p.modelUsername != p.action.value.creator ==>
      Dispatch(p, Some(users)).delivery == Some(Delivery(users[k].id, MessageFor(p.action.value)))
    ensures p.modelUsername == p.action.value.creator ==> Dispatch(p, Some(users)).delivery == None
  {
    RecipientIsFirstMatch(users, p.modelUsername, p.action.value.creator, k);
  }

  /** The `k`-th listed record watches `username`. */
  predicate Watches(ids: seq<string>, records: map<string, UserRecord>, username: Option<string>, k: int)
  {
    0 <= k < |ids| && ids[k] in records && records[ids[k]].trello == username
  }

  /** The `k`-th listed record is the first that watches `username`. */
  predicate FirstWatcher(ids: seq<string>, records: map<string, UserRecord>, username: Option<string>, k: int)
  {
    Watches(ids, records, username, k) && forall j :: 0 <= j < k ==> !Watches(ids, records, username, j)
  }

  /** The handler against the store: it lists every record and dispatches. */
  method HandleWebhook(dir: UserDirectory, p: Payload, listingFails: bool) returns (h: Handled)
    requires dir.Valid()
    ensures h.response.Some? <==> p.action.Some? && p.action.value.actionType == "commentCard"
    ensures h.response.Some? ==> h.response.value == "ok"
    ensures h.delivery.Some? ==> !listingFails
    ensures h.delivery.Some? ==> p.action.Some? && h.delivery.value.message == MessageFor(p.action.value)
    ensures h.delivery.Some? ==>
      exists k :: FirstWatcher(dir.ids, dir.records, p.modelUsername, k) && dir.ids[k] == h.delivery.value.user
    ensures h.delivery.Some? ==> p.action.Some? && p.modelUsername != p.action.value.creator
    ensures !listingFails && p.action.Some? && p.action.value.actionType == "commentCard"
      && p.modelUsername != p.action.value.creator
      && (exists k :: Watches(dir.ids, dir.records, p.modelUsername, k))
      ==> h.delivery.Some?
  {
    if p.action.None? || p.action.value.actionType != "commentCard" {
      return Handled(None, None);
    }
    if listingFails {
      return Dispatch(p, None);
    }
    h := NotifyListed(dir, p);
  }

  /** A comment, once the store lists its records: "ok", and a message to the
      first watcher unless they wrote the comment. */
  method NotifyListed(dir: UserDirectory, p: Payload) returns (h: Handled)
    requires dir.Valid() && p.action.Some? && p.action.value.actionType == "commentCard"
    ensures h.response == Some("ok")
    ensures h.delivery.Some? ==> h.delivery.value.message == MessageFor(p.action.value)
    ensures h.delivery.Some? ==> p.modelUsername != p.action.value.creator
    ensures h.delivery.Some? ==>
      exists k :: FirstWatcher(dir.ids, dir.records, p.modelUsername, k) && dir.ids[k] == h.delivery.value.user
    ensures p.modelUsername != p.action.value.creator && (exists k :: Watches(dir.ids, dir.records, p.modelUsername, k))
      ==> h.delivery.Some?
  {
    var users := dir.All();
    h := Dispatch(p, Some(users));
    forall j | 0 <= j < |dir.ids|
      ensures dir.ids[j] in dir.records && users[j] == dir.records[dir.ids[j]] && users[j].id == dir.ids[j]
    {
    }
    assert Listing(users, dir.ids, dir.records);
    if exists k :: 0 <= k < |users| && users[k].trello == p.modelUsername {
      var k := FirstMatch(users, p.modelUsername);
      ListedFirstMatch(p, users, dir.ids, dir.records, k);
    } else {
      ListedNoMatch(p, users, dir.ids, dir.records);
    }
  }

  /** `users` is what `all` returns for the store `ids`, `records`. */
  predicate Listing(users: seq<UserRecord>, ids: seq<string>, records: map<string, UserRecord>)
  {
    && |users| == |ids|
    && forall j :: 0 <= j < |ids| ==> ids[j] in records && users[j] == records[ids[j]] && users[j].id == ids[j]
  }

  /** The first match in the listing is the first stored id, in listing
      order, whose record carries the watched username. */
  lemma ListedFirstMatch(p: Payload, users: seq<UserRecord>, ids: seq<string>, records: map<string, UserRecord>, k: nat)
    requires p.action.Some? && p.action.value.actionType == "commentCard"
    requires Listing(users, ids, records)
    requires k < |users| && users[k].trello == p.modelUsername
    requires forall j :: 0 <= j < k ==> users[j].trello != p.modelUsername
    ensures Dispatch(p, Some(users)).delivery ==
      if p.modelUsername == p.action.value.creator then None else Some(Delivery(ids[k], MessageFor(p.action.value)))
    ensures FirstWatcher(ids, records, p.modelUsername, k)
  {
    RecipientIsFirstMatch(users, p.modelUsername, p.action.value.creator, k);
  }

  /** No listed record watches the member: nobody is told. */
  lemma ListedNoMatch(p: Payload, users: seq<UserRecord>, ids: seq<string>, records: map<string, UserRecord>)
    requires p.action.Some? && p.action.value.actionType == "commentCard"
    requires Listing(users, ids, records)
    requires !exists k :: 0 <= k < |users| && users[k].trello == p.modelUsername
    ensures Dispatch(p, Some(users)).delivery == None
    ensures forall k :: !Watches(ids, records, p.modelUsername, k)
  {
    NoMatchNoRecipient(users, p.modelUsername, p.action.value.creator);
  }

  /** The index of the first user whose username is `username`. */
  method FirstMatch(users: seq<UserRecord>, username: Option<string>) returns (k: nat)
    requires exists k :: 0 <= k < |users| && users[k].trello == username
    ensures k < |users| && users[k].trello == username
    ensures forall j :: 0 <= j < k ==> users[j].trello != username
  {
    k := 0;
    while users[k].trello != username
      invariant k < |users|
      invariant forall j :: 0 <= j < k ==> users[j].trello != username
      invariant exists m :: k <= m < |users| && users[m].trello == username
      decreases |users| - k
    {
      k := k + 1;
    }
  }

  /** A Trello request the commands make. */
  datatype Call = GetMember(path: string) | CreateWebhook(callbackURL: string, idModel: string) | DeleteWebhook(path: string)

  const OnReply := "Trello notifications have been turned *on*."
  const OffReply := "Trello notifications have been turned *off*."

  function CallbackURL(hostname: string): string
  {
    "http://" + hostname + "/trello/webhook"
  }

  /** "notifications on" (lines 85-111). `member` is the id Trello returns
      for the user's member (`None`: the request fails) and `webhook` the id
      of the webhook it creates (`None`: that request fails). For a user with
      no record the store yields `null` and reading `data.trello` (line 91)
      throws inside the storage callback: no request, no reply, no save. */
  method NotificationsOn(dir: UserDirectory, userId: string, hostname: string,
                         member: Option<string>, webhook: Option<string>)
    returns (calls: seq<Call>, reply: Option<string>)
    requires dir.Valid()
    modifies dir
    ensures dir.Valid()
    ensures userId !in old(dir.records) ==>
      calls == [] && reply == None && dir.records == old(dir.records) && dir.ids == old(dir.ids)
    ensures userId in old(dir.records) ==>
      && |calls| >= 1
      && calls[0] == GetMember("/1/members/" + Show(old(dir.records)[userId].trello))
      && (member.Some? ==> |calls| == 2 && calls[1] == CreateWebhook(CallbackURL(hostname), member.value))
      && (member.None? ==> |calls| == 1)
    ensures reply.Some? <==> userId in old(dir.records) && member.Some? && webhook.Some?
    ensures reply.Some? ==>
      && reply == Some(OnReply)
      && dir.records == old(dir.records)[userId := UserRecord(userId, old(dir.records)[userId].trello, webhook)]
      && dir.ids == old(dir.ids)
    ensures reply.None? ==> dir.records == old(dir.records) && dir.ids == old(dir.ids)
  {
    var data := dir.Get(userId);
    if data.None? {
      return [], None;
    }
    calls := [GetMember("/1/members/" + Show(data.value.trello))];
    reply := None;
    if member.None? {
      return;
    }
    calls := calls + [CreateWebhook(CallbackURL(hostname), member.value)];
    if webhook.None? {
      return;
    }
    dir.Save(UserRecord(userId, data.value.trello, webhook));
    reply := Some(OnReply);
  }

  /** "notifications off" (lines 113-123): delete the stored webhook;
      the record itself is left as it was. `deleted` says whether Trello
      accepts the deletion. For a user with no record, reading
      `data.trelloWebhook` (line 119) throws: no request and no reply. */
  method NotificationsOff(dir: UserDirectory, userId: string, deleted: bool)
    returns (calls: seq<Call>, reply: Option<string>)
    requires dir.Valid()
    ensures userId !in dir.records ==> calls == [] && reply == None
    ensures userId in dir.records ==>
      calls == [DeleteWebhook("/1/webhooks/" + Show(dir.records[userId].trelloWebhook))]
    ensures reply.Some? <==> userId in dir.records && deleted
    ensures reply.Some? ==> reply == Some(OffReply)
  {
    var data := dir.Get(userId);
    if data.None? {
      return [], None;
    }
    calls := [DeleteWebhook("/1/webhooks/" + Show(data.value.trelloWebhook))];
    reply := if deleted then Some(OffReply) else None;
  }

  /** "notifications on" followed by "notifications off": the username
      survives both, "off" deletes exactly the webhook "on" created, and the
      record still names that webhook afterwards. */
  method OnThenOff(dir: UserDirectory, userId: string, hostname: string, member: string, webhook: string, deleted: bool)
    returns (offCalls: seq<Call>)
    requires dir.Valid() && userId in dir.records
    modifies dir
    ensures dir.Valid()
    ensures offCalls == [DeleteWebhook("/1/webhooks/" + webhook)]
    ensures userId in dir.records
    ensures dir.records[userId] == UserRecord(userId, old(dir.records)[userId].trello, Some(webhook))
  {
    var onCalls, onReply := NotificationsOn(dir, userId, hostname, Some(member), Some(webhook));
    var offReply;
    offCalls, offReply := NotificationsOff(dir, userId, deleted);
  }
}
