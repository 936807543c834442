/** One late-task run end to end (actions/late-tasks.js, lines 14-124):
    fetch the boards and their lists, build the index, resolve the users,
    fetch and classify each user's cards and push one job per user. What
    Trello answers is an input; a request that fails is a missing entry. */
module LateTasksRun {
  import opened Wrappers
  import opened Strings
  import opened Seqs
  import opened Directory
  import opened BoardIndex
  import opened LateTasks
  import opened DeliveryQueue

  /** Trello's answers during the run: `boards` is `None` when
      `/1/members/me/boards` fails; a board id missing from `lists`, or a
      username missing from `cards`, is a request that failed. */
  datatype TrelloView = TrelloView(
    boards: Option<seq<RemoteBoard>>,
    lists: map<string, seq<RemoteList>>,
    cards: map<string, seq<Card>>)

  /** The jobs pushed, and whether the run got through every user. */
  datatype RunResult = RunResult(jobs: seq<Job>, completed: bool)

  /** `bluebird.map` over the boards (lines 66-69): one list group per board,
      in board order, or a rejection if any request fails. */
  function ListGroups(boards: seq<RemoteBoard>, lists: map<string, seq<RemoteList>>): (r: Option<seq<seq<RemoteList>>>)
    ensures r.Some? <==> forall i :: 0 <= i < |boards| ==> boards[i].id in lists
    ensures r.Some? ==> |r.value| == |boards|
    ensures r.Some? ==> forall i :: 0 <= i < |boards| ==> r.value[i] == lists[boards[i].id]
  {
    if forall i :: 0 <= i < |boards| ==> boards[i].id in lists then
      Some(seq(|boards|, i requires 0 <= i < |boards| => lists[boards[i].id]))
    else None
  }

  /** Lines 85-88 plus the `null` check the source lacks: a `null` user (a
      single-user request for an id the store does not hold) throws at line
      87 or line 91 and ends the run; in debug mode only the users whose id is
      in the comma-separated `debugIds` stay. */
  function Resolve(users: seq<Option<UserRecord>>, debug: bool, debugIds: string): (r: Option<seq<UserRecord>>)
    ensures r.Some? <==> forall k :: 0 <= k < |users| ==> users[k].Some?
    ensures r.Some? ==> |r.value| <= |users|
    ensures r.Some? && !debug ==> |r.value| == |users| && forall k :: 0 <= k < |users| ==> Some(r.value[k]) == users[k]
  {
    if exists k :: 0 <= k < |users| && users[k].None? then None
    else
      var us := seq(|users|, k requires 0 <= k < |users| => users[k].value);
      Some(if debug then Filter(us, (u: UserRecord) => InCommaList(u.id, debugIds)) else us)
  }

  /** The debug filter keeps exactly the stored users allowed by the list,
      and keeps every user when debug is off. */
  lemma ResolveKeeps(users: seq<Option<UserRecord>>, debug: bool, debugIds: string, u: UserRecord)
    requires forall k :: 0 <= k < |users| ==> users[k].Some?
    ensures Resolve(users, debug, debugIds).Some?
    ensures u in Resolve(users, debug, debugIds).value <==>
      Some(u) in users && (!debug || InCommaList(u.id, debugIds))
  {
    var us := seq(|users|, k requires 0 <= k < |users| => users[k].value);
    assert u in us <==> Some(u) in users by {
      if u in us {
        var k :| 0 <= k < |us| && us[k] == u;
        assert users[k] == Some(u);
      }
      if Some(u) in users {
        var k :| 0 <= k < |users| && users[k] == Some(u);
        assert us[k] == u;
      }
    }
    if debug {
      FilterMembership(us, (u: UserRecord) => InCommaList(u.id, debugIds), u);
    }
  }

  /** One element of the `users.map` result (lines 90-100). */
  datatype Entry = NoTrello | Fetched(user: UserRecord, cards: Option<seq<Card>>)

  /** A user without a username yields `undefined`; any other user's cards
      are requested under their username. */
  function EntryOf(u: UserRecord, cards: map<string, seq<Card>>): (e: Entry)
    ensures e.NoTrello? <==> !Truthy(u.trello)
    ensures e.Fetched? ==> e.user == u && (e.cards.Some? <==> u.trello.value in cards)
    ensures e.Fetched? && e.cards.Some? ==> e.cards.value == cards[u.trello.value]
  {
    if !Truthy(u.trello) then NoTrello
    else Fetched(u, if u.trello.value in cards then Some(cards[u.trello.value]) else None)
  }

  /** The job one entry yields, or `None` when handling it throws: the
      `undefined` entry at line 103, a rejected card request, or the
      missing-list TypeError at line 110. */
  function JobOf(idx: Index, e: Entry, now: int, fmt: int -> string): (j: Option<Job>)
    ensures j.Some? ==> Fits(idx, j.value)
  {
    match e
    case NoTrello => None
    case Fetched(u, None) => None
    case Fetched(u, Some(cards)) =>
      match Classified(idx, cards, now, fmt)
      case None => None
      case Some(r) => Some(Job(u, r))
  }

  /** Why a user yields no job: no username (line 91, then line 103), a card
      request Trello rejects, or a card on an indexed board in a list the index
      lacks (line 110). Otherwise the job carries the user's classified cards. */
  lemma JobOfCauses(idx: Index, u: UserRecord, cards: map<string, seq<Card>>, now: int, fmt: int -> string)
    ensures JobOf(idx, EntryOf(u, cards), now, fmt).None? <==>
      || !Truthy(u.trello)
      || u.trello.value !in cards
      || exists i :: 0 <= i < |cards[u.trello.value]| && MissingList(idx, cards[u.trello.value][i])
    ensures JobOf(idx, EntryOf(u, cards), now, fmt).Some? ==>
      && Classified(idx, cards[u.trello.value], now, fmt).Some?
      && JobOf(idx, EntryOf(u, cards), now, fmt).value == Job(u, Classified(idx, cards[u.trello.value], now, fmt).value)
  {
    if Truthy(u.trello) && u.trello.value in cards {
      ClassifiedFailsIff(idx, cards[u.trello.value], now, fmt);
    }
  }

  /** `.each` (lines 102-123) takes the users one at a time and stops at the
      first that throws; the jobs pushed before it stay queued. */
  function Planned(idx: Index, users: seq<UserRecord>, cards: map<string, seq<Card>>, now: int, fmt: int -> string): (r: RunResult)
    ensures AllFit(idx, r.jobs)
    decreases |users|
  {
    if users == [] then RunResult([], true)
    else
      match JobOf(idx, EntryOf(users[0], cards), now, fmt)
      case None => RunResult([], false)
      case Some(j) =>
        var rest := Planned(idx, users[1..], cards, now, fmt);
        RunResult([j] + rest.jobs, rest.completed)
  }

  /** At most one job per user, and one for every user when the run completes. */
  lemma {:induction false} PlannedLength(idx: Index, users: seq<UserRecord>, cards: map<string, seq<Card>>, now: int, fmt: int -> string)
    ensures var r := Planned(idx, users, cards, now, fmt);
      |r.jobs| <= |users| && (r.completed ==> |r.jobs| == |users|)
    decreases |users|
  {
    if users != [] {
      PlannedLength(idx, users[1..], cards, now, fmt);
    }
  }

  /** The users the run looks at: the one requested, or everyone in the
      store's listing order. */
  function Users(userId: Option<string>, ids: seq<string>, records: map<string, UserRecord>): seq<Option<UserRecord>>
    requires forall k :: 0 <= k < |ids| ==> ids[k] in records
  {
    if Truthy(userId) then [if userId.value in records then Some(records[userId.value]) else None]
    else seq(|ids|, k requires 0 <= k < |ids| => Some(records[ids[k]]))
  }

  /** The index the run builds, when the board and list requests succeed. */
  function IndexFromView(view: TrelloView): Option<Index>
  {
    if view.boards.None? then None
    else
      match ListGroups(view.boards.value, view.lists)
      case None => None
      case Some(groups) => Some(Built(view.boards.value, groups))
  }

  /** The whole run: what gets pushed, and whether it got through.
      `readFails` says the store rejects the read of lines 78-81, which ends
      the run after the index is built and before any job. */
  function RunSpec(view: TrelloView, ids: seq<string>, records: map<string, UserRecord>, userId: Option<string>,
                   readFails: bool, debug: bool, debugIds: string, now: int, fmt: int -> string): (r: RunResult)
    requires forall k :: 0 <= k < |ids| ==> ids[k] in records
    ensures IndexFromView(view).None? || readFails ==> r == RunResult([], false)
    ensures |r.jobs| <= |Users(userId, ids, records)|
    ensures Truthy(userId) ==> |r.jobs| <= 1
    ensures r.completed && !debug ==> |r.jobs| == |Users(userId, ids, records)|
  {
    match IndexFromView(view)
    case None => RunResult([], false)
    case Some(idx) =>
      if readFails then RunResult([], false)
      else match Resolve(Users(userId, ids, records), debug, debugIds)
      case None => RunResult([], false)
      case Some(us) =>
        PlannedLength(idx, us, view.cards, now, fmt);
        Planned(idx, us, view.cards, now, fmt)
  }

  /** The run in the source's own form: a fresh queue, the index published
      to it, then the `.each` loop pushing one job per user. */
  method Run(dir: UserDirectory, view: TrelloView, userId: Option<string>, readFails: bool, debug: bool, debugIds: string,
             now: int, fmt: int -> string) returns (q: Queue, completed: bool)
    requires dir.Valid()
    ensures fresh(q) && q.Valid()
    ensures q.requested == Truthy(userId) && q.attempted == [] && q.said == []
    ensures IndexFromView(view).Some? ==> q.boards == IndexFromView(view).value
    ensures RunResult(q.pending, completed) == RunSpec(view, dir.ids, dir.records, userId, readFails, debug, debugIds, now, fmt)
  {
    q := new Queue(Truthy(userId));
    completed := false;
    if view.boards.None? {
      return;
    }
    var boards := view.boards.value;
    var groups := ListGroups(boards, view.lists);
    if groups.None? {
      return;
    }
    var idx := BuildIndex(boards, groups.value);
    BuiltIndexShape(boards, groups.value);
    q.Publish(idx);
    if readFails {
      return;
    }
    var users := FetchUsers(dir, userId);
    var resolved := Resolve(users, debug, debugIds);
    if resolved.None? {
      return;
    }
    completed := PushJobs(q, idx, resolved.value, view.cards, now, fmt);
  }

  /** Lines 77-81: the requested user's record, or every record. */
  method FetchUsers(dir: UserDirectory, userId: Option<string>) returns (users: seq<Option<UserRecord>>)
    requires dir.Valid()
    ensures users == Users(userId, dir.ids, dir.records)
  {
    if Truthy(userId) {
      var data := dir.Get(userId.value);
      users := [data];
    } else {
      var all := dir.All();
      users := seq(|all|, k requires 0 <= k < |all| => Some(all[k]));
    }
  }

  /** One step of `Planned` from position `i`. */
  lemma PlannedStep(idx: Index, us: seq<UserRecord>, i: nat, cards: map<string, seq<Card>>, now: int, fmt: int -> string)
    requires i < |us|
    ensures Planned(idx, us[i..], cards, now, fmt) ==
      match JobOf(idx, EntryOf(us[i], cards), now, fmt)
      case None => RunResult([], false)
      case Some(j) => RunResult([j] + Planned(idx, us[i + 1..], cards, now, fmt).jobs,
                                Planned(idx, us[i + 1..], cards, now, fmt).completed)
  {
    assert us[i..][0] == us[i];
    assert us[i..][1..] == us[i + 1..];
  }

  /** Lines 102-123: classify each user's cards in turn and push the job;
      the first user that throws ends the loop. */
  method PushJobs(q: Queue, idx: Index, us: seq<UserRecord>, cards: map<string, seq<Card>>, now: int, fmt: int -> string)
    returns (completed: bool)
    requires q.Valid() && q.boards == idx && q.pending == []
    modifies q
    ensures q.Valid() && q.boards == idx
    ensures q.attempted == old(q.attempted) && q.said == old(q.said)
    ensures RunResult(q.pending, completed) == Planned(idx, us, cards, now, fmt)
  {
    completed := false;
    var i := 0;
    while i < |us|
      invariant 0 <= i <= |us|
      invariant q.Valid() && q.boards == idx
      invariant q.attempted == old(q.attempted) && q.said == old(q.said)
      invariant Planned(idx, us, cards, now, fmt) ==
        RunResult(q.pending + Planned(idx, us[i..], cards, now, fmt).jobs,
                  Planned(idx, us[i..], cards, now, fmt).completed)
    {
      PlannedStep(idx, us, i, cards, now, fmt);
      var e := EntryOf(us[i], cards);
      if e.NoTrello? || e.cards.None? {
        assert q.pending + [] == q.pending;
        return;
      }
      var r := ClassifyCards(idx, e.cards.value, now, fmt);
      if r.None? {
        assert q.pending + [] == q.pending;
        return;
      }
      ghost var before := q.pending;
      q.Push(Job(e.user, r.value));
      assert q.pending + Planned(idx, us[i + 1..], cards, now, fmt).jobs
        == before + ([Job(e.user, r.value)] + Planned(idx, us[i + 1..], cards, now, fmt).jobs);
      i := i + 1;
    }
    completed := true;
    assert q.pending + [] == q.pending;
  }

  /** What the serial loop promises: the k-th job is the k-th user's
      classified cards; the run completes exactly when every user yields a
      job; otherwise the user after the last job is the one that threw. */
  lemma {:induction false} PlannedPrefix(idx: Index, users: seq<UserRecord>, cards: map<string, seq<Card>>, now: int, fmt: int -> string)
    ensures var r := Planned(idx, users, cards, now, fmt);
      && |r.jobs| <= |users|
      && (forall k :: 0 <= k < |r.jobs| ==> JobOf(idx, EntryOf(users[k], cards), now, fmt) == Some(r.jobs[k]))
      && (r.completed <==> |r.jobs| == |users|)
      && (!r.completed ==> JobOf(idx, EntryOf(users[|r.jobs|], cards), now, fmt).None?)
    decreases |users|
  {
    if users != [] {
      PlannedPrefix(idx, users[1..], cards, now, fmt);
      var r := Planned(idx, users, cards, now, fmt);
      if JobOf(idx, EntryOf(users[0], cards), now, fmt).Some? {
        var rest := Planned(idx, users[1..], cards, now, fmt);
        forall k | 0 <= k < |r.jobs|
          ensures JobOf(idx, EntryOf(users[k], cards), now, fmt) == Some(r.jobs[k])
        {
          if k > 0 {
            assert r.jobs[k] == rest.jobs[k - 1] && users[k] == users[1..][k - 1];
          }
        }
        if !r.completed {
          assert users[|r.jobs|] == users[1..][|rest.jobs|];
        }
      }
    }
  }

  /** A user without a Trello username stops the run where they stand
      (line 103): no job for them, none for anyone after them. */
  lemma NoTrelloStops(idx: Index, users: seq<UserRecord>, cards: map<string, seq<Card>>, now: int, fmt: int -> string, k: nat)
    requires k < |users| && !Truthy(users[k].trello)
    ensures !Planned(idx, users, cards, now, fmt).completed
    ensures |Planned(idx, users, cards, now, fmt).jobs| <= k
  {
    PlannedPrefix(idx, users, cards, now, fmt);
  }

  /** A single-user request for an id the store lacks pushes nothing. */
  lemma UnknownRequesterPushesNothing(view: TrelloView, ids: seq<string>, records: map<string, UserRecord>,
                                      userId: Option<string>, readFails: bool, debug: bool, debugIds: string,
                                      now: int, fmt: int -> string)
    requires forall k :: 0 <= k < |ids| ==> ids[k] in records
    requires Truthy(userId) && userId.value !in records
    ensures RunSpec(view, ids, records, userId, readFails, debug, debugIds, now, fmt) == RunResult([], false)
  {
    assert Users(userId, ids, records)[0].None?;
  }
}
