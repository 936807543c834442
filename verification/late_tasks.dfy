/** Classification of one user's cards and the summary message sent to them
    (actions/late-tasks.js, lines 28-50 and 102-120). Time is an integer
    timestamp; the date formatter is a parameter. */
module LateTasks {
  import opened Wrappers
  import opened Strings
  import opened Seqs
  import opened BoardIndex

  /** A card as `/1/members/<username>/cards` returns it: `badges.due` is
      `due`, absent when the card has no due date. */
  datatype Card = Card(idBoard: string, idList: string, due: Option<int>, shortUrl: string, name: string)

  /** The exclusion pattern `completed|done|shipped|(ready for qa)|(ready to ship)`,
      matched anywhere in an already lower-cased list name. */
  predicate Excluded(list: string)
    ensures Excluded(list) ==> |list| >= |"done"|
  {
    || Contains(list, "completed")
    || Contains(list, "done")
    || Contains(list, "shipped")
    || Contains(list, "ready for qa")
    || Contains(list, "ready to ship")
  }

  /** The pattern is unanchored: a list name that contains an excluded
      name is excluded ("Done (week 12)", "QA done"). */
  lemma ExcludedAround(pre: string, list: string, post: string)
    ensures Excluded(list) ==> Excluded(pre + list + post)
  {
    ContainsAround(list);
  }

  /** Lower-casing keeps every match: the excluded names have no capitals. */
  lemma ExcludedLower(list: string)
    ensures Excluded(list) ==> Excluded(Lower(list))
  {
    ContainsLower(list, "completed");
    ContainsLower(list, "done");
    ContainsLower(list, "shipped");
    ContainsLower(list, "ready for qa");
    ContainsLower(list, "ready to ship");
  }

  /** The due time lies strictly before now; a card without one is never due. */
  predicate PastDue(due: Option<int>, now: int)
  {
    due.Some? && due.value < now
  }

  /** The test on lines 113-114. */
  predicate IsLate(listName: string, due: Option<int>, now: int)
    ensures IsLate(listName, due, now) ==> due.Some? && due.value < now
    ensures Excluded(listName) ==> !IsLate(listName, due, now)
  {
    ExcludedLower(listName);
    PastDue(due, now) && !Excluded(Lower(listName))
  }

  /** `<formatted due>: <shortUrl|name>` (line 117). */
  function Line(fmt: int -> string, c: Card): string
    requires c.due.Some?
  {
    fmt(c.due.value) + ": <" + c.shortUrl + "|" + c.name + ">"
  }

  /** `data.out` (one bucket of lines per board id) and `data.lateCards`. */
  datatype Report = Report(out: map<string, seq<string>>, lateCards: nat)

  /** Line 105: an empty bucket for every board in the index. */
  function EmptyBuckets(idx: Index): (out: map<string, seq<string>>)
    ensures out.Keys == idx.boards.Keys
    ensures forall b :: b in out ==> out[b] == []
  {
    map b | b in idx.boards :: []
  }

  /** The card's board is indexed but its list is not: line 110 calls
      `toLowerCase` on `undefined` and the run stops with a TypeError. */
  predicate MissingList(idx: Index, c: Card)
  {
    c.idBoard in idx.boards && c.idList !in idx.boards[c.idBoard].lists
  }

  /** The card is on an indexed board and list and passes the late test. */
  predicate CountsAsLate(idx: Index, c: Card, now: int)
  {
    && c.idBoard in idx.boards
    && c.idList in idx.boards[c.idBoard].lists
    && IsLate(idx.boards[c.idBoard].lists[c.idList], c.due, now)
  }

  /** One iteration of the card loop (lines 107-119); `None` is the TypeError. */
  function ClassifyOne(idx: Index, r: Report, c: Card, now: int, fmt: int -> string): (r': Option<Report>)
    requires r.out.Keys == idx.boards.Keys
    ensures r'.None? <==> MissingList(idx, c)
    ensures r'.Some? ==> r'.value.out.Keys == idx.boards.Keys
    ensures r'.Some? && !CountsAsLate(idx, c, now) ==> r'.value == r
    ensures r'.Some? && CountsAsLate(idx, c, now) ==>
      r'.value == Report(r.out[c.idBoard := r.out[c.idBoard] + [Line(fmt, c)]], r.lateCards + 1)
  {
    if c.idBoard !in idx.boards then Some(r)
    else if c.idList !in idx.boards[c.idBoard].lists then None
    else if IsLate(idx.boards[c.idBoard].lists[c.idList], c.due, now) then
      Some(Report(r.out[c.idBoard := r.out[c.idBoard] + [Line(fmt, c)]], r.lateCards + 1))
    else Some(r)
  }

  /** The report after the cards in arrival order, or `None` once a card hits
      the missing-list TypeError. */
  function Classified(idx: Index, cards: seq<Card>, now: int, fmt: int -> string): (r: Option<Report>)
    ensures r.Some? ==> r.value.out.Keys == idx.boards.Keys
    decreases |cards|
  {
    if cards == [] then Some(Report(EmptyBuckets(idx), 0))
    else
      match Classified(idx, cards[..|cards| - 1], now, fmt)
      case None => None
      case Some(r) => ClassifyOne(idx, r, cards[|cards| - 1], now, fmt)
  }

  /** Lines 103-120 for one user: buckets initialised from the index, then
      one pass over the cards. */
  method ClassifyCards(idx: Index, cards: seq<Card>, now: int, fmt: int -> string) returns (r: Option<Report>)
    requires WellFormed(idx)
    ensures r == Classified(idx, cards, now, fmt)
  {
    var out := ResetBuckets(idx);
    var lateCards: nat := 0;
    var i := 0;
    while i < |cards|
      invariant 0 <= i <= |cards|
      invariant out.Keys == idx.boards.Keys
      invariant Classified(idx, cards[..i], now, fmt) == Some(Report(out, lateCards))
    {
      ClassifiedStep(idx, cards, i, now, fmt);
      var ok;
      ok, out, lateCards := ClassifyCard(idx, out, lateCards, cards[i], now, fmt);
      if !ok {
        ClassifiedStaysFailed(idx, cards, i + 1, now, fmt);
        return None;
      }
      i := i + 1;
    }
    assert cards[..i] == cards;
    r := Some(Report(out, lateCards));
  }

  /** The `forEach` callback for one card (lines 106-120); `ok` is false
      when it throws the missing-list TypeError. */
  method ClassifyCard(idx: Index, out: map<string, seq<string>>, lateCards: nat, c: Card, now: int, fmt: int -> string)
    returns (ok: bool, out': map<string, seq<string>>, lateCards': nat)
    requires out.Keys == idx.boards.Keys
    ensures ok <==> ClassifyOne(idx, Report(out, lateCards), c, now, fmt).Some?
    ensures ok ==> ClassifyOne(idx, Report(out, lateCards), c, now, fmt) == Some(Report(out', lateCards'))
    ensures out'.Keys == idx.boards.Keys
  {
    ok, out', lateCards' := true, out, lateCards;
    if c.idBoard !in idx.boards {
      return;
    }
    var lists := idx.boards[c.idBoard].lists;
    if c.idList !in lists {
      ok := false;
      return;
    }
    if IsLate(lists[c.idList], c.due, now) {
      lateCards' := lateCards + 1;
      out' := out[c.idBoard := out[c.idBoard] + [Line(fmt, c)]];
    }
  }

  /** Line 105: `Object.keys(_boards).forEach((board) => data.out[board] = [])`. */
  method ResetBuckets(idx: Index) returns (out: map<string, seq<string>>)
    requires WellFormed(idx)
    ensures out == EmptyBuckets(idx)
  {
    out := map[];
    var k := 0;
    while k < |idx.order|
      invariant 0 <= k <= |idx.order|
      invariant out.Keys == set j | 0 <= j < k :: idx.order[j]
      invariant forall b :: b in out ==> out[b] == []
    {
      out := out[idx.order[k] := []];
      k := k + 1;
    }
    assert out.Keys == idx.boards.Keys by {
      forall b | b in idx.boards ensures b in out {
        var j :| 0 <= j < |idx.order| && idx.order[j] == b;
      }
    }
  }

  /** One step of the card loop: the `i`-th card after the first `i`. */
  lemma ClassifiedStep(idx: Index, cards: seq<Card>, i: nat, now: int, fmt: int -> string)
    requires i < |cards|
    ensures Classified(idx, cards[..i + 1], now, fmt) ==
      match Classified(idx, cards[..i], now, fmt)
      case None => None
      case Some(r) => ClassifyOne(idx, r, cards[i], now, fmt)
  {
    assert cards[..i + 1][..i] == cards[..i];
  }

  /** Once a prefix fails, the whole run over the cards fails. */
  lemma {:induction false} ClassifiedStaysFailed(idx: Index, cards: seq<Card>, i: nat, now: int, fmt: int -> string)
    requires i <= |cards| && Classified(idx, cards[..i], now, fmt).None?
    ensures Classified(idx, cards, now, fmt).None?
    decreases |cards| - i
  {
    if i < |cards| {
      assert cards[..i + 1][..i] == cards[..i];
      ClassifiedStaysFailed(idx, cards, i + 1, now, fmt);
    } else {
      assert cards[..i] == cards;
    }
  }

  /** Reference reading of a bucket: the lines of the late cards on board
      `b`, in the order the cards arrived. */
  function LateLines(idx: Index, cards: seq<Card>, now: int, fmt: int -> string, b: string): seq<string>
    decreases |cards|
  {
    if cards == [] then []
    else
      var c := cards[|cards| - 1];
      LateLines(idx, cards[..|cards| - 1], now, fmt, b) +
        (if c.idBoard == b && CountsAsLate(idx, c, now) then [Line(fmt, c)] else [])
  }

  /** Reference count: how many cards are late. */
  function LateCount(idx: Index, cards: seq<Card>, now: int): nat
    decreases |cards|
  {
    if cards == [] then 0
    else LateCount(idx, cards[..|cards| - 1], now) + (if CountsAsLate(idx, cards[|cards| - 1], now) then 1 else 0)
  }

  /** The classification fails exactly when some card sits on an indexed
      board in a list the index does not know. */
  lemma {:induction false} ClassifiedFailsIff(idx: Index, cards: seq<Card>, now: int, fmt: int -> string)
    ensures Classified(idx, cards, now, fmt).None? <==> exists i :: 0 <= i < |cards| && MissingList(idx, cards[i])
    decreases |cards|
  {
    if cards != [] {
      var n := |cards| - 1;
      ClassifiedFailsIff(idx, cards[..n], now, fmt);
      assert forall i :: 0 <= i < n ==> cards[..n][i] == cards[i];
      if exists i :: 0 <= i < |cards| && MissingList(idx, cards[i]) {
        var i :| 0 <= i < |cards| && MissingList(idx, cards[i]);
        if i < n {
          assert MissingList(idx, cards[..n][i]);
        }
      }
    }
  }

  /** Every bucket holds exactly the reference lines of its board, and the
      counter is the reference count. */
  lemma {:induction false} ClassifiedMatchesReference(idx: Index, cards: seq<Card>, now: int, fmt: int -> string)
    requires Classified(idx, cards, now, fmt).Some?
    ensures var r := Classified(idx, cards, now, fmt).value;
      && r.lateCards == LateCount(idx, cards, now)
      && forall b :: b in r.out ==> r.out[b] == LateLines(idx, cards, now, fmt, b)
    decreases |cards|
  {
    if cards != [] {
      ClassifiedMatchesReference(idx, cards[..|cards| - 1], now, fmt);
    }
  }

  /** A card whose board is not in the index contributes nothing (lines
      107-108), wherever it stands among the cards. */
  lemma {:induction false} UnknownBoardIgnored(idx: Index, pre: seq<Card>, c: Card, post: seq<Card>, now: int, fmt: int -> string)
    requires c.idBoard !in idx.boards
    ensures Classified(idx, pre + [c] + post, now, fmt) == Classified(idx, pre + post, now, fmt)
    decreases |post|
  {
    if post == [] {
      assert (pre + [c] + post)[..|pre|] == pre;
      assert pre + post == pre;
    } else {
      var n := |post| - 1;
      UnknownBoardIgnored(idx, pre, c, post[..n], now, fmt);
      assert (pre + [c] + post)[..|pre + [c] + post| - 1] == pre + [c] + post[..n];
      assert (pre + post)[..|pre + post| - 1] == pre + post[..n];
      assert (pre + [c] + post)[|pre + [c] + post| - 1] == post[n] == (pre + post)[|pre + post| - 1];
    }
  }

  /** The number of lines across the buckets of the boards in `order`. */
  function TotalLines(order: seq<string>, out: map<string, seq<string>>): nat
    decreases |order|
  {
    if order == [] then 0
    else
      var b := order[|order| - 1];
      TotalLines(order[..|order| - 1], out) + (if b in out then |out[b]| else 0)
  }

  lemma {:induction false} TotalLinesEmpty(order: seq<string>, out: map<string, seq<string>>)
    requires forall b :: b in out ==> out[b] == []
    ensures TotalLines(order, out) == 0
    decreases |order|
  {
    if order != [] {
      TotalLinesEmpty(order[..|order| - 1], out);
    }
  }

  /** Appending one line to one listed bucket adds one to the total. */
  lemma {:induction false} TotalLinesAppend(order: seq<string>, out: map<string, seq<string>>, b: string, line: string)
    requires forall i, j :: 0 <= i < j < |order| ==> order[i] != order[j]
    requires b in out
    ensures TotalLines(order, out[b := out[b] + [line]]) == TotalLines(order, out) + (if b in order then 1 else 0)
    decreases |order|
  {
    if order != [] {
      var n := |order| - 1;
      TotalLinesAppend(order[..n], out, b, line);
      assert b in order <==> b in order[..n] || order[n] == b;
      if order[n] == b {
        assert b !in order[..n];
      }
    }
  }

  /** `lateCards` equals the number of lines across all buckets. */
  lemma {:induction false} LateCardsIsTotalLines(idx: Index, cards: seq<Card>, now: int, fmt: int -> string)
    requires WellFormed(idx)
    requires Classified(idx, cards, now, fmt).Some?
    ensures Classified(idx, cards, now, fmt).value.lateCards == TotalLines(idx.order, Classified(idx, cards, now, fmt).value.out)
    decreases |cards|
  {
    if cards == [] {
      TotalLinesEmpty(idx.order, EmptyBuckets(idx));
    } else {
      var n := |cards| - 1;
      var c := cards[n];
      LateCardsIsTotalLines(idx, cards[..n], now, fmt);
      var r := Classified(idx, cards[..n], now, fmt).value;
      if c.idBoard in idx.boards && c.idList in idx.boards[c.idBoard].lists
         && IsLate(idx.boards[c.idBoard].lists[c.idList], c.due, now) {
        TotalLinesAppend(idx.order, r.out, c.idBoard, Line(fmt, c));
      }
    }
  }

  /** A Slack attachment as the worker builds it (lines 34-39). */
  datatype Attachment = Attachment(fallback: string, title: string, text: string, color: string)

  const AccentColor := "#838C91"

  /** The attachment for board `b`: its name, its lines joined by newlines,
      and the fallback `<name>: <n> tasks`. */
  function AttachmentFor(idx: Index, out: map<string, seq<string>>, b: string): Attachment
    requires b in idx.boards && b in out
  {
    var name := idx.boards[b].name;
    Attachment(name + ": " + NatToString(|out[b]|) + " tasks", name, Join(out[b], "\n"), AccentColor)
  }

  predicate HasLines(out: map<string, seq<string>>, b: string)
  {
    b in out && |out[b]| > 0
  }

  /** `task.out[board].length` as a test on board ids. */
  function Filled(out: map<string, seq<string>>): string -> bool
  {
    b => HasLines(out, b)
  }

  /** The boards of `order` whose bucket is not empty, in that order. */
  function NonEmptyBoards(order: seq<string>, out: map<string, seq<string>>): seq<string>
  {
    Filter(order, Filled(out))
  }

  function AttachmentsFor(idx: Index, out: map<string, seq<string>>, bs: seq<string>): (r: seq<Attachment>)
    requires forall b :: b in bs ==> b in idx.boards && b in out
    ensures |r| == |bs|
    ensures forall k :: 0 <= k < |bs| ==>
      && r[k].title == idx.boards[bs[k]].name
      && r[k].text == Join(out[bs[k]], "\n")
      && r[k].fallback == idx.boards[bs[k]].name + ": " + NatToString(|out[bs[k]]|) + " tasks"
      && r[k].color == AccentColor
  {
    seq(|bs|, k requires 0 <= k < |bs| => AttachmentFor(idx, out, bs[k]))
  }

  lemma NonEmptyBoardsIndexed(idx: Index, out: map<string, seq<string>>, order: seq<string>)
    requires out.Keys == idx.boards.Keys
    ensures forall b :: b in NonEmptyBoards(order, out) ==> b in idx.boards && b in out
  {
    forall b | b in NonEmptyBoards(order, out) ensures b in idx.boards && b in out {
      FilterSound(order, Filled(out), b);
    }
  }

  /** Lines 29-40: one attachment per board with lines, in index order. */
  function Attachments(idx: Index, out: map<string, seq<string>>): (r: seq<Attachment>)
    requires out.Keys == idx.boards.Keys
    ensures |r| == |NonEmptyBoards(idx.order, out)| <= |idx.order|
    ensures r == [] <==> forall i :: 0 <= i < |idx.order| ==> !HasLines(out, idx.order[i])
    ensures forall k :: 0 <= k < |r| ==>
      var b := NonEmptyBoards(idx.order, out)[k];
      b in idx.order && b in idx.boards && HasLines(out, b) && r[k].title == idx.boards[b].name
  {
    NonEmptyBoardsIndexed(idx, out, idx.order);
    FilterMembers(idx.order, Filled(out));
    FilterEmpty(idx.order, Filled(out));
    AttachmentsFor(idx, out, NonEmptyBoards(idx.order, out))
  }

  /** The worker's loop over `Object.keys(task.out)` (lines 29-40). */
  method BuildAttachments(idx: Index, out: map<string, seq<string>>) returns (tasks: seq<Attachment>)
    requires out.Keys == idx.boards.Keys
    ensures tasks == Attachments(idx, out)
  {
    tasks := [];
    var k := 0;
    while k < |idx.order|
      invariant 0 <= k <= |idx.order|
      invariant forall b :: b in NonEmptyBoards(idx.order[..k], out) ==> b in idx.boards && b in out
      invariant tasks == AttachmentsFor(idx, out, NonEmptyBoards(idx.order[..k], out))
    {
      var b := idx.order[k];
      assert idx.order[..k + 1][..k] == idx.order[..k];
      NonEmptyBoardsIndexed(idx, out, idx.order[..k + 1]);
      if b in out && |out[b]| > 0 {
        tasks := tasks + [AttachmentFor(idx, out, b)];
      }
      k := k + 1;
    }
    assert idx.order[..k] == idx.order;
  }

  /** Boards without lines add nothing to the total, so the non-empty boards
      carry every line. */
  lemma {:induction false} NonEmptyTotal(order: seq<string>, out: map<string, seq<string>>)
    ensures TotalLines(NonEmptyBoards(order, out), out) == TotalLines(order, out)
    decreases |order|
  {
    if order != [] {
      var n := |order| - 1;
      NonEmptyTotal(order[..n], out);
      var bs := NonEmptyBoards(order[..n], out);
      if HasLines(out, order[n]) {
        assert NonEmptyBoards(order, out) == bs + [order[n]];
        assert (bs + [order[n]])[..|bs|] == bs;
      } else {
        assert NonEmptyBoards(order, out) == bs;
      }
    }
  }

  /** A message as `convo.say` receives it; a plain string has no attachments. */
  datatype Message = Message(text: string, attachments: seq<Attachment>)

  const LateIntro := "Hey! A few of your tasks are recently past due. Could you go through " +
                     "and add comments or update the expected completion dates?\n\n"

  const NoLateTasks := "You don't have any late tasks right now!"

  /** What the worker says for one job (lines 28-50): the summary when there
      are late cards, the all-clear only when one user asked, else nothing. */
  function Rendered(idx: Index, r: Report, requested: bool): (msg: Option<Message>)
    requires r.out.Keys == idx.boards.Keys
    ensures msg.None? <==> r.lateCards == 0 && !requested
    ensures r.lateCards != 0 ==> msg.value.text == LateIntro
    ensures r.lateCards == 0 && requested ==> msg.value == Message(NoLateTasks, [])
  {
    if r.lateCards != 0 then Some(Message(LateIntro, Attachments(idx, r.out)))
    else if requested then Some(Message(NoLateTasks, []))
    else None
  }

  /** The worker body for one job, with its attachment loop. */
  method RenderJob(idx: Index, r: Report, requested: bool) returns (msg: Option<Message>)
    requires r.out.Keys == idx.boards.Keys
    ensures msg == Rendered(idx, r, requested)
  {
    if r.lateCards != 0 {
      var tasks := BuildAttachments(idx, r.out);
      msg := Some(Message(LateIntro, tasks));
    } else if requested {
      msg := Some(Message(NoLateTasks, []));
    } else {
      msg := None;
    }
  }

  /** What a user is told about their cards: something exactly when a card
      is late or they asked; with late cards, one attachment per board that
      has any, titled with the board's name, together carrying every late
      card; with none, the all-clear. */
  lemma RenderedReport(idx: Index, cards: seq<Card>, now: int, fmt: int -> string, requested: bool)
    requires WellFormed(idx)
    requires Classified(idx, cards, now, fmt).Some?
    ensures var r := Classified(idx, cards, now, fmt).value;
      var msg := Rendered(idx, r, requested);
      && (msg.Some? <==> LateCount(idx, cards, now) > 0 || requested)
      && (LateCount(idx, cards, now) > 0 ==>
            && msg.value.text == LateIntro
            && |msg.value.attachments| == |NonEmptyBoards(idx.order, r.out)| > 0
            && TotalLines(NonEmptyBoards(idx.order, r.out), r.out) == LateCount(idx, cards, now))
      && (LateCount(idx, cards, now) == 0 && requested ==> msg == Some(Message(NoLateTasks, [])))
  {
    var r := Classified(idx, cards, now, fmt).value;
    ClassifiedMatchesReference(idx, cards, now, fmt);
    LateCardsIsTotalLines(idx, cards, now, fmt);
    NonEmptyTotal(idx.order, r.out);
  }

  /** A worked case. Board 1 has a card due before now and one due after,
      both in "Doing"; board 2 has an overdue card in "Done". Only the first
      card is late: board 1's bucket holds its one line, board 2's stays
      empty, and the summary has a single attachment, for board 1. */
  lemma TwoBoardsExample(fmt: int -> string)
    ensures var idx := Index(["b1", "b2"], map["b1" := BoardProps("Board 1", map["l1" := "Doing"]),
                                               "b2" := BoardProps("Board 2", map["l2" := "Done"])]);
      var yesterday := Card("b1", "l1", Some(9), "https://trello.com/c/y", "Yesterday");
      var tomorrow := Card("b1", "l1", Some(11), "https://trello.com/c/t", "Tomorrow");
      var lastWeek := Card("b2", "l2", Some(3), "https://trello.com/c/w", "Last week");
      var r := Classified(idx, [yesterday, tomorrow, lastWeek], 10, fmt);
      && r == Some(Report(map["b1" := [Line(fmt, yesterday)], "b2" := []], 1))
      && |Rendered(idx, r.value, false).value.attachments| == 1
      && Rendered(idx, r.value, false).value.attachments[0].title == "Board 1"
  {
    var idx := Index(["b1", "b2"], map["b1" := BoardProps("Board 1", map["l1" := "Doing"]),
                                       "b2" := BoardProps("Board 2", map["l2" := "Done"])]);
    var yesterday := Card("b1", "l1", Some(9), "https://trello.com/c/y", "Yesterday");
    var tomorrow := Card("b1", "l1", Some(11), "https://trello.com/c/t", "Tomorrow");
    var lastWeek := Card("b2", "l2", Some(3), "https://trello.com/c/w", "Last week");
    var doing := Lower("Doing");
    assert doing == "doing";
    assert !Excluded(doing) by {
      forall i | 0 <= i <= |doing| ensures !OccursAt(doing, "done", i)
      {
        if i == 0 {
          assert doing[3] != "done"[3];
        } else if i == 1 {
          assert doing[1] != "done"[0];
        }
      }
    }
    assert Lower("Done") == "done";
    assert OccursAt("done", "done", 0);
    var cards := [yesterday, tomorrow, lastWeek];
    assert cards[..2] == [yesterday, tomorrow];
    assert [yesterday, tomorrow][..1] == [yesterday];
    assert [yesterday][..0] == [];
    var empty := Report(map["b1" := [], "b2" := []], 0);
    assert idx.boards.Keys == {"b1", "b2"};
    assert EmptyBuckets(idx) == empty.out by {
      assert EmptyBuckets(idx).Keys == empty.out.Keys;
    }
    assert Classified(idx, [], 10, fmt) == Some(empty);
    var one := Report(map["b1" := [Line(fmt, yesterday)], "b2" := []], 1);
    assert IsLate(idx.boards["b1"].lists["l1"], yesterday.due, 10);
    assert [] + [Line(fmt, yesterday)] == [Line(fmt, yesterday)];
    assert empty.out["b1" := [Line(fmt, yesterday)]] == one.out;
    assert ClassifyOne(idx, empty, yesterday, 10, fmt) == Some(one);
    assert Classified(idx, [yesterday], 10, fmt) == Some(one);
    assert Classified(idx, [yesterday, tomorrow], 10, fmt) == Some(one);
    assert Classified(idx, cards, 10, fmt) == Some(one);
    assert NonEmptyBoards(["b1", "b2"], one.out) == ["b1"] by {
      assert ["b1", "b2"][..1] == ["b1"];
      assert ["b1"][..0] == [];
    }
  }
}
