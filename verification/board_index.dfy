/** The board index that the late-task run builds before it looks at any card
    (actions/late-tasks.js, lines 56-75): board id -> board name and a map from
    list id to list name, for every board the bot's Trello identity can see. */
module BoardIndex {
  import opened Wrappers

  /** A board as `/1/members/me/boards` returns it (the fields the bot reads). */
  datatype RemoteBoard = RemoteBoard(id: string, name: string)

  /** A list as `/1/board/<id>/lists` returns it. */
  datatype RemoteList = RemoteList(id: string, name: string)

  datatype BoardProps = BoardProps(name: string, lists: map<string, string>)

  /** `_boards`. `order` is `Object.keys(_boards)`: the ids in the order they
      were first inserted. */
  datatype Index = Index(order: seq<string>, boards: map<string, BoardProps>)

  /** Each key is listed once, and exactly the keys are listed. */
  ghost predicate WellFormed(idx: Index)
  {
    && (forall i, j :: 0 <= i < j < |idx.order| ==> idx.order[i] != idx.order[j])
    && (forall b :: b in idx.boards <==> b in idx.order)
  }

  /** No later board in `boards` has the id of `boards[i]`. */
  ghost predicate LastWithId(boards: seq<RemoteBoard>, i: int)
    requires 0 <= i < |boards|
  {
    forall j :: i < j < |boards| ==> boards[j].id != boards[i].id
  }

  /** The first loop (lines 58-64): `boardProps[board.id] = {name, lists: {}}`
      for each board in turn; a repeated id overwrites the earlier entry but
      keeps its place among the keys. */
  function Registered(boards: seq<RemoteBoard>): (idx: Index)
    ensures forall i :: 0 <= i < |boards| ==> boards[i].id in idx.boards
    ensures forall id :: id in idx.boards ==> exists i :: 0 <= i < |boards| && boards[i].id == id
    decreases |boards|
  {
    if boards == [] then Index([], map[])
    else
      var prev := Registered(boards[..|boards| - 1]);
      var b := boards[|boards| - 1];
      assert forall i :: 0 <= i < |boards| - 1 ==> boards[..|boards| - 1][i] == boards[i];
      Index(if b.id in prev.boards then prev.order else prev.order + [b.id],
            prev.boards[b.id := BoardProps(b.name, map[])])
  }

  /** The inner `forEach` of the second loop (line 72) for one list group:
      `lists[list.id] = list.name` on the board `id`. */
  function RecordGroup(idx: Index, id: string, group: seq<RemoteList>): (r: Index)
    requires id in idx.boards
    ensures r.order == idx.order && r.boards.Keys == idx.boards.Keys
    ensures forall b :: b in r.boards ==> r.boards[b].name == idx.boards[b].name
    decreases |group|
  {
    if group == [] then idx
    else
      var prev := RecordGroup(idx, id, group[..|group| - 1]);
      var l := group[|group| - 1];
      var p := prev.boards[id];
      prev.(boards := prev.boards[id := p.(lists := p.lists[l.id := l.name])])
  }

  /** The second loop (lines 71-73): the i-th list group belongs to the i-th
      board (`bluebird.map` keeps the order of `boards`). */
  function Recorded(idx: Index, boards: seq<RemoteBoard>, groups: seq<seq<RemoteList>>): (r: Index)
    requires |groups| == |boards|
    requires forall i :: 0 <= i < |boards| ==> boards[i].id in idx.boards
    ensures r.order == idx.order && r.boards.Keys == idx.boards.Keys
    ensures forall b :: b in r.boards ==> r.boards[b].name == idx.boards[b].name
    decreases |boards|
  {
    if boards == [] then idx
    else
      var n := |boards| - 1;
      var prev := Recorded(idx, boards[..n], groups[..n]);
      RecordGroup(prev, boards[n].id, groups[n])
  }

  /** The whole index: both loops. */
  function Built(boards: seq<RemoteBoard>, groups: seq<seq<RemoteList>>): Index
    requires |groups| == |boards|
  {
    Recorded(Registered(boards), boards, groups)
  }

  /** Builds `_boards` with the two nested loops of the source. */
  method BuildIndex(boards: seq<RemoteBoard>, groups: seq<seq<RemoteList>>) returns (idx: Index)
    requires |groups| == |boards|
    ensures idx == Built(boards, groups)
  {
    idx := RegisterBoards(boards);
    idx := RecordLists(idx, boards, groups);
  }

  /** Lines 58-64. */
  method RegisterBoards(boards: seq<RemoteBoard>) returns (idx: Index)
    ensures idx == Registered(boards)
  {
    var order: seq<string> := [];
    var props: map<string, BoardProps> := map[];
    var i := 0;
    while i < |boards|
      invariant 0 <= i <= |boards|
      invariant Index(order, props) == Registered(boards[..i])
    {
      var b := boards[i];
      if b.id !in props {
        order := order + [b.id];
      }
      props := props[b.id := BoardProps(b.name, map[])];
      i := i + 1;
      assert boards[..i][..i - 1] == boards[..i - 1];
    }
    assert boards[..i] == boards;
    idx := Index(order, props);
  }

  /** One step of the second loop: recording the `g`-th group after the first `g`. */
  lemma RecordedStep(registered: Index, boards: seq<RemoteBoard>, groups: seq<seq<RemoteList>>, g: nat)
    requires |groups| == |boards| && g < |boards|
    requires forall i :: 0 <= i < |boards| ==> boards[i].id in registered.boards
    ensures boards[g].id in Recorded(registered, boards[..g], groups[..g]).boards
    ensures Recorded(registered, boards[..g + 1], groups[..g + 1]) ==
      RecordGroup(Recorded(registered, boards[..g], groups[..g]), boards[g].id, groups[g])
  {
    assert boards[..g + 1][..g] == boards[..g];
    assert groups[..g + 1][..g] == groups[..g];
  }

  /** Lines 71-73. */
  method RecordLists(registered: Index, boards: seq<RemoteBoard>, groups: seq<seq<RemoteList>>) returns (idx: Index)
    requires |groups| == |boards|
    requires forall i :: 0 <= i < |boards| ==> boards[i].id in registered.boards
    ensures idx == Recorded(registered, boards, groups)
  {
    idx := registered;
    var g := 0;
    while g < |groups|
      invariant 0 <= g <= |groups|
      invariant idx == Recorded(registered, boards[..g], groups[..g])
    {
      RecordedStep(registered, boards, groups, g);
      idx := RecordListGroup(idx, boards[g].id, groups[g]);
      g := g + 1;
    }
    assert boards[..g] == boards && groups[..g] == groups;
  }

  /** Line 72, for one group. */
  method RecordListGroup(before: Index, id: string, group: seq<RemoteList>) returns (idx: Index)
    requires id in before.boards
    ensures idx == RecordGroup(before, id, group)
  {
    idx := before;
    var j := 0;
    while j < |group|
      invariant 0 <= j <= |group|
      invariant idx == RecordGroup(before, id, group[..j])
    {
      var l := group[j];
      var p := idx.boards[id];
      idx := idx.(boards := idx.boards[id := p.(lists := p.lists[l.id := l.name])]);
      j := j + 1;
      assert group[..j][..j - 1] == group[..j - 1];
    }
    assert group[..j] == group;
  }

  /** `_boards[b].lists[l]`, or `None` when either lookup misses. */
  function ListName(idx: Index, b: string, l: string): Option<string>
  {
    if b in idx.boards && l in idx.boards[b].lists then Some(idx.boards[b].lists[l]) else None
  }

  /** Reference reading of the list index: the name of the last list with id
      `l` in the group of the last board with id `b` whose group has one. */
  function LastInGroup(group: seq<RemoteList>, l: string): Option<string>
    decreases |group|
  {
    if group == [] then None
    else if group[|group| - 1].id == l then Some(group[|group| - 1].name)
    else LastInGroup(group[..|group| - 1], l)
  }

  function ListNameRef(boards: seq<RemoteBoard>, groups: seq<seq<RemoteList>>, b: string, l: string): Option<string>
    requires |groups| == |boards|
    decreases |boards|
  {
    if boards == [] then None
    else
      var n := |boards| - 1;
      if boards[n].id == b && LastInGroup(groups[n], l).Some? then LastInGroup(groups[n], l)
      else ListNameRef(boards[..n], groups[..n], b, l)
  }

  /** The first loop keeps each key listed once and lists exactly the keys. */
  lemma {:induction false} RegisteredWellFormed(boards: seq<RemoteBoard>)
    ensures WellFormed(Registered(boards))
    decreases |boards|
  {
    if boards != [] {
      var n := |boards| - 1;
      RegisteredWellFormed(boards[..n]);
      var prev := Registered(boards[..n]);
      var id := boards[n].id;
      if id !in prev.boards {
        var order := prev.order + [id];
        forall i, j | 0 <= i < j < |order| ensures order[i] != order[j] {
          if j == |prev.order| {
            assert order[i] in prev.order;
          } else {
            assert order[i] == prev.order[i] && order[j] == prev.order[j];
          }
        }
      }
    }
  }

  /** After the first loop no board has any list yet. */
  lemma {:induction false} RegisteredEmptyLists(boards: seq<RemoteBoard>)
    ensures forall b :: b in Registered(boards).boards ==> Registered(boards).boards[b].lists == map[]
    decreases |boards|
  {
    if boards != [] {
      RegisteredEmptyLists(boards[..|boards| - 1]);
    }
  }

  /** The first loop's last step: the last board writes its entry. */
  lemma RegisteredStep(boards: seq<RemoteBoard>)
    requires boards != []
    ensures Registered(boards).boards ==
      Registered(boards[..|boards| - 1]).boards[boards[|boards| - 1].id := BoardProps(boards[|boards| - 1].name, map[])]
  {
  }

  /** A board that is last with its id, and is not the last board, is also
      last with its id among the boards before the last one. */
  lemma LastWithIdFront(boards: seq<RemoteBoard>, i: nat)
    requires i < |boards| - 1 && LastWithId(boards, i)
    ensures LastWithId(boards[..|boards| - 1], i)
    ensures boards[|boards| - 1].id != boards[i].id
  {
    var front := boards[..|boards| - 1];
    forall j | i < j < |front| ensures front[j].id != front[i].id {
      assert front[j] == boards[j];
    }
  }

  /** After the first loop each board carries the name of the last board
      with its id. */
  lemma {:induction false} RegisteredNames(boards: seq<RemoteBoard>, i: nat)
    requires i < |boards| && LastWithId(boards, i)
    ensures Registered(boards).boards[boards[i].id].name == boards[i].name
    decreases |boards|
  {
    RegisteredStep(boards);
    var n := |boards| - 1;
    if i < n {
      LastWithIdFront(boards, i);
      RegisteredNames(boards[..n], i);
      assert boards[..n][i] == boards[i];
    }
  }

  lemma {:induction false} RecordGroupLookup(idx: Index, id: string, group: seq<RemoteList>, b: string, l: string)
    requires id in idx.boards
    ensures ListName(RecordGroup(idx, id, group), b, l) ==
      if b == id && LastInGroup(group, l).Some? then LastInGroup(group, l) else ListName(idx, b, l)
    decreases |group|
  {
    if group != [] {
      RecordGroupLookup(idx, id, group[..|group| - 1], b, l);
    }
  }

  lemma {:induction false} RecordedLookup(idx: Index, boards: seq<RemoteBoard>, groups: seq<seq<RemoteList>>, b: string, l: string)
    requires |groups| == |boards|
    requires forall i :: 0 <= i < |boards| ==> boards[i].id in idx.boards
    ensures ListName(Recorded(idx, boards, groups), b, l) ==
      if ListNameRef(boards, groups, b, l).Some? then ListNameRef(boards, groups, b, l) else ListName(idx, b, l)
    decreases |boards|
  {
    if boards != [] {
      var n := |boards| - 1;
      assert forall i :: 0 <= i < n ==> boards[..n][i] == boards[i];
      var prev := Recorded(idx, boards[..n], groups[..n]);
      assert Recorded(idx, boards, groups) == RecordGroup(prev, boards[n].id, groups[n]);
      var last := LastInGroup(groups[n], l);
      assert ListNameRef(boards, groups, b, l) ==
        if boards[n].id == b && last.Some? then last else ListNameRef(boards[..n], groups[..n], b, l);
      RecordedLookup(idx, boards[..n], groups[..n], b, l);
      RecordGroupLookup(prev, boards[n].id, groups[n], b, l);
    }
  }

  /** The built index maps board `b`, list `l` to a name exactly when the
      reference reading finds one, and to that name. */
  lemma BuiltLookup(boards: seq<RemoteBoard>, groups: seq<seq<RemoteList>>, b: string, l: string)
    requires |groups| == |boards|
    ensures ListName(Built(boards, groups), b, l) == ListNameRef(boards, groups, b, l)
  {
    RegisteredEmptyLists(boards);
    RecordedLookup(Registered(boards), boards, groups, b, l);
  }

  lemma {:induction false} LastInGroupFinds(group: seq<RemoteList>, j: nat)
    requires j < |group|
    ensures LastInGroup(group, group[j].id).Some?
    decreases |group|
  {
    if j < |group| - 1 && group[|group| - 1].id != group[j].id {
      assert group[..|group| - 1][j] == group[j];
      LastInGroupFinds(group[..|group| - 1], j);
    }
  }

  lemma {:induction false} ListNameRefFinds(boards: seq<RemoteBoard>, groups: seq<seq<RemoteList>>, i: nat, j: nat)
    requires |groups| == |boards|
    requires i < |boards| && j < |groups[i]|
    ensures ListNameRef(boards, groups, boards[i].id, groups[i][j].id).Some?
    decreases |boards|
  {
    var n := |boards| - 1;
    if i == n {
      LastInGroupFinds(groups[n], j);
    } else if !(boards[n].id == boards[i].id && LastInGroup(groups[n], groups[i][j].id).Some?) {
      assert boards[..n][i] == boards[i] && groups[..n][i] == groups[i];
      ListNameRefFinds(boards[..n], groups[..n], i, j);
    }
  }

  /** What the source promises of the index (lines 58-73): one entry per
      fetched board id, listed once, named after the board (the last one, if
      an id repeats), and every list of the i-th group recorded under the
      i-th board's id, keyed by the list's id. */
  lemma BuiltIndexShape(boards: seq<RemoteBoard>, groups: seq<seq<RemoteList>>)
    requires |groups| == |boards|
    ensures WellFormed(Built(boards, groups))
    ensures forall i :: 0 <= i < |boards| ==> boards[i].id in Built(boards, groups).boards
    ensures forall b :: b in Built(boards, groups).boards ==> exists i :: 0 <= i < |boards| && boards[i].id == b
    ensures forall i :: 0 <= i < |boards| && LastWithId(boards, i) ==>
      Built(boards, groups).boards[boards[i].id].name == boards[i].name
    ensures forall i, j :: 0 <= i < |boards| && 0 <= j < |groups[i]| ==>
      groups[i][j].id in Built(boards, groups).boards[boards[i].id].lists
  {
    RegisteredWellFormed(boards);
    RegisteredEmptyLists(boards);
    forall i | 0 <= i < |boards| && LastWithId(boards, i)
      ensures Built(boards, groups).boards[boards[i].id].name == boards[i].name
    {
      RegisteredNames(boards, i);
    }
    forall i, j | 0 <= i < |boards| && 0 <= j < |groups[i]|
      ensures groups[i][j].id in Built(boards, groups).boards[boards[i].id].lists
    {
      ListNameRefFinds(boards, groups, i, j);
      BuiltLookup(boards, groups, boards[i].id, groups[i][j].id);
    }
  }
}
