/** The delivery queue of one late-task run: `async.queue` with one worker
    (actions/late-tasks.js, lines 17-54 and 122). Jobs are attempted one at a
    time, first pushed first attempted; the 1.1 s pause after each job is not
    modelled. */
module DeliveryQueue {
  import opened Wrappers
  import opened Directory
  import opened BoardIndex
  import opened LateTasks

  /** `data` as pushed on line 122: the user and their classified cards. */
  datatype Job = Job(user: UserRecord, report: Report)

  /** One `convo.say` in the private conversation with `user`. */
  datatype Delivery = Delivery(user: string, message: Message)

  /** The job has a bucket for exactly the boards of the index. */
  predicate Fits(idx: Index, j: Job)
  {
    j.report.out.Keys == idx.boards.Keys
  }

  /** Every job of `jobs` fits the index. */
  predicate AllFit(idx: Index, jobs: seq<Job>)
  {
    forall k :: 0 <= k < |jobs| ==> Fits(idx, jobs[k])
  }

  /** What one attempt at a job says: nothing when the private conversation
      could not be opened (lines 21-26), otherwise the rendered message, if any. */
  function Said(idx: Index, requested: bool, j: Job, reached: bool): (d: seq<Delivery>)
    requires Fits(idx, j)
    ensures d == [] || d == [Delivery(j.user.id, d[0].message)]
    ensures !reached ==> d == []
  {
    if !reached then []
    else
      match Rendered(idx, j.report, requested)
      case None => []
      case Some(m) => [Delivery(j.user.id, m)]
  }

  /** An opened conversation is told something exactly when the user has a
      late card or asked, and what it is told is the rendered message. */
  lemma SaidWhen(idx: Index, requested: bool, j: Job, reached: bool)
    requires Fits(idx, j)
    ensures var d := Said(idx, requested, j, reached);
      && (d != [] <==> reached && (j.report.lateCards != 0 || requested))
      && (d != [] ==> Rendered(idx, j.report, requested) == Some(d[0].message))
  {
  }

  /** What attempting `jobs` in order says, given whether each conversation opened. */
  function SaidAll(idx: Index, requested: bool, jobs: seq<Job>, reached: seq<bool>): seq<Delivery>
    requires |reached| == |jobs| && AllFit(idx, jobs)
    decreases |jobs|
  {
    if jobs == [] then []
    else
      var n := |jobs| - 1;
      SaidAll(idx, requested, jobs[..n], reached[..n]) + Said(idx, requested, jobs[n], reached[n])
  }

  /** Attempting two batches one after the other says the first batch's
      messages, then the second's. */
  lemma {:induction false} SaidAllAppend(idx: Index, requested: bool, a: seq<Job>, oa: seq<bool>, b: seq<Job>, ob: seq<bool>)
    requires |oa| == |a| && |ob| == |b|
    requires AllFit(idx, a) && AllFit(idx, b)
    ensures AllFit(idx, a + b)
    ensures SaidAll(idx, requested, a + b, oa + ob) == SaidAll(idx, requested, a, oa) + SaidAll(idx, requested, b, ob)
    decreases |b|
  {
    AllFitAppend(idx, a, b);
    if b == [] {
      assert a + b == a && oa + ob == oa;
    } else {
      var n := |b| - 1;
      SaidAllAppend(idx, requested, a, oa, b[..n], ob[..n]);
      assert (a + b)[..|a + b| - 1] == a + b[..n];
      assert (oa + ob)[..|oa + ob| - 1] == oa + ob[..n];
      assert (a + b)[|a + b| - 1] == b[n] && (oa + ob)[|oa + ob| - 1] == ob[n];
    }
  }

  /** Two batches that fit the index fit it together. */
  lemma AllFitAppend(idx: Index, a: seq<Job>, b: seq<Job>)
    requires AllFit(idx, a) && AllFit(idx, b)
    ensures AllFit(idx, a + b)
  {
    forall k | 0 <= k < |a + b| ensures Fits(idx, (a + b)[k]) {
      if k >= |a| { assert (a + b)[k] == b[k - |a|]; }
    }
  }

  class Queue {
    /** Whether the run was started for a single user (`userId` given). */
    const requested: bool
    /** `_boards`, which the worker reads when it runs. */
    var boards: Index
    var pending: seq<Job>
    /** Every message said so far, in order. */
    var said: seq<Delivery>
    /** The jobs already taken by the worker, and whether each conversation reached. */
    ghost var attempted: seq<Job>
    ghost var reached: seq<bool>

    ghost predicate Valid()
      reads this
    {
      && WellFormed(boards)
      && AllFit(boards, attempted)
      && AllFit(boards, pending)
      && |reached| == |attempted|
      && said == SaidAll(boards, requested, attempted, reached)
    }

    /** Line 17; `_boards` starts as `{}` (line 15). */
    constructor (requested: bool)
      ensures Valid() && this.requested == requested
      ensures boards == Index([], map[])
      ensures pending == [] && said == [] && attempted == [] && reached == []
    {
      this.requested := requested;
      boards := Index([], map[]);
      pending := [];
      said := [];
      attempted := [];
      reached := [];
    }

    /** Line 75: `_boards = boardProps`, before any job is pushed. */
    method Publish(idx: Index)
      requires Valid() && WellFormed(idx)
      requires pending == [] && attempted == []
      modifies this
      ensures Valid() && boards == idx
      ensures pending == [] && said == [] && attempted == [] && reached == []
    {
      boards := idx;
    }

    /** Line 122: `q.push(data)`. */
    method Push(j: Job)
      requires Valid() && Fits(boards, j)
      modifies this
      ensures Valid()
      ensures pending == old(pending) + [j]
      ensures boards == old(boards) && said == old(said)
      ensures attempted == old(attempted) && reached == old(reached)
    {
      pending := pending + [j];
    }

    /** The worker takes the oldest job (lines 18-53); `convoOpened` is the
        outcome of `startPrivateConversation`. */
    method Work(convoOpened: bool)
      requires Valid() && pending != []
      modifies this
      ensures Valid()
      ensures boards == old(boards)
      ensures pending == old(pending)[1..]
      ensures attempted == old(attempted) + [old(pending)[0]]
      ensures reached == old(reached) + [convoOpened]
      ensures said == old(said) + Said(boards, requested, old(pending)[0], convoOpened)
    {
      var j := pending[0];
      assert Fits(boards, j);
      pending := pending[1..];
      if convoOpened {
        var msg := RenderJob(boards, j.report, requested);
        if msg.Some? {
          said := said + [Delivery(j.user.id, msg.value)];
        }
      }
      attempted := attempted + [j];
      reached := reached + [convoOpened];
      assert attempted[..|attempted| - 1] == old(attempted);
      assert reached[..|reached| - 1] == old(reached);
    }

    /** The worker runs until the queue is empty: every pending job is
        attempted, in the order it was pushed, and the messages follow that
        order. */
    method Drain(outcomes: seq<bool>)
      requires Valid() && |outcomes| == |pending|
      modifies this
      ensures Valid()
      ensures boards == old(boards) && pending == []
      ensures attempted == old(attempted) + old(pending)
      ensures said == old(said) + SaidAll(boards, requested, old(pending), outcomes)
    {
      ghost var todo := pending;
      var k := 0;
      while k < |outcomes|
        invariant 0 <= k <= |outcomes|
        invariant Valid() && boards == old(boards)
        invariant pending == todo[k..]
        invariant attempted == old(attempted) + todo[..k]
        invariant reached == old(reached) + outcomes[..k]
      {
        Work(outcomes[k]);
        k := k + 1;
        assert todo[..k] == todo[..k - 1] + [todo[k - 1]];
        assert outcomes[..k] == outcomes[..k - 1] + [outcomes[k - 1]];
      }
      assert todo[..k] == todo && outcomes[..k] == outcomes;
      SaidAllAppend(boards, requested, old(attempted), old(reached), todo, outcomes);
    }
  }
}
