/**
 The queue of QHttp: requests are added, started and finished, and a receiver of the signals may call back while
 one of them is being emitted.
 */
module RequestQueue {
  import opened Wrappers

  datatype Request = Request(id: nat, finished: bool)

  /** A signal; `Done` also tells how many requests were left, and which id the next one would get. */
  datatype Signal =
    | Started(id: nat)
    | Finished(id: nat, error: bool)
    | Done(error: bool, left: nat, next: nat)

  /** What a receiver does when it is called; an abort emits signals itself, for which it has receivers too. */
  datatype Call =
    | Add
    | Clear
    | Abort(receivers: Receivers)

  datatype Receivers = Receivers(onFinished: seq<Call>, onDone: seq<Call>)

  /** Who is told that a request starts must not abort it: it is used once they have returned. */
  type CalmCall = call: Call | !call.Abort? witness Add

  /** The start of a request: its receivers, and what it leads to at once. */
  datatype Beginning = Beginning(onStarted: seq<CalmCall>, outcome: Outcome)

  /** Behind a success the next request starts. */
  datatype Outcome =
    | Later
    | Succeeds(receivers: Receivers, next: Beginning)
    | Fails(receivers: Receivers)

  /** What happens to the queue from outside: calls, a start that was put off, and the end of a request. */
  datatype Event =
    | Calls(calls: seq<Call>)
    | Start(beginning: Beginning)
    | Success(receivers: Receivers, next: Beginning)
    | Error(receivers: Receivers)

  // ---- calls that leave the others alone

  predicate NoClear(calls: seq<Call>) { forall i :: 0 <= i < |calls| ==> !calls[i].Clear? }

  predicate NoAbort(calls: seq<Call>) { forall i :: 0 <= i < |calls| ==> !calls[i].Abort? }

  predicate OnlyAdds(calls: seq<Call>) { forall i :: 0 <= i < |calls| ==> calls[i].Add? }

  predicate GentleReceivers(receivers: Receivers) { OnlyAdds(receivers.onFinished) && OnlyAdds(receivers.onDone) }

  predicate Gentle(beginning: Beginning) {
    && OnlyAdds(beginning.onStarted)
    && match beginning.outcome
       case Later => true
       case Succeeds(receivers, next) => GentleReceivers(receivers) && Gentle(next)
       case Fails(_) => false
  }

  /** Nothing is cleared or aborted, and no request fails. */
  predicate GentleEvent(event: Event) {
    match event
    case Calls(calls) => OnlyAdds(calls)
    case Start(beginning) => Gentle(beginning)
    case Success(receivers, next) => GentleReceivers(receivers) && Gentle(next)
    case Error(_) => false
  }

  // ---- what the signals promise

  /** An error that is not done, the last request that finished, and the first that may do so. */
  datatype Heard = Heard(failing: bool, last: int, bound: nat)

  /** One signal more. No request finishes twice or out of order, or after an error that had it removed. */
  function Hear(heard: Heard, signal: Signal): Option<Heard> {
    match signal
    case Started(_) => Some(heard)
    case Finished(id, error) =>
      if heard.failing || id <= heard.last || id < heard.bound then None else Some(Heard(error, id, heard.bound))
    case Done(error, left, next) =>
      if left != 0 || (heard.failing && !error) || next < heard.bound then None
      else Some(Heard(false, heard.last, if error then next else heard.bound))
  }

  function HeardAt(log: seq<Signal>, n: nat): Option<Heard>
    requires n <= |log|
  {
    if n == 0 then Some(Heard(false, -1, 0))
    else
      var heard := HeardAt(log, n - 1);
      if heard.None? then None else Hear(heard.value, log[n - 1])
  }

  predicate AsPromised(log: seq<Signal>) { HeardAt(log, |log|).Some? }

  lemma {:induction false} HeardSeesPrefix(a: seq<Signal>, b: seq<Signal>, n: nat)
    requires n <= |a| && n <= |b| && forall i :: 0 <= i < n ==> a[i] == b[i]
    ensures HeardAt(a, n) == HeardAt(b, n)
  {
    if n > 0 {
      HeardSeesPrefix(a, b, n - 1);
    }
  }

  lemma {:induction false} PromisedBefore(log: seq<Signal>, k: nat, n: nat)
    requires k <= n <= |log| && HeardAt(log, n).Some?
    ensures HeardAt(log, k).Some?
    ensures HeardAt(log, k).value.last <= HeardAt(log, n).value.last
    ensures HeardAt(log, k).value.bound <= HeardAt(log, n).value.bound
  {
    if k < n {
      PromisedBefore(log, k, n - 1);
    }
  }

  /** Requests finish in the order in which they were added, and each of them once at most. */
  lemma FinishInOrder(log: seq<Signal>, i: nat, j: nat)
    requires AsPromised(log) && i < j < |log| && log[i].Finished? && log[j].Finished?
    ensures log[i].id < log[j].id
  {
    PromisedBefore(log, j + 1, |log|);
    PromisedBefore(log, i + 1, j);
  }

  /** Whatever was in the queue when an error was done with is gone: only later requests finish after that. */
  lemma GoneAfterError(log: seq<Signal>, i: nat, j: nat)
    requires AsPromised(log) && i < j < |log| && log[i].Done? && log[i].error && log[j].Finished?
    ensures log[j].id >= log[i].next
  {
    PromisedBefore(log, j + 1, |log|);
    PromisedBefore(log, i + 1, j);
  }

  /** Between a request that failed and the next that finishes at all, the error is done with. */
  lemma ErrorIsDone(log: seq<Signal>, i: nat, j: nat) returns (k: nat)
    requires AsPromised(log) && i < j < |log| && log[i].Finished? && log[i].error && log[j].Finished?
    ensures i < k < j && log[k].Done? && log[k].error
  {
    PromisedBefore(log, j + 1, |log|);
    k := DoneBetween(log, i, j);
  }

  lemma {:induction false} DoneBetween(log: seq<Signal>, i: nat, j: nat) returns (k: nat)
    requires i < j <= |log| && log[i].Finished? && log[i].error
    requires HeardAt(log, j).Some? && !HeardAt(log, j).value.failing
    ensures i < k < j && log[k].Done? && log[k].error
    decreases j
  {
    if log[j - 1].Done? && log[j - 1].error {
      k := j - 1;
    } else {
      assert j - 1 > i;
      k := DoneBetween(log, i, j - 1);
    }
  }

  /** The queue is empty whenever it is said to be done. */
  lemma DoneWhenEmpty(log: seq<Signal>, i: nat)
    requires AsPromised(log) && i < |log| && log[i].Done?
    ensures log[i].left == 0
  {
    PromisedBefore(log, i + 1, |log|);
  }

  // ---- the queue

  /** The requests wait in the order of their ids, and only the first can have finished already. */
  predicate InOrder(pending: seq<Request>, nextId: nat) {
    && (forall i, j :: 0 <= i < j < |pending| ==> pending[i].id < pending[j].id && !pending[j].finished)
    && (forall i :: 0 <= i < |pending| ==> pending[i].id < nextId)
  }

  /** Those that have not finished may do so, and an error is done with before its request is gone. */
  predicate MayFinish(pending: seq<Request>, heard: Heard, nextId: nat) {
    && heard.last < nextId && heard.bound <= nextId
    && (forall i :: 0 <= i < |pending| && !pending[i].finished ==>
          pending[i].id > heard.last && pending[i].id >= heard.bound)
    && (heard.failing ==> pending != [] && pending[0].finished)
  }

  /** Nothing is being emitted. */
  predicate Idle(pending: seq<Request>) { pending != [] ==> !pending[0].finished }

  lemma AddingKeepsOrder(pending: seq<Request>, heard: Heard, nextId: nat)
    requires InOrder(pending, nextId) && MayFinish(pending, heard, nextId)
    ensures var more := pending + [Request(nextId, false)];
            InOrder(more, nextId + 1) && MayFinish(more, heard, nextId + 1)
  {
    var more := pending + [Request(nextId, false)];
    assert more[|pending|] == Request(nextId, false);
    forall i, j | 0 <= i < j < |more|
      ensures more[i].id < more[j].id && !more[j].finished
    {
      assert more[i] == pending[i] && (j < |pending| ==> more[j] == pending[j]);
    }
    forall i | 0 <= i < |more|
      ensures more[i].id < nextId + 1
      ensures !more[i].finished ==> more[i].id > heard.last && more[i].id >= heard.bound
    {
      assert i < |pending| ==> more[i] == pending[i];
    }
    assert pending != [] ==> more[0] == pending[0];
  }

  // ---- where a request has got to

  ghost predicate HasFinished(log: seq<Signal>, id: nat) {
    exists k :: 0 <= k < |log| && log[k].Finished? && log[k].id == id
  }

  ghost predicate Waits(pending: seq<Request>, id: nat) {
    exists i :: 0 <= i < |pending| && pending[i] == Request(id, false)
  }

  /** It has finished, or waits, or was dropped, and only one of the three. */
  ghost predicate Placed(log: seq<Signal>, pending: seq<Request>, dropped: set<nat>, id: nat) {
    if id in dropped then !HasFinished(log, id) && !Waits(pending, id)
    else HasFinished(log, id) <==> !Waits(pending, id)
  }

  /** Every request there ever was is somewhere. */
  ghost predicate Accounted(log: seq<Signal>, pending: seq<Request>, dropped: set<nat>, nextId: nat) {
    && (forall id: nat :: id < nextId ==> Placed(log, pending, dropped, id))
    && (forall id :: id in dropped ==> id < nextId)
  }

  /** The requests from position `k` on, without a first one that has finished. */
  function WaitingFrom(pending: seq<Request>, k: nat): set<nat> {
    set i | k <= i < |pending| && !pending[i].finished :: pending[i].id
  }

  lemma {:induction false} FinishedUpToLast(log: seq<Signal>, n: nat, k: nat)
    requires k < n <= |log| && HeardAt(log, n).Some? && log[k].Finished?
    ensures log[k].id <= HeardAt(log, n).value.last
  {
    if k < n - 1 {
      FinishedUpToLast(log, n - 1, k);
    }
  }

  lemma AddedIsAccounted(log: seq<Signal>, pending: seq<Request>, dropped: set<nat>, nextId: nat)
    requires Accounted(log, pending, dropped, nextId) && AsPromised(log) && HeardAt(log, |log|).value.last < nextId
    ensures Accounted(log, pending + [Request(nextId, false)], dropped, nextId + 1)
  {
    var more := pending + [Request(nextId, false)];
    forall id: nat | id < nextId + 1
      ensures Placed(log, more, dropped, id)
    {
      if id < nextId {
        assert Placed(log, pending, dropped, id);
        WaitsInMore(pending, Request(nextId, false), id);
      } else {
        assert more[|pending|] == Request(id, false);
        forall k | 0 <= k < |log| && log[k].Finished?
          ensures log[k].id != id
        {
          FinishedUpToLast(log, |log|, k);
        }
      }
    }
  }

  lemma WaitsInMore(pending: seq<Request>, r: Request, id: nat)
    requires r.id != id
    ensures Waits(pending + [r], id) <==> Waits(pending, id)
  {
    if Waits(pending, id) {
      var i :| 0 <= i < |pending| && pending[i] == Request(id, false);
      assert (pending + [r])[i] == Request(id, false);
    }
  }

  lemma HasFinishedInMore(log: seq<Signal>, signal: Signal, id: nat)
    ensures HasFinished(log + [signal], id) <==> HasFinished(log, id) || (signal.Finished? && signal.id == id)
  {
    var more := log + [signal];
    if HasFinished(log, id) {
      var k :| 0 <= k < |log| && log[k].Finished? && log[k].id == id;
      assert more[k] == log[k];
    }
    if signal.Finished? && signal.id == id {
      assert more[|log|] == signal;
    }
  }

  lemma SignalIsAccounted(log: seq<Signal>, pending: seq<Request>, dropped: set<nat>, nextId: nat, signal: Signal)
    requires Accounted(log, pending, dropped, nextId) && !signal.Finished?
    ensures Accounted(log + [signal], pending, dropped, nextId)
  {
    forall id: nat | id < nextId
      ensures Placed(log + [signal], pending, dropped, id)
    {
      assert Placed(log, pending, dropped, id);
      HasFinishedInMore(log, signal, id);
    }
  }

  lemma FinishIsAccounted(log: seq<Signal>, pending: seq<Request>, dropped: set<nat>, nextId: nat, error: bool)
    requires Accounted(log, pending, dropped, nextId) && InOrder(pending, nextId)
    requires pending != [] && !pending[0].finished
    ensures Accounted(log + [Finished(pending[0].id, error)], pending[0 := pending[0].(finished := true)], dropped,
                      nextId)
  {
    var (r, marked) := (pending[0], pending[0 := pending[0].(finished := true)]);
    forall id: nat | id < nextId
      ensures Placed(log + [Finished(r.id, error)], marked, dropped, id)
    {
      assert Placed(log, pending, dropped, id);
      HasFinishedInMore(log, Finished(r.id, error), id);
      assert r == Request(r.id, false);
      assert forall i :: 0 < i < |pending| ==> marked[i] == pending[i];
      if id != r.id && Waits(pending, id) {
        var i :| 0 <= i < |pending| && pending[i] == Request(id, false);
        assert marked[i] == Request(id, false);
      }
    }
  }

  lemma RemovalIsAccounted(log: seq<Signal>, pending: seq<Request>, dropped: set<nat>, nextId: nat)
    requires Accounted(log, pending, dropped, nextId) && pending != [] && pending[0].finished
    ensures Accounted(log, pending[1..], dropped, nextId)
  {
    forall id: nat | id < nextId
      ensures Placed(log, pending[1..], dropped, id)
    {
      assert Placed(log, pending, dropped, id);
      if Waits(pending, id) {
        var i :| 0 <= i < |pending| && pending[i] == Request(id, false);
        assert pending[1..][i - 1] == Request(id, false);
      }
    }
  }

  /** What is dropped from position `k` on counts as dropped. */
  lemma DropIsAccounted(log: seq<Signal>, pending: seq<Request>, dropped: set<nat>, nextId: nat, k: nat)
    requires Accounted(log, pending, dropped, nextId) && InOrder(pending, nextId) && k <= |pending|
    ensures Accounted(log, pending[..k], dropped + WaitingFrom(pending, k), nextId)
  {
    var (kept, all) := (pending[..k], dropped + WaitingFrom(pending, k));
    forall id: nat | id < nextId
      ensures Placed(log, kept, all, id)
    {
      assert Placed(log, pending, dropped, id);
      if Waits(pending, id) {
        var i :| 0 <= i < |pending| && pending[i] == Request(id, false);
        if i < k {
          assert kept[i] == Request(id, false);
          assert forall j :: k <= j < |pending| ==> pending[j].id != id;
        } else {
          assert id in WaitingFrom(pending, k);
        }
      }
    }
  }

  // ---- requests in a row

  function FinishedIds(log: seq<Signal>, n: nat): seq<nat>
    requires n <= |log|
  {
    if n == 0 then [] else FinishedIds(log, n - 1) + if log[n - 1].Finished? then [log[n - 1].id] else []
  }

  function WaitingIds(pending: seq<Request>, n: nat): seq<nat>
    requires n <= |pending|
  {
    if n == 0 then [] else WaitingIds(pending, n - 1) + if pending[n - 1].finished then [] else [pending[n - 1].id]
  }

  function UpTo(n: nat): seq<nat> { seq(n, i => i) }

  predicate Rising(ids: seq<nat>) { forall i, j :: 0 <= i < j < |ids| ==> ids[i] < ids[j] }

  lemma {:induction false} FinishedIdsRise(log: seq<Signal>, n: nat)
    requires n <= |log| && HeardAt(log, n).Some?
    ensures Rising(FinishedIds(log, n))
    ensures forall i :: 0 <= i < |FinishedIds(log, n)| ==> FinishedIds(log, n)[i] <= HeardAt(log, n).value.last
  {
    if n > 0 {
      FinishedIdsRise(log, n - 1);
    }
  }

  lemma {:induction false} FinishedIdsAre(log: seq<Signal>, n: nat, k: nat)
    requires k < n <= |log| && log[k].Finished?
    ensures log[k].id in FinishedIds(log, n)
  {
    if k < n - 1 {
      FinishedIdsAre(log, n - 1, k);
    }
  }

  lemma {:induction false} WaitingIdsRise(pending: seq<Request>, n: nat, nextId: nat, last: int)
    requires n <= |pending| && InOrder(pending, nextId)
    requires forall i :: 0 <= i < |pending| && !pending[i].finished ==> pending[i].id > last
    ensures var ids := WaitingIds(pending, n);
            && Rising(ids)
            && forall i :: 0 <= i < |ids| ==> last < ids[i] < nextId && ids[i] <= pending[n - 1].id
  {
    if n > 0 {
      WaitingIdsRise(pending, n - 1, nextId, last);
    }
  }

  lemma {:induction false} WaitingIdsAre(pending: seq<Request>, n: nat, k: nat)
    requires k < n <= |pending| && !pending[k].finished
    ensures pending[k].id in WaitingIds(pending, n)
  {
    if k < n - 1 {
      WaitingIdsAre(pending, n - 1, k);
    }
  }

  /** Numbers that rise and leave out none are all there are. */
  lemma {:induction false} RisingIsUpTo(ids: seq<nat>, n: nat, i: nat)
    requires Rising(ids) && i <= |ids| && (forall k :: 0 <= k < |ids| ==> ids[k] < n)
    requires forall id: nat :: id < n ==> id in ids
    ensures forall k :: 0 <= k < i ==> ids[k] == k
  {
    if i > 0 {
      RisingIsUpTo(ids, n, i - 1);
      if i > 1 {
        assert ids[i - 2] < ids[i - 1];
      }
      if ids[i - 1] > i - 1 {
        var id: nat := i - 1;
        assert id in ids;
        var j :| 0 <= j < |ids| && ids[j] == id;
        assert j >= i - 1;
      }
    }
  }

  lemma AllInARow(ids: seq<nat>, n: nat)
    requires Rising(ids) && (forall k :: 0 <= k < |ids| ==> ids[k] < n)
    requires forall id: nat :: id < n ==> id in ids
    ensures ids == UpTo(n)
  {
    RisingIsUpTo(ids, n, |ids|);
    assert ids != [] ==> ids[|ids| - 1] == |ids| - 1 < n;
    assert |ids| < n ==> |ids| in ids;
  }

  /** When none was dropped, those that have finished and then those that wait are all that were ever added. */
  lemma NoneIsLost(log: seq<Signal>, pending: seq<Request>, nextId: nat)
    requires AsPromised(log) && InOrder(pending, nextId) && MayFinish(pending, HeardAt(log, |log|).value, nextId)
    requires Accounted(log, pending, {}, nextId)
    ensures FinishedIds(log, |log|) + WaitingIds(pending, |pending|) == UpTo(nextId)
  {
    var (done, left) := (FinishedIds(log, |log|), WaitingIds(pending, |pending|));
    FinishedIdsRise(log, |log|);
    WaitingIdsRise(pending, |pending|, nextId, HeardAt(log, |log|).value.last);
    forall id: nat | id < nextId
      ensures id in done + left
    {
      assert Placed(log, pending, {}, id);
      if HasFinished(log, id) {
        var k :| 0 <= k < |log| && log[k].Finished? && log[k].id == id;
        FinishedIdsAre(log, |log|, k);
      } else {
        var i :| 0 <= i < |pending| && pending[i] == Request(id, false);
        WaitingIdsAre(pending, |pending|, i);
      }
    }
    AllInARow(done + left, nextId);
  }

  // ---- what a call leaves behind and lets hear

  /** What waits afterwards waited before, at the same place if it is the first, or is new: its id is `next` or more. */
  ghost predicate Leaves(before: seq<Request>, after: seq<Request>, next: nat) {
    && (forall i :: 0 <= i < |after| && after[i].id < next ==> after[i] in before)
    && (after != [] && after[0].id < next ==> before != [] && after[0] == before[0])
  }

  ghost predicate AllNew(after: seq<Request>, next: nat) {
    forall i :: 0 <= i < |after| ==> after[i].id >= next
  }

  /** Of what waited before only the first is heard of, and only that it failed. */
  predicate MayHear(signal: Signal, before: seq<Request>, next: nat) {
    signal.Finished? ==>
      || signal.id >= next
      || (before != [] && !before[0].finished && signal == Finished(before[0].id, true))
  }

  ghost predicate Hears(log: seq<Signal>, start: nat, before: seq<Request>, next: nat) {
    forall k :: start <= k < |log| ==> MayHear(log[k], before, next)
  }

  predicate IsErrorDone(signal: Signal, next: nat) { signal.Done? && signal.error && signal.next >= next }

  /** From `start` on an error was done with, when all ids below `next` had been given away. */
  ghost predicate ErrorDone(log: seq<Signal>, start: nat, next: nat) {
    exists k :: start <= k < |log| && IsErrorDone(log[k], next)
  }

  /** The first request is where it was, and so are all that waited if nothing was cleared. */
  ghost predicate StayInPlace(before: seq<Request>, after: seq<Request>, all: bool) {
    && (before != [] ==> after != [] && after[0] == before[0])
    && (all ==> before <= after)
  }

  lemma LeavesOnce(before: seq<Request>, mid: seq<Request>, after: seq<Request>, next: nat, later: nat)
    requires Leaves(before, mid, next) && Leaves(mid, after, later) && next <= later
    ensures Leaves(before, after, next)
  {
  }

  lemma HearsOnce(mid: seq<Signal>, log: seq<Signal>, start: nat, before: seq<Request>, left: seq<Request>, next: nat,
                  later: nat)
    requires start <= |mid| && mid <= log && next <= later && Leaves(before, left, next)
    requires Hears(mid, start, before, next) && Hears(log, |mid|, left, later)
    ensures Hears(log, start, before, next)
  {
    forall k | start <= k < |log|
      ensures MayHear(log[k], before, next)
    {
      if k < |mid| {
        assert MayHear(mid[k], before, next);
      } else {
        assert MayHear(log[k], left, later);
      }
    }
  }

  lemma ErrorDoneOnce(mid: seq<Signal>, log: seq<Signal>, start: nat)
    requires start <= |mid| && mid <= log
    ensures ErrorDone(log, start, 0) <==> ErrorDone(mid, start, 0) || ErrorDone(log, |mid|, 0)
  {
    if ErrorDone(mid, start, 0) {
      var k :| start <= k < |mid| && IsErrorDone(mid[k], 0);
      assert IsErrorDone(log[k], 0);
    }
    if ErrorDone(log, start, 0) {
      var k :| start <= k < |log| && IsErrorDone(log[k], 0);
      assert k < |mid| ==> IsErrorDone(mid[k], 0);
    }
  }

  lemma ErrorDoneAt(log: seq<Signal>, k: nat, start: nat, next: nat)
    requires start <= k < |log| && IsErrorDone(log[k], next)
    ensures ErrorDone(log, start, next) && ErrorDone(log, start, 0)
  {
    assert IsErrorDone(log[k], 0);
  }

  /** A first request that has failed, and whatever is heard while it has. */
  lemma FailureIsHeard(was: seq<Signal>, log: seq<Signal>, before: seq<Request>, next: nat)
    requires before != [] && !before[0].finished && |was| < |log| && log[|was|] == Finished(before[0].id, true)
    requires Hears(log, |was| + 1, before[0 := before[0].(finished := true)], next)
    ensures Hears(log, |was|, before, next)
  {
    forall k | |was| <= k < |log|
      ensures MayHear(log[k], before, next)
    {
      if k > |was| {
        assert MayHear(log[k], before[0 := before[0].(finished := true)], next);
      }
    }
  }

  /** What waits afterwards waited before or is new. */
  ghost predicate Waited(before: seq<Request>, after: seq<Request>, next: nat) {
    forall i :: 0 <= i < |after| && after[i].id < next ==> after[i] in before
  }

  lemma WaitedOnce(before: seq<Request>, mid: seq<Request>, after: seq<Request>, next: nat, later: nat)
    requires Waited(before, mid, next) && Waited(mid, after, later) && next <= later
    ensures Waited(before, after, next)
  {
  }

  /**
     The first request of `before` has succeeded and its receivers have returned, with `left` then waiting. An abort was
     the end of it; else the next thing is that all is done, or that the first of those that are left starts.
   */
  ghost predicate Succeeded(was: seq<Signal>, heard: seq<Signal>, log: seq<Signal>, before: seq<Request>,
                            left: seq<Request>, next: nat)
    requires before != []
  {
    && was + [Finished(before[0].id, false)] <= heard <= log
    && Waited(before[1..], left, next)
    && if ErrorDone(heard, |was|, 0) then log == heard && AllNew(left, next)
       else |log| > |heard| && Continues(log[|heard|], left)
  }

  /** All is done, or the next request starts. */
  predicate Continues(signal: Signal, left: seq<Request>) {
    if left == [] then signal.Done? && !signal.error else signal == Started(left[0].id)
  }

  lemma SuccessIsHeard(was: seq<Signal>, emitted: seq<Signal>, heard: seq<Signal>, id: nat)
    requires emitted == was + [Finished(id, false)] && emitted <= heard
    ensures ErrorDone(heard, |was|, 0) <==> ErrorDone(heard, |emitted|, 0)
  {
    ErrorDoneOnce(emitted, heard, |was|);
    assert emitted[|was|] == Finished(id, false);
  }

  lemma AbortedMeanwhile(finished: seq<Request>, after: seq<Request>, nextId: nat, next: nat)
    requires finished != [] && finished[0].finished && Leaves(finished, after, next) && Idle(after)
    requires InOrder(after, nextId)
    ensures AllNew(after, next)
  {
  }

  lemma RemovedFirst(before: seq<Request>, finished: seq<Request>, after: seq<Request>, nextId: nat, next: nat)
    requires before != [] && finished == before[0 := before[0].(finished := true)] && Leaves(finished, after, next)
    requires after != [] && after[0] == finished[0] && InOrder(after, nextId)
    ensures Waited(before[1..], after[1..], next)
  {
    forall i | 0 <= i < |after[1..]| && after[1..][i].id < next
      ensures after[1..][i] in before[1..]
    {
      assert after[i + 1] in finished && after[i + 1].id > finished[0].id;
      var k :| 0 <= k < |finished| && finished[k] == after[i + 1];
      assert finished[k] == before[1..][k - 1];
    }
  }

  /** All is gone, the error is done with, and its receivers have done what they do. */
  lemma DoneFollows(was: seq<Signal>, mid: seq<Signal>, log: seq<Signal>, before: seq<Request>, after: seq<Request>,
                    next: nat, later: nat)
    requires was <= mid && mid + [Done(true, 0, later)] <= log && next <= later
    requires Hears(mid, |was|, before, next) && Hears(log, |mid| + 1, [], later) && Leaves([], after, later)
    ensures Hears(log, |was|, before, next) && AllNew(after, next)
    ensures ErrorDone(log, |was|, next) && ErrorDone(log, |was|, 0)
  {
    assert (mid + [Done(true, 0, later)])[|mid|] == log[|mid|];
    forall k | |was| <= k < |log|
      ensures MayHear(log[k], before, next)
    {
      if k < |mid| {
        assert MayHear(mid[k], before, next);
      } else if k > |mid| {
        assert MayHear(log[k], [], later);
      }
    }
    ErrorDoneAt(log, |mid|, |was|, next);
  }

  // ---- what the calls and events do

  /** The queue as it is between two steps, with all calls that were made so far. */
  datatype Queue = Queue(pending: seq<Request>, error: bool, log: seq<Signal>, nextId: nat, made: seq<Call>)

  function Emitted(q: Queue, signal: Signal): Queue { q.(log := q.log + [signal]) }

  function WithRequest(q: Queue): Queue {
    q.(pending := q.pending + [Request(q.nextId, false)], nextId := q.nextId + 1)
  }

  function FirstOf(pending: seq<Request>): seq<Request> { if pending == [] then [] else [pending[0]] }

  function RestOf(pending: seq<Request>): seq<Request> { if pending == [] then [] else pending[1..] }

  function Marked(q: Queue, error: bool): Queue
    requires q.pending != []
  {
    var r := q.pending[0];
    q.(pending := q.pending[0 := r.(finished := true)], error := error, log := q.log + [Finished(r.id, error)])
  }

  function Performed(q: Queue, call: Call): Queue
    decreases call, 3
  {
    var now := q.(made := q.made + [call]);
    match call
    case Add => WithRequest(now)
    case Clear => now.(pending := FirstOf(now.pending))
    case Abort(receivers) =>
      if now.pending == [] then now
      else
        var failed := FailedWith(now, receivers);
        failed.(pending := FirstOf(failed.pending))
  }

  function Handled(q: Queue, calls: seq<Call>): Queue
    decreases calls, 4
  {
    if calls == [] then q else Handled(Performed(q, calls[0]), calls[1..])
  }

  function FailedWith(q: Queue, receivers: Receivers): Queue
    decreases receivers, 1
  {
    if q.pending == [] then q
    else
      var heard := if q.pending[0].finished then q.(error := true) else Handled(Marked(q, true), receivers.onFinished);
      Handled(Emitted(heard.(pending := []), Done(true, 0, heard.nextId)), receivers.onDone)
  }

  function SucceededWith(q: Queue, receivers: Receivers, next: Beginning): Queue
    decreases next, 2
  {
    if q.pending == [] || q.pending[0].finished then q
    else
      var heard := Handled(Marked(q, false), receivers.onFinished);
      if heard.error then heard else Continued(heard.(pending := RestOf(heard.pending)), receivers.onDone, next)
  }

  function Continued(q: Queue, onDone: seq<Call>, next: Beginning): Queue
    decreases next, 1
  {
    if q.pending == [] then Handled(Emitted(q, Done(false, 0, q.nextId)), onDone) else Begun(q, next)
  }

  function Begun(q: Queue, beginning: Beginning): Queue
    decreases beginning, 0
  {
    if q.pending == [] then q
    else
      var told := Handled(Emitted(q, Started(q.pending[0].id)), beginning.onStarted);
      match beginning.outcome
      case Later => told
      case Succeeds(receivers, next) => SucceededWith(told, receivers, next)
      case Fails(receivers) => FailedWith(told, receivers)
  }

  function Occurred(q: Queue, event: Event): Queue {
    match event
    case Calls(calls) => Handled(q, calls)
    case Start(beginning) => Begun(q, beginning)
    case Success(receivers, next) => SucceededWith(q, receivers, next)
    case Error(receivers) => FailedWith(q, receivers)
  }

  function RunOn(q: Queue, events: seq<Event>, n: nat): Queue
    requires n <= |events|
  {
    if n == 0 then q else Occurred(RunOn(q, events, n - 1), events[n - 1])
  }

  /** How many of the first `n` calls add a request. */
  function Adds(calls: seq<Call>, n: nat): nat
    requires n <= |calls|
  {
    if n == 0 then 0 else Adds(calls, n - 1) + if calls[n - 1].Add? then 1 else 0
  }

  /** Requests that have just been added, with the ids from `next` on. */
  function Fresh(next: nat, n: nat): seq<Request>
    decreases n
  {
    if n == 0 then [] else [Request(next, false)] + Fresh(next + 1, n - 1)
  }

  lemma {:induction false} AddsSeePrefix(a: seq<Call>, b: seq<Call>, n: nat)
    requires n <= |a| && n <= |b| && forall i :: 0 <= i < n ==> a[i] == b[i]
    ensures Adds(a, n) == Adds(b, n)
  {
    if n > 0 {
      AddsSeePrefix(a, b, n - 1);
    }
  }

  lemma AddsNext(calls: seq<Call>, call: Call)
    ensures Adds(calls + [call], |calls| + 1) == Adds(calls, |calls|) + if call.Add? then 1 else 0
  {
    AddsSeePrefix(calls, calls + [call], |calls|);
  }

  lemma {:induction false} AddsOfRest(calls: seq<Call>, n: nat)
    requires 0 < n <= |calls|
    ensures Adds(calls, n) == (if calls[0].Add? then 1 else 0) + Adds(calls[1..], n - 1)
  {
    if n > 1 {
      AddsOfRest(calls, n - 1);
    }
  }

  /** Calls that only add: every one of them gets a request of its own, behind all others and in order. */
  lemma {:induction false} AddsAreQueued(q: Queue, calls: seq<Call>)
    requires OnlyAdds(calls)
    ensures Handled(q, calls)
            == q.(pending := q.pending + Fresh(q.nextId, |calls|), nextId := q.nextId + |calls|, made := q.made + calls)
    decreases |calls|
  {
    if calls == [] {
      assert q.pending + Fresh(q.nextId, 0) == q.pending && q.made + [] == q.made;
    } else {
      assert calls[0].Add? && calls == [calls[0]] + calls[1..];
      AddsAreQueued(Performed(q, calls[0]), calls[1..]);
    }
  }

  /** Calls none of which aborts: all are made, none is heard of, and the first request stays. */
  lemma {:induction false} CallsWithoutAbort(q: Queue, calls: seq<Call>)
    requires NoAbort(calls)
    ensures var h := Handled(q, calls);
            && h.log == q.log && h.error == q.error && h.made == q.made + calls
            && h.nextId == q.nextId + Adds(calls, |calls|)
            && FirstOf(h.pending) == FirstOf(q.pending + Fresh(q.nextId, Adds(calls, |calls|)))
    decreases |calls|
  {
    if calls == [] {
      assert q.made + [] == q.made && q.pending + Fresh(q.nextId, 0) == q.pending;
    } else {
      var one := Performed(q, calls[0]);
      assert !calls[0].Abort? && calls == [calls[0]] + calls[1..];
      CallsWithoutAbort(one, calls[1..]);
      AddsOfRest(calls, |calls|);
      if calls[0].Add? {
        assert one.pending[0] == if q.pending == [] then Request(q.nextId, false) else q.pending[0];
      }
    }
  }

  lemma {:induction false} HandledInTwo(q: Queue, a: seq<Call>, b: seq<Call>)
    ensures Handled(q, a + b) == Handled(Handled(q, a), b)
    decreases |a|
  {
    if a == [] {
      assert a + b == b;
    } else {
      assert (a + b)[0] == a[0] && (a + b)[1..] == a[1..] + b;
      HandledInTwo(Performed(q, a[0]), a[1..], b);
    }
  }

  lemma ClearLeaves(q: Queue)
    ensures Handled(q, [Clear]) == q.(pending := FirstOf(q.pending), made := q.made + [Clear])
  {
    assert Handled(Performed(q, Clear), [][..]) == Performed(q, Clear);
    assert [Clear][1..] == [];
  }

  lemma HandledInThree(q: Queue, before: seq<Call>, call: Call, behind: seq<Call>)
    ensures Handled(q, before + [call] + behind) == Handled(Handled(Handled(q, before), [call]), behind)
  {
    HandledInTwo(q, before + [call], behind);
    HandledInTwo(q, before, [call]);
  }

  lemma ClearedThenAdded(q: Queue, mid: Queue, after: Queue, n: nat, m: nat)
    requires mid.nextId == q.nextId + n && FirstOf(mid.pending) == FirstOf(q.pending + Fresh(q.nextId, n))
    requires after.pending == FirstOf(mid.pending) + Fresh(mid.nextId, m)
    ensures after.pending == FirstOf(q.pending + Fresh(q.nextId, n)) + Fresh(q.nextId + n, m)
  {
  }

  /** A clear leaves the first request there is, and what is added behind it. */
  lemma ClearLeavesFirst(q: Queue, before: seq<Call>, behind: seq<Call>, after: Queue, n: nat)
    requires NoAbort(before) && OnlyAdds(behind) && n == Adds(before, |before|)
    requires after == Handled(q, before + [Clear] + behind)
    ensures after.pending == FirstOf(q.pending + Fresh(q.nextId, n)) + Fresh(q.nextId + n, |behind|)
  {
    HandledInThree(q, before, Clear, behind);
    CallsWithoutAbort(q, before);
    ClearLeaves(Handled(q, before));
    AddsAreQueued(Handled(Handled(q, before), [Clear]), behind);
    ClearedThenAdded(q, Handled(q, before), after, n, |behind|);
  }

  /** A failure whose receivers only add, spelt out: what stays is only what was added when the error was done with. */
  function GentleFailure(q: Queue, receivers: Receivers): Queue
    requires q.pending != []
  {
    var first := q.pending[0];
    var onFinished := if first.finished then [] else receivers.onFinished;
    var next := q.nextId + |onFinished|;
    Queue(Fresh(next, |receivers.onDone|), true,
          q.log + (if first.finished then [] else [Finished(first.id, true)]) + [Done(true, 0, next)],
          next + |receivers.onDone|, q.made + onFinished + receivers.onDone)
  }

  lemma FailureExactly(q: Queue, receivers: Receivers)
    requires q.pending != [] && GentleReceivers(receivers)
    ensures FailedWith(q, receivers) == GentleFailure(q, receivers)
  {
    var heard := if q.pending[0].finished then q.(error := true) else Handled(Marked(q, true), receivers.onFinished);
    if !q.pending[0].finished {
      AddsAreQueued(Marked(q, true), receivers.onFinished);
    }
    var done := Emitted(heard.(pending := []), Done(true, 0, heard.nextId));
    AddsAreQueued(done, receivers.onDone);
    assert [] + Fresh(done.nextId, |receivers.onDone|) == Fresh(done.nextId, |receivers.onDone|);
    assert q.log + [] == q.log && q.made + [] == q.made;
  }

  /** An abort with such receivers: it is a failure, of which only the first that was added then is left. */
  lemma AbortExactly(q: Queue, receivers: Receivers)
    requires GentleReceivers(receivers)
    ensures var now := q.(made := q.made + [Abort(receivers)]);
            Performed(q, Abort(receivers))
            == if q.pending == [] then now
               else GentleFailure(now, receivers).(pending := FirstOf(GentleFailure(now, receivers).pending))
  {
    if q.pending != [] {
      FailureExactly(q.(made := q.made + [Abort(receivers)]), receivers);
    }
  }

  /** A success whose receivers only add: the next request starts, be it one that they have added. */
  lemma SuccessExactly(q: Queue, receivers: Receivers, next: Beginning)
    requires q.pending != [] && !q.pending[0].finished && GentleReceivers(receivers)
    ensures var left := q.pending[1..] + Fresh(q.nextId, |receivers.onFinished|);
            var heard := Queue(left, false, q.log + [Finished(q.pending[0].id, false)],
                               q.nextId + |receivers.onFinished|, q.made + receivers.onFinished);
            SucceededWith(q, receivers, next)
            == if left != [] then Begun(heard, next)
               else Queue(Fresh(heard.nextId, |receivers.onDone|), false, heard.log + [Done(false, 0, heard.nextId)],
                          heard.nextId + |receivers.onDone|, heard.made + receivers.onDone)
  {
    AddsAreQueued(Marked(q, false), receivers.onFinished);
    var heard := Handled(Marked(q, false), receivers.onFinished);
    var left := heard.(pending := RestOf(heard.pending));
    assert left.pending == q.pending[1..] + Fresh(q.nextId, |receivers.onFinished|);
    if left.pending == [] {
      AddsAreQueued(Emitted(left, Done(false, 0, left.nextId)), receivers.onDone);
      assert [] + Fresh(left.nextId, |receivers.onDone|) == Fresh(left.nextId, |receivers.onDone|);
    }
  }

  /** A start: the first request is heard of, its receivers add theirs, and then comes what it leads to. */
  lemma StartExactly(q: Queue, beginning: Beginning)
    requires q.pending != [] && OnlyAdds(beginning.onStarted)
    ensures var n := |beginning.onStarted|;
            var told := Queue(q.pending + Fresh(q.nextId, n), q.error, q.log + [Started(q.pending[0].id)], q.nextId + n,
                              q.made + beginning.onStarted);
            Begun(q, beginning)
            == match beginning.outcome
               case Later => told
               case Succeeds(receivers, next) => SucceededWith(told, receivers, next)
               case Fails(receivers) => FailedWith(told, receivers)
  {
    AddsAreQueued(Emitted(q, Started(q.pending[0].id)), beginning.onStarted);
  }

  class HttpQueue {
    var pending: seq<Request>
    var hasFinishedWithError: bool
    var log: seq<Signal>
    var nextId: nat
    /** The requests that were cleared, or removed by an error, before they finished. */
    ghost var dropped: set<nat>
    /** The calls of the receivers, in the order in which they were made. */
    ghost var made: seq<Call>

    ghost predicate Valid() reads this {
      && AsPromised(log) && InOrder(pending, nextId) && MayFinish(pending, HeardAt(log, |log|).value, nextId)
      && Accounted(log, pending, dropped, nextId)
    }

    /** How many calls added a request, less the number of ids; it stays what it is. */
    ghost function Balance(): int reads this { Adds(made, |made|) - nextId }

    ghost function View(): Queue reads this { Queue(pending, hasFinishedWithError, log, nextId, made) }

    ghost predicate Failing() reads this { AsPromised(log) && HeardAt(log, |log|).value.failing }

    constructor ()
      ensures Valid() && Balance() == 0 && dropped == {} && View() == Queue([], false, [], 0, [])
    {
      pending, hasFinishedWithError, log, nextId := [], false, [], 0;
      dropped, made := {}, [];
    }

    method Emit(signal: Signal)
      modifies this`log
      ensures log == old(log) + [signal]
      ensures HeardAt(log, |log|) ==
              if HeardAt(old(log), |old(log)|).None? then None else Hear(HeardAt(old(log), |old(log)|).value, signal)
    {
      HeardSeesPrefix(log, log + [signal], |log|);
      log := log + [signal];
    }

    method AddRequest() returns (id: nat)
      requires Valid()
      modifies this`pending, this`nextId
      ensures Valid() && id == old(nextId) && nextId == old(nextId) + 1
      ensures pending == old(pending) + [Request(id, false)]
    {
      AddingKeepsOrder(pending, HeardAt(log, |log|).value, nextId);
      AddedIsAccounted(log, pending, dropped, nextId);
      id := nextId;
      nextId := nextId + 1;
      pending := pending + [Request(id, false)];
    }

    /** Removes all but the first. */
    method ClearPendingRequests()
      requires Valid()
      modifies this`pending, this`dropped
      ensures Valid() && pending == if old(pending) == [] then [] else [old(pending)[0]]
      ensures dropped == old(dropped) + WaitingFrom(old(pending), 1)
    {
      if pending != [] {
        DropIsAccounted(log, pending, dropped, nextId, 1);
        assert pending[..1] == [pending[0]];
      } else {
        assert dropped + WaitingFrom(pending, 1) == dropped;
      }
      dropped := dropped + WaitingFrom(pending, 1);
      while |pending| > 1
        invariant |pending| <= |old(pending)| && pending == old(pending)[..|pending|]
        invariant old(pending) != [] ==> pending != []
        invariant dropped == old(dropped) + WaitingFrom(old(pending), 1)
      {
        pending := pending[..|pending| - 1];
      }
    }

    method RemoveAll()
      modifies this`pending, this`dropped
      ensures pending == [] && dropped == old(dropped) + WaitingFrom(old(pending), 0)
    {
      dropped := dropped + WaitingFrom(pending, 0);
      while pending != []
        invariant dropped == old(dropped) + WaitingFrom(old(pending), 0)
        decreases |pending|
      {
        pending := pending[1..];
      }
    }

    /** A receiver calls back. Unless it aborts, the first request stays where it is, and all unless it clears. */
    method Handle(calls: seq<Call>)
      requires Valid()
      modifies this
      ensures View() == Handled(old(View()), calls) && Balance() == old(Balance())
      ensures Valid() && old(log) <= log && old(nextId) <= nextId
      ensures Failing() ==> old(Failing())
      ensures old(Idle(pending)) || (hasFinishedWithError && !old(hasFinishedWithError)) ==> Idle(pending)
      ensures Leaves(old(pending), pending, old(nextId)) && Hears(log, |old(log)|, old(pending), old(nextId))
      ensures hasFinishedWithError <==> old(hasFinishedWithError) || ErrorDone(log, |old(log)|, 0)
      ensures !ErrorDone(log, |old(log)|, 0) ==> StayInPlace(old(pending), pending, NoClear(calls))
      ensures NoAbort(calls) ==> log == old(log)
      ensures OnlyAdds(calls) ==> dropped == old(dropped)
      decreases calls, 4
    {
      var i := 0;
      assert calls[0..] == calls;
      while i < |calls|
        invariant 0 <= i <= |calls|
        invariant Handled(View(), calls[i..]) == Handled(old(View()), calls) && Balance() == old(Balance())
        invariant Valid() && old(log) <= log && old(nextId) <= nextId
        invariant Failing() ==> old(Failing())
        invariant old(Idle(pending)) || (hasFinishedWithError && !old(hasFinishedWithError)) ==> Idle(pending)
        invariant Leaves(old(pending), pending, old(nextId)) && Hears(log, |old(log)|, old(pending), old(nextId))
        invariant hasFinishedWithError <==> old(hasFinishedWithError) || ErrorDone(log, |old(log)|, 0)
        invariant !ErrorDone(log, |old(log)|, 0) ==> StayInPlace(old(pending), pending, NoClear(calls))
        invariant NoAbort(calls) ==> log == old(log)
        invariant OnlyAdds(calls) ==> dropped == old(dropped)
      {
        ghost var (before, mid, next) := (log, pending, nextId);
        assert calls[i..][0] == calls[i] && calls[i..][1..] == calls[i + 1..];
        Perform(calls[i]);
        LeavesOnce(old(pending), mid, pending, old(nextId), next);
        HearsOnce(before, log, |old(log)|, old(pending), mid, old(nextId), next);
        ErrorDoneOnce(before, log, |old(log)|);
        i := i + 1;
      }
    }

    method Perform(call: Call)
      requires Valid()
      modifies this
      ensures View() == Performed(old(View()), call) && Balance() == old(Balance())
      ensures Valid() && old(log) <= log && old(nextId) <= nextId
      ensures Failing() ==> old(Failing())
      ensures old(Idle(pending)) || (hasFinishedWithError && !old(hasFinishedWithError)) ==> Idle(pending)
      ensures Leaves(old(pending), pending, old(nextId)) && Hears(log, |old(log)|, old(pending), old(nextId))
      ensures hasFinishedWithError <==> old(hasFinishedWithError) || ErrorDone(log, |old(log)|, 0)
      ensures !ErrorDone(log, |old(log)|, 0) ==> StayInPlace(old(pending), pending, !call.Clear?)
      ensures !call.Abort? ==> log == old(log)
      ensures call.Add? ==> dropped == old(dropped)
      decreases call, 3
    {
      AddsNext(made, call);
      made := made + [call];
      match call {
        case Add => var _ := AddRequest();
        case Clear => ClearPendingRequests();
        case Abort(receivers) => Abort(receivers);
      }
    }

    /** The first request fails, unless it has finished already, and nothing is left that was queued before. */
    method Abort(receivers: Receivers)
      requires Valid()
      modifies this
      ensures View() == if old(pending) == [] then old(View())
                        else FailedWith(old(View()), receivers).(pending := pending)
      ensures pending == FirstOf(FailedWith(old(View()), receivers).pending)
      ensures Balance() == old(Balance())
      ensures Valid() && old(log) <= log && old(nextId) <= nextId
      ensures if old(pending) == []
              then pending == [] && log == old(log) && hasFinishedWithError == old(hasFinishedWithError)
              else Idle(pending) && !Failing() && hasFinishedWithError
      ensures old(pending) != [] && !old(pending)[0].finished ==>
                |log| > |old(log)| && log[|old(log)|] == Finished(old(pending)[0].id, true)
      ensures old(pending) != [] ==> ErrorDone(log, |old(log)|, old(nextId)) && ErrorDone(log, |old(log)|, 0)
      ensures AllNew(pending, old(nextId)) && |pending| <= 1
      ensures Hears(log, |old(log)|, old(pending), old(nextId))
      decreases receivers, 2
    {
      if pending == [] {
        return;
      }
      FinishedWithError(receivers);
      ClearPendingRequests();
    }

    /** The first request fails, unless it has finished already; the others go without a signal. */
    method FinishedWithError(receivers: Receivers)
      requires Valid()
      modifies this
      ensures View() == FailedWith(old(View()), receivers)
      ensures Balance() == old(Balance())
      ensures Valid() && old(log) <= log && old(nextId) <= nextId
      ensures if old(pending) == []
              then pending == [] && log == old(log) && hasFinishedWithError == old(hasFinishedWithError)
              else Idle(pending) && !Failing() && hasFinishedWithError
      ensures old(pending) != [] && !old(pending)[0].finished ==>
                |log| > |old(log)| && log[|old(log)|] == Finished(old(pending)[0].id, true)
      ensures old(pending) != [] ==> ErrorDone(log, |old(log)|, old(nextId)) && ErrorDone(log, |old(log)|, 0)
      ensures AllNew(pending, old(nextId))
      ensures Hears(log, |old(log)|, old(pending), old(nextId))
      decreases receivers, 1
    {
      if pending == [] {
        return;
      }
      var r := pending[0];
      hasFinishedWithError := true;
      if !r.finished {
        FailFirst(receivers.onFinished);
      }
      ghost var (mid, later) := (log, nextId);
      RemoveAndTell(receivers.onDone);
      DoneFollows(old(log), mid, log, old(pending), pending, old(nextId), later);
    }

    /** Removes all requests, and says that the error is done with. */
    method RemoveAndTell(onDone: seq<Call>)
      requires Valid() && hasFinishedWithError
      modifies this
      ensures View() == Handled(Emitted(old(View()).(pending := []), Done(true, 0, old(nextId))), onDone)
      ensures Balance() == old(Balance())
      ensures Valid() && old(nextId) <= nextId && Idle(pending) && !Failing() && hasFinishedWithError
      ensures old(log) + [Done(true, 0, old(nextId))] <= log
      ensures Leaves([], pending, old(nextId)) && Hears(log, |old(log)| + 1, [], old(nextId))
      decreases onDone, 5
    {
      DropIsAccounted(log, pending, dropped, nextId, 0);
      assert pending[..0] == [];
      RemoveAll();
      SignalIsAccounted(log, pending, dropped, nextId, Done(hasFinishedWithError, |pending|, nextId));
      Emit(Done(hasFinishedWithError, |pending|, nextId));
      Handle(onDone);
    }

    method FailFirst(calls: seq<Call>)
      requires Valid() && pending != [] && !pending[0].finished && hasFinishedWithError
      modifies this
      ensures View() == Handled(Marked(old(View()), true), calls)
      ensures Balance() == old(Balance())
      ensures Valid() && old(log) <= log && old(nextId) <= nextId && hasFinishedWithError
      ensures |log| > |old(log)| && log[|old(log)|] == Finished(old(pending)[0].id, true)
      ensures Hears(log, |old(log)|, old(pending), old(nextId))
      decreases calls, 5
    {
      var r := pending[0];
      FinishIsAccounted(log, pending, dropped, nextId, true);
      pending := pending[0 := r.(finished := true)];
      Emit(Finished(r.id, true));
      ghost var emitted := log;
      Handle(calls);
      assert emitted <= log;
      FailureIsHeard(old(log), log, old(pending), old(nextId));
    }

    /**
     The first request succeeds. If a receiver aborts meanwhile, the queue has been dealt with and no more is said;
     if not, the request that is removed is the one that finished, and the next one starts. Returns what had been
     emitted and what else waited when the receivers of the success had returned.
     */
    method FinishedWithSuccess(receivers: Receivers, next: Beginning)
      returns (ghost heard: seq<Signal>, ghost left: seq<Request>)
      requires Valid() && !Failing() && Idle(pending)
      modifies this
      ensures View() == SucceededWith(old(View()), receivers, next) && Balance() == old(Balance())
      ensures Valid() && !Failing() && Idle(pending) && old(log) <= log && old(nextId) <= nextId
      ensures old(pending) == [] ==> log == old(log) && pending == []
      ensures old(pending) != [] ==> Succeeded(old(log), heard, log, old(pending), left, old(nextId))
      ensures old(pending) != [] ==> Waited(old(pending)[1..], pending, old(nextId))
      ensures old(pending) != [] && NoClear(receivers.onFinished) && !ErrorDone(heard, |old(log)|, 0) ==>
                old(pending)[1..] <= left
      ensures GentleReceivers(receivers) && Gentle(next) ==> dropped == old(dropped)
      decreases next, 2
    {
      heard, left := log, pending;
      if pending == [] {
        return;
      }
      var r := pending[0];
      if r.finished {
        return;
      }
      FinishFirst(receivers.onFinished);
      heard, left := log, pending;
      if hasFinishedWithError {
        return;
      }
      RemovalIsAccounted(log, pending, dropped, nextId);
      pending := pending[1..];
      left := pending;
      Continue(receivers.onDone, next);
    }

    /** Marks the first request as finished and says so. It stays where it is unless a receiver aborts. */
    method FinishFirst(calls: seq<Call>)
      requires Valid() && !Failing() && pending != [] && !pending[0].finished
      modifies this
      ensures View() == Handled(Marked(old(View()), false), calls) && Balance() == old(Balance())
      ensures Valid() && !Failing() && old(nextId) <= nextId
      ensures old(log) + [Finished(old(pending)[0].id, false)] <= log
      ensures hasFinishedWithError <==> ErrorDone(log, |old(log)|, 0)
      ensures if hasFinishedWithError then Idle(pending) && AllNew(pending, old(nextId))
              else pending != [] && pending[0].finished && Waited(old(pending)[1..], pending[1..], old(nextId))
      ensures !hasFinishedWithError && NoClear(calls) ==> old(pending)[1..] <= pending[1..]
      ensures OnlyAdds(calls) ==> !hasFinishedWithError && dropped == old(dropped)
    {
      var r := pending[0];
      FinishIsAccounted(log, pending, dropped, nextId, false);
      pending := pending[0 := r.(finished := true)];
      hasFinishedWithError := false;
      Emit(Finished(r.id, false));
      ghost var (finished, emitted) := (pending, log);
      Handle(calls);
      SuccessIsHeard(old(log), emitted, log, r.id);
      if hasFinishedWithError {
        AbortedMeanwhile(finished, pending, nextId, old(nextId));
      } else {
        RemovedFirst(old(pending), finished, pending, nextId, old(nextId));
      }
    }

    /** Goes on behind a success: with the next request if there is one. */
    method Continue(onDone: seq<Call>, next: Beginning)
      requires Valid() && !Failing() && Idle(pending)
      modifies this
      ensures View() == Continued(old(View()), onDone, next) && Balance() == old(Balance())
      ensures Valid() && !Failing() && Idle(pending) && old(log) <= log && old(nextId) <= nextId
      ensures |log| > |old(log)| && Continues(log[|old(log)|], old(pending))
      ensures Waited(old(pending), pending, old(nextId))
      ensures OnlyAdds(onDone) && Gentle(next) ==> dropped == old(dropped)
      decreases next, 1
    {
      if pending == [] {
        SignalIsAccounted(log, pending, dropped, nextId, Done(false, |pending|, nextId));
        Emit(Done(false, |pending|, nextId));
        ghost var emitted := log;
        Handle(onDone);
        assert emitted <= log;
      } else {
        StartNext(next);
      }
    }

    /** Starts the first request, which its receivers hear of; that may lead to its end at once. */
    method StartNext(beginning: Beginning)
      requires Valid() && !Failing() && Idle(pending)
      modifies this
      ensures View() == Begun(old(View()), beginning) && Balance() == old(Balance())
      ensures Valid() && !Failing() && Idle(pending) && old(log) <= log && old(nextId) <= nextId
      ensures old(pending) != [] ==> |log| > |old(log)| && log[|old(log)|] == Started(old(pending)[0].id)
      ensures old(pending) != [] && beginning.outcome.Later? ==>
                && log == old(log) + [Started(old(pending)[0].id)]
                && StayInPlace(old(pending), pending, NoClear(beginning.onStarted))
      ensures Waited(old(pending), pending, old(nextId))
      ensures Gentle(beginning) ==> dropped == old(dropped)
      decreases beginning, 0
    {
      if pending == [] {
        return;
      }
      SignalIsAccounted(log, pending, dropped, nextId, Started(pending[0].id));
      Emit(Started(pending[0].id));
      ghost var emitted := log;
      Handle(beginning.onStarted);
      ghost var (mid, later) := (pending, nextId);
      match beginning.outcome {
        case Later =>
        case Succeeds(receivers, next) => var _, _ := FinishedWithSuccess(receivers, next);
        case Fails(receivers) => FinishedWithError(receivers);
      }
      assert emitted <= log;
      WaitedOnce(old(pending), mid, pending, old(nextId), later);
    }

    /**
     Between events nothing is being emitted, and all that was promised is kept. Every request there ever was has
     finished, or waits, or was dropped; when nothing was cleared or aborted and none failed, those that have finished
     and then those that wait are all, in the order in which they were added.
     */
    method Run(events: seq<Event>)
      requires Valid() && !Failing() && Idle(pending)
      modifies this
      ensures View() == RunOn(old(View()), events, |events|) && Balance() == old(Balance())
      ensures Valid() && !Failing() && Idle(pending) && old(log) <= log
      ensures (forall i :: 0 <= i < |events| ==> GentleEvent(events[i])) ==> dropped == old(dropped)
      ensures (forall i :: 0 <= i < |events| ==> GentleEvent(events[i])) && old(dropped) == {} ==>
                FinishedIds(log, |log|) + WaitingIds(pending, |pending|) == UpTo(nextId)
    {
      ghost var gentle := forall i :: 0 <= i < |events| ==> GentleEvent(events[i]);
      var i := 0;
      while i < |events|
        invariant 0 <= i <= |events|
        invariant Valid() && !Failing() && Idle(pending) && old(log) <= log
        invariant View() == RunOn(old(View()), events, i) && Balance() == old(Balance())
        invariant gentle ==> dropped == old(dropped)
      {
        assert gentle ==> GentleEvent(events[i]);
        match events[i] {
          case Calls(calls) => Handle(calls);
          case Start(beginning) => StartNext(beginning);
          case Success(receivers, next) => var _, _ := FinishedWithSuccess(receivers, next);
          case Error(receivers) => FinishedWithError(receivers);
        }
        i := i + 1;
      }
      if dropped == {} {
        NoneIsLost(log, pending, nextId);
      }
    }
  }
}
