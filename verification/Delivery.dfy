/** What the client that waits for its request receives, over whole runs. */
module Delivery {
  import opened Options
  import opened Entities
  import opened Runs
  import opened Promises
  import opened ChatService

  // The polls of one wait: each reads the row of request i in some committed state, later polls in
  // later ones; the request was committed before the first.
  ghost predicate PollsOf(r: Run, i: RequestId, seen: seq<nat>, polls: seq<Option<Request>>) {
    && |polls| == |seen|
    && (forall n :: 0 <= n < |seen| ==> seen[n] < |r.states|)
    && (forall m, n :: 0 <= m < n < |seen| ==> seen[m] <= seen[n])
    && (forall n :: 0 <= n < |seen| ==>
          polls[n] == if i in r.states[seen[n]].requests then Some(r.states[seen[n]].requests[i]) else None)
    && (seen != [] ==> i in r.states[seen[0]].requests)
  }

  lemma {:induction false} RowStays(r: Run, i: RequestId, seen: seq<nat>, polls: seq<Option<Request>>, n: nat)
    requires IsRun(r) && PollsOf(r, i, seen, polls) && n < |seen|
    ensures i in r.states[seen[n]].requests && polls[n] == Some(r.states[seen[n]].requests[i])
  {
    if n == 0 {
    } else {
      RunEvolves(r, seen[0], seen[n]);
    }
  }

  // A client that waits receives the result a worker reported for its request, exactly as reported.
  lemma {:induction false} DeliveredAsReported(
    r: Run, i: RequestId, seen: seq<nat>, polls: seq<Option<Request>>, result: Json) returns (m: nat)
    requires IsRun(r) && PollsOf(r, i, seen, polls) && Awaited(polls, Delivered(result))
    ensures m < |r.steps| && r.steps[m].Commit? && r.steps[m].id == i && r.steps[m].result == result
  {
    var n :| 0 <= n < |polls| && FirstDecides(polls, n) && Answers(polls[n], Delivered(result));
    RowStays(r, i, seen, polls, n);
    m := ResultAsReported(r, seen[n], i);
  }

  // It is told of a failure only if its request has ended, for good, without a result.
  lemma {:induction false} FailureIsFinal(r: Run, i: RequestId, seen: seq<nat>, polls: seq<Option<Request>>, last: nat)
    requires IsRun(r) && PollsOf(r, i, seen, polls) && Awaited(polls, Failed)
    requires last < |r.states| && forall n :: 0 <= n < |seen| ==> seen[n] <= last
    ensures i in r.states[last].requests && var q := r.states[last].requests[i];
      Terminal(q) && q.status != Completed && q.result == None
  {
    var n :| 0 <= n < |polls| && FirstDecides(polls, n) && Answers(polls[n], Failed);
    RowStays(r, i, seen, polls, n);
    CommittedOnce(r, seen[n], i);
    RunEvolves(r, seen[n], last);
  }

  // It is never told that its request disappeared.
  lemma {:induction false} NeverDisappears(r: Run, i: RequestId, seen: seq<nat>, polls: seq<Option<Request>>)
    requires IsRun(r) && PollsOf(r, i, seen, polls)
    ensures !Awaited(polls, Disappeared)
  {
    forall n | 0 <= n < |polls| ensures polls[n].Some? {
      RowStays(r, i, seen, polls, n);
    }
  }

  // A wait never times out if one of its polls found the request ended.
  lemma {:induction false} EndedIsNoticed(polls: seq<Option<Request>>, n: nat, q: Request)
    requires n < |polls| && polls[n] == Some(q)
    requires q.status in {FailedFinal, Cancelled, Expired} || (q.status == Completed && q.result != None)
    ensures !Awaited(polls, Timeout)
  {
    assert !Undecided(polls[n]);
  }

  // A wait that times out had found the request still on its way at every poll.
  lemma {:induction false} TimedOutOnItsWay(
    r: Run, i: RequestId, seen: seq<nat>, polls: seq<Option<Request>>, n: nat)
    requires IsRun(r) && PollsOf(r, i, seen, polls) && Awaited(polls, Timeout) && n < |seen|
    ensures i in r.states[seen[n]].requests && var q := r.states[seen[n]].requests[i];
      !Terminal(q) && q.result == None
  {
    RowStays(r, i, seen, polls, n);
    CommittedOnce(r, seen[n], i);
    assert Undecided(polls[n]);
  }
}
