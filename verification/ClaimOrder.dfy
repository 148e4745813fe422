/** The order in which the queue is served. */
module ClaimOrder {
  import opened Entities
  import opened Protocol
  import opened Sums

  function Eligible(requests: map<RequestId, Request>, skipped: set<RequestId>, w: Worker, now: nat): set<RequestId> {
    set i | i in requests && i !in skipped && Claimable(requests[i], w, now)
  }

  // The requests a worker may claim: queued, unlocked, not past their queue time, of a model it
  // supports, and with every required capability among its own.
  ghost predicate MayClaim(requests: map<RequestId, Request>, skipped: set<RequestId>, w: Worker, now: nat, i: RequestId) {
    && i in requests && i !in skipped
    && requests[i].status == Queued && now < requests[i].expiresAt
    && (requests[i].resolvedModel in w.supportedModels || requests[i].modelAlias in w.supportedModels)
    && forall c :: c in requests[i].required ==> c in w.capabilities && w.capabilities[c] == requests[i].required[c]
  }

  lemma {:induction false} EligibleMayClaim(requests: map<RequestId, Request>, skipped: set<RequestId>, w: Worker, now: nat)
    ensures forall i :: i in Eligible(requests, skipped, w, now) <==> MayClaim(requests, skipped, w, now, i)
    ensures Eligible(requests, skipped, w, now) == {} <==> forall i :: !MayClaim(requests, skipped, w, now, i)
  {
    if Eligible(requests, skipped, w, now) != {} {
      var i :| i in Eligible(requests, skipped, w, now);
      assert MayClaim(requests, skipped, w, now, i);
    }
  }

  // Request i comes no later in the queue than any other the worker may claim.
  ghost predicate OldestToClaim(requests: map<RequestId, Request>, skipped: set<RequestId>, w: Worker, now: nat, i: RequestId) {
    && MayClaim(requests, skipped, w, now, i)
    && forall j :: MayClaim(requests, skipped, w, now, j) ==>
      requests[i].priority < requests[j].priority
      || (requests[i].priority == requests[j].priority && requests[i].createdAt <= requests[j].createdAt)
  }

  lemma {:induction false} OldestIsOldest(requests: map<RequestId, Request>, skipped: set<RequestId>, w: Worker, now: nat, i: RequestId)
    requires i in Eligible(requests, skipped, w, now)
    requires forall j :: j in Eligible(requests, skipped, w, now) ==> Ahead(requests[i], requests[j])
    ensures OldestToClaim(requests, skipped, w, now, i)
  {
    EligibleMayClaim(requests, skipped, w, now);
    forall j | MayClaim(requests, skipped, w, now, j)
      ensures requests[i].priority < requests[j].priority
              || (requests[i].priority == requests[j].priority && requests[i].createdAt <= requests[j].createdAt)
    {
      assert Ahead(requests[i], requests[j]);
    }
  }

  // None of `among` has a smaller priority, or the same and an earlier creation.
  predicate First(requests: map<RequestId, Request>, among: set<RequestId>, i: RequestId)
    requires among <= requests.Keys
  {
    i in among && forall j :: j in among ==>
      requests[i].priority < requests[j].priority
      || (requests[i].priority == requests[j].priority && requests[i].createdAt <= requests[j].createdAt)
  }

  // Priority and age order any set of rows: a non-empty set has a row that is ahead of all others.
  lemma {:induction false} FirstExists(requests: map<RequestId, Request>, among: set<RequestId>) returns (i: RequestId)
    requires among <= requests.Keys && among != {}
    ensures First(requests, among, i)
    decreases among
  {
    i :| i in among;
    if among == {i} {
    } else {
      var rest := among - {i};
      assert rest != {} by {
        assert among == rest + {i};
      }
      var j := FirstExists(requests, rest);
      if !Ahead(requests[i], requests[j]) {
        i := j;
      }
    }
  }

  // Repeated claims by one worker at one instant, with no row locked by anyone else, until nothing
  // it may claim is left.
  ghost predicate Serves(states: seq<State>, w: Worker, now: nat, ids: seq<RequestId>) {
    && |states| == |ids| + 1
    && (forall n :: 0 <= n < |ids| ==> Next(states[n], Claim(w, {}, now, ids[n]), states[n + 1]))
    && Eligible(states[|ids|].requests, {}, w, now) == {}
  }

  lemma {:induction false} ClaimTakesOne(s: State, w: Worker, now: nat, i: RequestId)
    requires Enabled(s, Claim(w, {}, now, i))
    ensures i in Eligible(s.requests, {}, w, now)
    ensures var t := Apply(s, Claim(w, {}, now, i));
      && Eligible(t.requests, {}, w, now) == Eligible(s.requests, {}, w, now) - {i}
      && (forall j :: j in Eligible(t.requests, {}, w, now) ==>
            j in s.requests && t.requests[j] == s.requests[j] && Ahead(s.requests[i], s.requests[j]))
  {}

  lemma {:induction false} ServesRest(states: seq<State>, w: Worker, now: nat, ids: seq<RequestId>)
    requires Serves(states, w, now, ids) && ids != []
    ensures Next(states[0], Claim(w, {}, now, ids[0]), states[1]) && Serves(states[1..], w, now, ids[1..])
  {
    assert Next(states[0], Claim(w, {}, now, ids[0]), states[1]);
    forall n | 0 <= n < |ids[1..]| ensures Next(states[1..][n], Claim(w, {}, now, ids[1..][n]), states[1..][n + 1]) {
      assert Next(states[n + 1], Claim(w, {}, now, ids[n + 1]), states[n + 2]);
    }
  }

  // By priority, and by creation within a priority.
  ghost predicate InOrder(requests: map<RequestId, Request>, ids: seq<RequestId>) {
    && (forall i :: i in ids ==> i in requests)
    && forall m, n :: 0 <= m < n < |ids| ==>
      requests[ids[m]].priority < requests[ids[n]].priority
      || (requests[ids[m]].priority == requests[ids[n]].priority && requests[ids[m]].createdAt <= requests[ids[n]].createdAt)
  }

  // One request in front of a series it is ahead of.
  lemma {:induction false} OneInFront(
    before: map<RequestId, Request>, after: map<RequestId, Request>, i: RequestId, rest: seq<RequestId>)
    requires i in before && i !in rest && Distinct(rest) && InOrder(after, rest)
    requires forall j :: j in rest ==> j in before && after[j] == before[j] && Ahead(before[i], before[j])
    ensures Distinct([i] + rest) && InOrder(before, [i] + rest)
  {
    var ids := [i] + rest;
    forall m, n | 0 <= m < n < |ids| ensures ids[m] != ids[n] && ids[m] in before && ids[n] in before && Ahead(before[ids[m]], before[ids[n]]) {
      assert ids[n] == rest[n - 1];
      if m > 0 {
        assert ids[m] == rest[m - 1];
      }
    }
  }

  // Such a series serves exactly the eligible requests, each once, in queue order.
  lemma {:induction false} ServedInOrder(states: seq<State>, w: Worker, now: nat, ids: seq<RequestId>)
    requires Serves(states, w, now, ids)
    ensures Distinct(ids) && InOrder(states[0].requests, ids)
    ensures forall i :: i in ids <==> MayClaim(states[0].requests, {}, w, now, i)
    decreases |ids|
  {
    EligibleMayClaim(states[0].requests, {}, w, now);
    if ids == [] {
    } else {
      ServesRest(states, w, now, ids);
      EligibleMayClaim(states[1].requests, {}, w, now);
      ClaimTakesOne(states[0], w, now, ids[0]);
      ServedInOrder(states[1..], w, now, ids[1..]);
      assert ids == [ids[0]] + ids[1..];
      OneInFront(states[0].requests, states[1].requests, ids[0], ids[1..]);
    }
  }
}
