/**
  Block consensus requests and the cache that holds them: votes on a request, the order of the
  cache, and what adding a request or moving to a later turn does to it. A request is a record
  that the cache and the running process both refer to by its number.
 */
module VerifyRequests {
  import opened Options

  type Hash = nat
  type Account = nat
  type ReqId = nat

  const NO_ACCOUNT: Account := 0
  const REQ_COUNT_MAX: nat := 5
  const FROM_COUNT_LIMIT: nat := 3

  datatype Kind = LocalReq | LeaderReq | OtherReq | UnknownReq | FromBadReq

  datatype Result = Processing | Success | CanRecover | StateFailed | DBRecovery

  type U32 = n: nat | n < U32_SIZE

  const U32_SIZE := 0x1_0000_0000

  datatype Turn = Turn(preConsensus: U32, usedReelect: U32)

  /** A vote whose signature has been checked. */
  datatype Vote = Vote(account: Account, sign: nat)

  datatype Req = Req(kind: Kind, from: Account, leader: Account, turn: Turn, hash: Hash, time: int, txCount: nat,
                     txs: seq<nat>, result: Result, posFinished: bool, votes: seq<Vote>)

  type Reqs = map<ReqId, Req>

  // ----- Votes -----

  /** No vote of the zero account, and at most one per account. */
  ghost predicate VotesOk(votes: seq<Vote>) {
    && (forall i :: 0 <= i < |votes| ==> votes[i].account != NO_ACCOUNT)
    && (forall i, j :: 0 <= i < j < |votes| ==> votes[i].account != votes[j].account)
  }

  /** `addVote`: a zero or repeated account is refused. */
  method AddVote(votes: seq<Vote>, vote: Vote) returns (more: seq<Vote>)
    ensures more == if vote.account == NO_ACCOUNT || (exists i :: 0 <= i < |votes| && votes[i].account == vote.account) then votes else votes + [vote]
    ensures VotesOk(votes) ==> VotesOk(more)
  {
    if vote.account == NO_ACCOUNT {
      return votes;
    }
    for i := 0 to |votes|
      invariant forall j :: 0 <= j < i ==> votes[j].account != vote.account
    {
      if votes[i].account == vote.account {
        return votes;
      }
    }
    return votes + [vote];
  }

  /** Votes that came before their request: those that pass the signature check are added. */
  method AddVotes(votes: seq<Vote>, early: seq<Option<Vote>>) returns (more: seq<Vote>)
    ensures VotesOk(votes) ==> VotesOk(more)
    ensures votes <= more
    ensures forall v <- more :: v in votes || Some(v) in early
    ensures VotesOk(votes) ==> forall x <- early :: x.Some? && x.value.account != NO_ACCOUNT ==> exists v <- more :: v.account == x.value.account
  {
    more := votes;
    for i := 0 to |early|
      invariant VotesOk(votes) ==> VotesOk(more)
      invariant votes <= more && forall v <- more :: v in votes || Some(v) in early
      invariant forall j :: 0 <= j < i && early[j].Some? && early[j].value.account != NO_ACCOUNT ==> exists v <- more :: v.account == early[j].value.account
    {
      if early[i].Some? {
        ghost var was := more;
        more := AddVote(more, early[i].value);
        assert forall v <- was :: v in more;
        if early[i].value.account != NO_ACCOUNT && more == was {
          var j :| 0 <= j < |was| && was[j].account == early[i].value.account;
          assert was[j] in more;
        } else if early[i].value.account != NO_ACCOUNT {
          assert early[i].value in more;
        }
      }
    }
  }

  // ----- Turns -----

  /** `Cmp < 0`: fewer turns in all, then fewer consensus turns. */
  predicate Earlier(a: Turn, b: Turn) {
    var x, y := (a.preConsensus + a.usedReelect) % U32_SIZE, (b.preConsensus + b.usedReelect) % U32_SIZE;
    x < y || (x == y && a.preConsensus < b.preConsensus)
  }

  /** Turns are totally ordered by it. */
  lemma {:induction false} TurnsOrdered(a: Turn, b: Turn, c: Turn)
    ensures !Earlier(a, b) && !Earlier(b, a) <==> a == b
    ensures Earlier(a, b) ==> !Earlier(b, a)
    ensures Earlier(a, b) && Earlier(b, c) ==> Earlier(a, c)
  {
  }

  // ----- The order of the cache -----

  function Rank(k: Kind): nat {
    match k
    case LocalReq => 0
    case LeaderReq => 1
    case OtherReq => 2
    case UnknownReq => 3
    case FromBadReq => 4
  }

  /** A request that must not stand after the other: better kind, then later time. */
  predicate Precedes(a: Req, b: Req) {
    if a.kind == b.kind then a.time > b.time else Rank(a.kind) < Rank(b.kind)
  }

  ghost predicate Ordered(reqs: Reqs, ids: seq<ReqId>) {
    && (forall i <- ids :: i in reqs)
    && forall i, j :: 0 <= i < j < |ids| ==> !Precedes(reqs[ids[j]], reqs[ids[i]])
  }

  ghost predicate Distinct(ids: seq<ReqId>) {
    forall i, j :: 0 <= i < j < |ids| ==> ids[i] != ids[j]
  }

  /** `delBadReqAndSort` as its callers use it: the cache is sorted in place, and the shortened slice it
      returns is thrown away. */
  method SortCache(reqs: Reqs, ids: seq<ReqId>) returns (sorted: seq<ReqId>)
    requires forall i <- ids :: i in reqs
    ensures multiset(sorted) == multiset(ids) && Ordered(reqs, sorted)
    ensures |sorted| == |ids| && (forall x :: x in sorted <==> x in ids) && (Distinct(ids) ==> Distinct(sorted))
  {
    sorted := [];
    for n := 0 to |ids|
      invariant multiset(sorted) == multiset(ids[..n]) && Ordered(reqs, sorted)
    {
      sorted := PlaceInOrder(reqs, sorted, ids[n]);
      assert ids[..n + 1] == ids[..n] + [ids[n]];
    }
    assert ids[..|ids|] == ids;
    SameElements(ids, sorted);
  }

  lemma {:induction false} SameElements(a: seq<ReqId>, b: seq<ReqId>)
    requires multiset(a) == multiset(b)
    ensures forall x :: x in a <==> x in b
    ensures |a| == |b| && (Distinct(a) ==> Distinct(b))
  {
    assert |a| == |multiset(a)| && |b| == |multiset(b)|;
    forall x ensures x in a <==> x in b {
      assert x in a <==> x in multiset(a);
      assert x in b <==> x in multiset(b);
    }
    if Distinct(a) {
      forall i, j | 0 <= i < j < |b| ensures b[i] != b[j] {
        if b[i] == b[j] {
          Twice(b, i, j);
          Once(a, b[i]);
        }
      }
    }
  }

  lemma {:induction false} Twice(b: seq<ReqId>, i: nat, j: nat)
    requires i < j < |b| && b[i] == b[j]
    ensures multiset(b)[b[i]] >= 2
  {
    assert b == b[..j] + [b[j]] + b[j + 1..];
    assert b[i] in b[..j];
  }

  lemma {:induction false} Once(a: seq<ReqId>, x: ReqId)
    requires Distinct(a)
    ensures multiset(a)[x] <= 1
  {
    if a != [] {
      var n := |a| - 1;
      Once(a[..n], x);
      assert a == a[..n] + [a[n]];
      assert a[n] !in a[..n];
    }
  }

  method PlaceInOrder(reqs: Reqs, ids: seq<ReqId>, x: ReqId) returns (more: seq<ReqId>)
    requires Ordered(reqs, ids) && x in reqs
    ensures multiset(more) == multiset(ids) + multiset{x} && Ordered(reqs, more)
  {
    var i := |ids|;
    while i > 0 && Precedes(reqs[x], reqs[ids[i - 1]])
      invariant 0 <= i <= |ids| && forall j :: i <= j < |ids| ==> Precedes(reqs[x], reqs[ids[j]])
    {
      i := i - 1;
    }
    more := ids[..i] + [x] + ids[i..];
    assert ids == ids[..i] + ids[i..];
    Placed(reqs, ids, x, i);
  }

  lemma {:induction false} Placed(reqs: Reqs, ids: seq<ReqId>, x: ReqId, i: nat)
    requires Ordered(reqs, ids) && x in reqs && i <= |ids|
    requires i > 0 ==> !Precedes(reqs[x], reqs[ids[i - 1]])
    requires forall j :: i <= j < |ids| ==> Precedes(reqs[x], reqs[ids[j]])
    ensures Ordered(reqs, ids[..i] + [x] + ids[i..])
  {
    var more := ids[..i] + [x] + ids[i..];
    forall j | 0 <= j < |ids| ensures j < i ==> !Precedes(reqs[x], reqs[ids[j]])
                              ensures j >= i ==> !Precedes(reqs[ids[j]], reqs[x])
    {
      assert j < i - 1 ==> !Precedes(reqs[ids[i - 1]], reqs[ids[j]]);
    }
    hide Precedes;
    assert forall k :: 0 <= k < |more| ==> more[k] == if k < i then ids[k] else if k == i then x else ids[k - 1];
  }

  // ----- Looking a request up -----

  predicate LeadersRequest(q: Req, leader: Account, turn: Turn) {
    (q.kind == LeaderReq || q.kind == LocalReq) && q.leader == leader && q.turn == turn
  }

  /** `GetLeaderReq`: the first request of the leader in that turn; in an ordered cache a local one comes first. */
  method GetLeaderReq(reqs: Reqs, ids: seq<ReqId>, leader: Account, turn: Turn) returns (r: Option<ReqId>)
    requires forall i <- ids :: i in reqs
    ensures r.Some? <==> leader != NO_ACCOUNT && exists i <- ids :: LeadersRequest(reqs[i], leader, turn)
    ensures r.Some? ==> r.value in ids && LeadersRequest(reqs[r.value], leader, turn)
    ensures r.Some? && Ordered(reqs, ids) && (exists i <- ids :: reqs[i].kind == LocalReq && LeadersRequest(reqs[i], leader, turn))
            ==> reqs[r.value].kind == LocalReq
  {
    if leader == NO_ACCOUNT {
      return None;
    }
    for i := 0 to |ids|
      invariant forall j :: 0 <= j < i ==> !LeadersRequest(reqs[ids[j]], leader, turn)
    {
      var q := reqs[ids[i]];
      if (q.kind == LeaderReq || q.kind == LocalReq) && q.leader == leader && q.turn == turn {
        return Some(ids[i]);
      }
    }
    return None;
  }

  /** `GetLeaderReqByHash`: the first request with that hash. */
  method GetReqByHash(reqs: Reqs, ids: seq<ReqId>, hash: Hash) returns (r: Option<ReqId>)
    requires forall i <- ids :: i in reqs
    ensures r.Some? <==> hash != 0 && exists i <- ids :: reqs[i].hash == hash
    ensures r.Some? ==> r.value in ids && reqs[r.value].hash == hash
  {
    if hash == 0 {
      return None;
    }
    for i := 0 to |ids|
      invariant forall j :: 0 <= j < i ==> reqs[ids[j]].hash != hash
    {
      if reqs[ids[i]].hash == hash {
        return Some(ids[i]);
      }
    }
    return None;
  }

  /** `SetCurTurn`'s filter: requests of earlier turns are dropped, the rest keep their order. */
  method DropEarlier(reqs: Reqs, ids: seq<ReqId>, turn: Turn) returns (kept: seq<ReqId>)
    requires Distinct(ids) && forall i <- ids :: i in reqs
    ensures Distinct(kept) && forall i :: i in kept <==> i in ids && !Earlier(reqs[i].turn, turn)
    ensures Ordered(reqs, ids) ==> Ordered(reqs, kept)
  {
    kept := [];
    for n := 0 to |ids|
      invariant Distinct(kept) && forall i :: i in kept <==> i in ids[..n] && !Earlier(reqs[i].turn, turn)
      invariant Ordered(reqs, ids) ==> Ordered(reqs, kept)
    {
      assert ids[..n + 1] == ids[..n] + [ids[n]];
      assert ids[n] !in ids[..n];
      if Ordered(reqs, ids) {
        forall j | 0 <= j < |kept| ensures !Precedes(reqs[ids[n]], reqs[kept[j]]) {
          assert kept[j] in ids[..n];
        }
      }
      if !Earlier(reqs[ids[n]].turn, turn) {
        kept := kept + [ids[n]];
      }
    }
    assert ids[..|ids|] == ids;
  }

  /** May a request enter the cache: not of a past turn, not known, and its sender not over the limit. */
  ghost predicate Admissible(reqs: Reqs, ids: seq<ReqId>, curTurn: Turn, q: Req)
    requires forall i <- ids :: i in reqs
  {
    && q.from != NO_ACCOUNT && !Earlier(q.turn, curTurn)
    && (forall i <- ids :: !(reqs[i].from == q.from && reqs[i].leader == q.leader && reqs[i].turn == q.turn))
    && CountFrom(reqs, ids, q.from) < FROM_COUNT_LIMIT
  }

  ghost function CountFrom(reqs: Reqs, ids: seq<ReqId>, from: Account): nat
    requires forall i <- ids :: i in reqs
  {
    if ids == [] then 0 else CountFrom(reqs, ids[..|ids| - 1], from) + if reqs[ids[|ids| - 1]].from == from then 1 else 0
  }

  method CheckAdmissible(reqs: Reqs, ids: seq<ReqId>, curTurn: Turn, q: Req) returns (ok: bool)
    requires forall i <- ids :: i in reqs
    ensures ok <==> Admissible(reqs, ids, curTurn, q)
  {
    if q.from == NO_ACCOUNT || Earlier(q.turn, curTurn) {
      return false;
    }
    var fromSize := 0;
    for n := 0 to |ids|
      invariant forall i <- ids[..n] :: !(reqs[i].from == q.from && reqs[i].leader == q.leader && reqs[i].turn == q.turn)
      invariant fromSize == CountFrom(reqs, ids[..n], q.from)
    {
      assert ids[..n + 1][..n] == ids[..n] && ids[..n + 1] == ids[..n] + [ids[n]];
      if reqs[ids[n]].from == q.from && reqs[ids[n]].leader == q.leader && reqs[ids[n]].turn == q.turn {
        return false;
      }
      if reqs[ids[n]].from == q.from {
        fromSize := fromSize + 1;
      }
    }
    assert ids[..|ids|] == ids;
    return fromSize < FROM_COUNT_LIMIT;
  }
}
