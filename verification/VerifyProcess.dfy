/**
  The per-height block verification process. Each method that the outside may call is one atomic
  step under the process lock; any sequence of them may happen. Header, transaction, signature and
  consensus checks are answers that the environment gives.
 */
module VerifyProcess {
  import opened VerifyRequests
  import opened Options

  const IDLE: nat := 0
  const START: nat := 1
  const REQ_VERIFY: nat := 2
  const TXS_VERIFY: nat := 3
  const DPOS_VERIFY: nat := 4
  const END: nat := 5

  datatype Role = NoRole | Validator | Broadcast | Other

  /** The agreed leader, its turn, and when the turn begins and ends. */
  datatype LeaderInfo = LeaderInfo(consensus: bool, leader: Account, turn: Turn, begin: int, end: int)

  const NO_LEADER: LeaderInfo := LeaderInfo(false, NO_ACCOUNT, Turn(0, 0), 0, 0)

  /** The answers of the world outside the process while one step runs. */
  datatype Env = Env(parentKnown: Hash -> bool, versionOk: Hash -> bool, headerOk: Hash -> bool, txsOk: (Hash, seq<nat>) -> bool,
                     dposOk: seq<Vote> -> bool, blockDposOk: Hash -> bool, bcHeaderOk: Hash -> bool,
                     sign: Hash -> Option<nat>, self: Account, early: Hash -> seq<Option<Vote>>,
                     deposit: Account -> Option<Account>)

  // ----- What happened so far, for the record -----

  /** The answers by which a request passed: those met when its header was checked, and those met when its
      transactions were run. */
  datatype Proof = Proof(checked: Env, run: Env)

  ghost predicate HeaderPassed(env: Env, q: Req) {
    env.parentKnown(q.hash) && env.versionOk(q.hash) && env.headerOk(q.hash)
  }

  ghost predicate ProofOk(p: Proof, q: Req) {
    HeaderPassed(p.checked, q) && p.run.txsOk(q.hash, q.txs)
  }

  ghost predicate HeaderMet(headers: map<ReqId, Env>, r: ReqId, q: Req) {
    r in headers && HeaderPassed(headers[r], q)
  }

  ghost predicate Proved(proofs: map<ReqId, Proof>, r: ReqId, q: Req) {
    q.kind == LocalReq || (r in proofs && ProofOk(proofs[r], q))
  }

  /** A vote as it was sent: the request, the leader agreed on at that moment, and why the request passed. */
  datatype Sent = Sent(q: Req, agreed: LeaderInfo, proof: Option<Proof>)

  /** A fetch result or timeout that took effect on a request. */
  datatype Effect = Effect(number: nat, req: ReqId)

  ghost predicate SentOk(s: Sent) {
    && s.agreed.consensus && s.q.leader == s.agreed.leader && s.q.turn == s.agreed.turn
    && (s.q.kind == LocalReq || (s.proof.Some? && ProofOk(s.proof.value, s.q)))
  }

  /** The answers that a vote relies on were met in some step. */
  ghost predicate SentMet(s: Sent, met: seq<Env>) {
    s.proof.Some? ==> s.proof.value.checked in met && s.proof.value.run in met
  }

  ghost predicate AllMet(headers: map<ReqId, Env>, proofs: map<ReqId, Proof>, sent: seq<Sent>, met: seq<Env>) {
    && (forall r <- headers :: headers[r] in met)
    && (forall r <- proofs :: proofs[r].checked in met && proofs[r].run in met)
    && (forall i :: 0 <= i < |sent| ==> SentMet(sent[i], met))
  }

  /** Every effect hit the request its fetch was started for, and no fetch had two. */
  ghost predicate EffectsOk(issued: map<nat, ReqId>, effects: seq<Effect>, last: nat) {
    && (forall n <- issued :: n <= last)
    && (forall i :: 0 <= i < |effects| ==> effects[i].number in issued && issued[effects[i].number] == effects[i].req)
    && (forall i, j :: 0 <= i < j < |effects| ==> effects[i].number != effects[j].number)
  }

  ghost predicate NoEffect(effects: seq<Effect>, n: nat) {
    forall i :: 0 <= i < |effects| ==> effects[i].number != n
  }

  ghost predicate NoRepeat(s: seq<Hash>) {
    forall i, j :: 0 <= i < j < |s| ==> s[i] != s[j]
  }

  /** The requests of a cache that are still to be verified. */
  ghost function Open(reqs: Reqs, ids: seq<ReqId>): set<ReqId> {
    set i | i in ids && i in reqs && reqs[i].result == Processing
  }

  ghost predicate Known(reqs: Reqs, ids: seq<ReqId>) {
    forall i <- ids :: i in reqs
  }

  ghost predicate AllVotesOk(reqs: Reqs) {
    forall r <- reqs :: VotesOk(reqs[r].votes)
  }

  /** One vote offered to a list: a zero or repeated account changes nothing. */
  ghost predicate Counted(votes: seq<Vote>, v: Vote, more: seq<Vote>) {
    more == if v.account == NO_ACCOUNT || (exists i :: 0 <= i < |votes| && votes[i].account == v.account) then votes else votes + [v]
  }

  class Process {
    var role: Role
    var state: nat
    var info: LeaderInfo
    var cur: Option<ReqId>
    var reqs: Reqs
    var cache: seq<ReqId>
    var curTurn: Turn
    var nextId: ReqId
    var txsAcquireSeq: nat
    var processed: seq<Hash>

    ghost var met: seq<Env>
    ghost var headers: map<ReqId, Env>
    ghost var proofs: map<ReqId, Proof>
    ghost var issued: map<nat, ReqId>
    ghost var effects: seq<Effect>
    ghost var sent: seq<Sent>
    ghost var published: seq<Hash>
    ghost var roles: set<Role>

    /** A state above Start has a current request. */
    ghost predicate CurOk()
      reads `state, `cur, `reqs
    {
      state <= END && (cur.Some? ==> cur.value in reqs) && (state > START ==> cur.Some?)
    }

    ghost predicate CacheOk()
      reads `reqs, `cache, `nextId
    {
      Known(reqs, cache) && Distinct(cache) && AllVotesOk(reqs) && forall r <- reqs :: r < nextId
    }

    /** As long as the process was never run as a broadcast node: the request in work is the agreed
        leader's in the agreed turn, one that waits for its transactions has passed the header checks, a request
        counted as verified passed all checks here or was made here, and all votes sent were for such requests. */
    ghost predicate ValidatorOk()
      requires CurOk()
      reads `roles, `reqs, `headers, `proofs, `state, `info, `cur, `sent
    {
      Broadcast !in roles ==>
        && (forall r <- reqs :: reqs[r].result == Success ==> Proved(proofs, r, reqs[r]))
        && (state == TXS_VERIFY ==> reqs[cur.value].result != Success && HeaderMet(headers, cur.value, reqs[cur.value]))
        && (state > START ==> info.consensus && reqs[cur.value].leader == info.leader && reqs[cur.value].turn == info.turn)
        && (forall i :: 0 <= i < |sent| ==> SentOk(sent[i]))
    }

    /** As long as the process was only ever run as a broadcast node: no hash was published twice. */
    ghost predicate BroadcastOk()
      requires CurOk()
      reads `roles, `state, `role, `published, `processed, `reqs, `cur
    {
      roles <= {Broadcast} ==>
        && (state > IDLE ==> role == Broadcast) && state <= TXS_VERIFY
        && published == processed && NoRepeat(published)
        && (state > START ==> reqs[cur.value].hash !in processed)
    }

    /** What holds even while a step runs. */
    ghost predicate Base()
      reads this
    {
      CurOk() && CacheOk() && EffectsOk(issued, effects, txsAcquireSeq) && ValidatorOk() && BroadcastOk()
      && (role != NoRole ==> role in roles) && AllMet(headers, proofs, sent, met)
    }

    /** Whenever the lock is free: a process that waits for transactions waits for the last fetch, which
        was started for its current request and has had no effect yet. */
    ghost predicate Valid()
      reads this
    {
      Base() && (state == TXS_VERIFY ==>
        txsAcquireSeq in issued && issued[txsAcquireSeq] == cur.value && NoEffect(effects, txsAcquireSeq))
    }

    constructor ()
      ensures Valid() && state == IDLE && role == NoRole && sent == [] && published == [] && effects == [] && roles == {} && met == []
    {
      role, state, info, cur := NoRole, IDLE, NO_LEADER, None;
      reqs, cache, curTurn, nextId, txsAcquireSeq, processed := map[], [], Turn(0, 0), 0, 0, [];
      met, headers, proofs, issued, effects, sent, published, roles := [], map[], map[], map[], [], [], [], {};
    }

    // ----- Finishing a request as a validator -----

    method FinishedProcess()
      requires Valid() && state == DPOS_VERIFY
      modifies `state
      ensures Valid()
      ensures state == if reqs[cur.value].result in {Processing, StateFailed} then DPOS_VERIFY else END
    {
      var result := reqs[cur.value].result;
      if result == Processing {
        return;
      }
      if result == StateFailed {
        return;
      }
      state := END;
    }

    method ProcessDPOSOnceLocked(env: Env)
      requires Valid()
      modifies `state, `reqs
      ensures Valid()
      ensures if old(state == DPOS_VERIFY && !reqs[cur.value].posFinished && env.dposOk(reqs[cur.value].votes))
              then reqs == old(reqs)[cur.value := old(reqs)[cur.value].(posFinished := true)]
                   && state == (if old(reqs)[cur.value].result in {Processing, StateFailed} then DPOS_VERIFY else END)
              else state == old(state) && reqs == old(reqs)
    {
      if state != DPOS_VERIFY {
        return;
      }
      var q := reqs[cur.value];
      if q.posFinished {
        return;
      }
      if !env.dposOk(q.votes) {
        return;
      }
      SetCur(q.(posFinished := true));
      FinishedProcess();
    }

    /** Overwrite the current request's record, keeping what identifies it. */
    method SetCur(q: Req)
      requires Base() && cur.Some? && VotesOk(q.votes)
      requires var o := reqs[cur.value]; q.kind == o.kind && q.leader == o.leader && q.turn == o.turn && q.hash == o.hash
      requires Broadcast !in roles && q.result == Success ==> state != TXS_VERIFY && Proved(proofs, cur.value, q)
      modifies `reqs
      ensures Base() && reqs == old(reqs)[cur.value := q]
    {
      reqs := reqs[cur.value := q];
    }

    ghost method NoteSent()
      requires Base() && state > START
      requires Broadcast !in roles ==> Proved(proofs, cur.value, reqs[cur.value])
      modifies `sent
      ensures Base() && sent == old(sent) + [Sent(reqs[cur.value], info, if cur.value in proofs then Some(proofs[cur.value]) else None)]
    {
      hide VotesOk, EffectsOk, NoEffect, NoRepeat, Distinct, Known, AllVotesOk, ProofOk;
      sent := sent + [Sent(reqs[cur.value], info, if cur.value in proofs then Some(proofs[cur.value]) else None)];
    }

    /** `sendVote`: sign, send, and count the own vote. */
    method SendVote(env: Env)
      requires Base() && state > START
      requires Broadcast !in roles ==> Proved(proofs, cur.value, reqs[cur.value])
      modifies `reqs, `sent
      ensures Base() && reqs == old(reqs)[cur.value := reqs[cur.value]] && reqs[cur.value] == old(reqs)[cur.value].(votes := reqs[cur.value].votes)
      ensures sent == old(sent) + if env.sign(reqs[cur.value].hash).Some? then [Sent(old(reqs)[cur.value], info, if cur.value in proofs then Some(proofs[cur.value]) else None)] else []
      ensures env.sign(reqs[cur.value].hash).Some? && env.self != NO_ACCOUNT ==> exists v <- reqs[cur.value].votes :: v.account == env.self
    {
      hide SentOk, EffectsOk, NoEffect, NoRepeat, Distinct, Known, AllMet;
      var q := reqs[cur.value];
      var sign := env.sign(q.hash);
      if sign.None? {
        return;
      }
      NoteSent();
      var votes := AddVote(q.votes, Vote(env.self, sign.value));
      assert env.self != NO_ACCOUNT ==> exists v <- votes :: v.account == env.self by {
        if env.self != NO_ACCOUNT {
          if votes == q.votes {
            var i :| 0 <= i < |q.votes| && q.votes[i].account == env.self;
            assert q.votes[i] in votes;
          } else {
            assert votes[|votes| - 1].account == env.self;
          }
        }
      }
      SetCur(q.(votes := votes));
    }

    // ----- Verifying one request -----

    /** The requests still to be verified, other than the one in work: what every round of the broadcast cycle shrinks. */
    ghost function Rest(): set<ReqId>
      reads this
    {
      Open(reqs, cache) - if cur.Some? then {cur.value} else {}
    }

    /** May the current request be counted as verified? */
    ghost predicate MayPass()
      reads this
    {
      cur.Some? && cur.value in reqs && (Broadcast !in roles ==> Proved(proofs, cur.value, reqs[cur.value]))
    }

    /** The current request has its result and stands in the consensus phase, and a vote for it was sent
        exactly if it passed and could be signed. */
    ghost predicate Voted(reqs0: Reqs, cur0: Option<ReqId>, sent0: seq<Sent>, lv: Result, env: Env)
      reads this
    {
      && state >= DPOS_VERIFY && cur == cur0 && cur.Some? && cur.value in reqs && cur.value in reqs0 && reqs[cur.value].result == lv
      && var q := reqs0[cur.value];
         && |sent| == |sent0| + (if lv == Success && env.sign(q.hash).Some? then 1 else 0) && sent0 <= sent
         && (|sent| > |sent0| ==> sent[|sent0|].q == q && sent[|sent0|].agreed == info)
    }

    /** The broadcast cycle went as far as it can: it waits for transactions, has published a block, or has
        no request left to verify. */
    ghost predicate Cycled(published0: seq<Hash>)
      reads this
    {
      && published0 <= published
      && (state == TXS_VERIFY || (state == START && (|published| == |published0| + 1 || Open(reqs, cache) == {})))
    }

    /** `startDPOSVerify`: a broadcast node is done with the request; any other node votes if the request passed. */
    method StartDPOSVerify(lv: Result, env: Env)
      requires Base() && START < state && lv != Processing && (lv == Success ==> MayPass()) && env in met
      requires state < DPOS_VERIFY || Valid()
      modifies `state, `cur, `reqs, `txsAcquireSeq, `processed, `headers, `proofs, `issued, `sent, `published
      ensures Valid()
      ensures old(role != Broadcast && state < DPOS_VERIFY) ==> Voted(old(reqs), old(cur), old(sent), lv, env)
      ensures role == Broadcast && old(state) < DPOS_VERIFY ==> Cycled(old(published))
      decreases Rest(), 2
    {
      hide VotesOk, SentOk, EffectsOk, NoEffect, NoRepeat, Distinct, Known;
      if state >= DPOS_VERIFY {
        return;
      }
      if role == Broadcast {
        BcFinishedProcess(lv, env);
        return;
      }
      VoteOnCur(lv, env);
    }

    /** The validator's part of `startDPOSVerify`. */
    method VoteOnCur(lv: Result, env: Env)
      requires Base() && START < state < DPOS_VERIFY && role != Broadcast && lv != Processing && (lv == Success ==> MayPass())
      modifies `state, `reqs, `sent, `published
      ensures Valid() && Voted(old(reqs), old(cur), old(sent), lv, env)
    {
      hide VotesOk, EffectsOk, NoEffect, CacheOk, ValidatorOk, BroadcastOk;
      if lv == Success {
        SendVote(env);
      }
      EnterDPOS(lv, env);
      ProcessDPOSOnceLocked(env);
    }

    /** The result is recorded, early votes are added, and the consensus phase begins. */
    method EnterDPOS(lv: Result, env: Env)
      requires Base() && START < state < DPOS_VERIFY && role != Broadcast && lv != Processing && (lv == Success ==> MayPass())
      modifies `state, `reqs, `published
      ensures Valid() && state == DPOS_VERIFY && reqs[cur.value].result == lv
      ensures published == old(published) + if lv == Success then [old(reqs[cur.value].hash)] else []
    {
      hide VotesOk, SentOk, EffectsOk, NoEffect, NoRepeat, Distinct, AllMet;
      var q := reqs[cur.value];
      var votes := AddVotes(q.votes, env.early(q.hash));
      if lv == Success {
        published := published + [q.hash];
      }
      reqs := reqs[cur.value := q.(result := lv, votes := votes)];
      state := DPOS_VERIFY;
    }

    ghost method NoteProof(env: Env)
      requires Base() && state == TXS_VERIFY && env in met && env.txsOk(reqs[cur.value].hash, reqs[cur.value].txs)
      modifies `proofs
      ensures Base() && MayPass()
    {
      hide VotesOk, SentOk, EffectsOk, NoEffect, NoRepeat, Distinct, Known, AllVotesOk, HeaderPassed;
      if cur.value in headers {
        proofs := proofs[cur.value := Proof(headers[cur.value], env)];
      }
    }

    /** `verifyTxsAndState`. */
    method VerifyTxsAndState(env: Env)
      requires Base() && state == TXS_VERIFY && env in met
      modifies `state, `cur, `reqs, `txsAcquireSeq, `processed, `headers, `proofs, `issued, `sent, `published
      ensures Valid()
      ensures role != Broadcast ==> Voted(old(reqs), old(cur), old(sent), if env.txsOk(old(reqs[cur.value].hash), old(reqs[cur.value].txs)) then Success else StateFailed, env)
      ensures role == Broadcast ==> Cycled(old(published))
      decreases Rest(), 3
    {
      hide VotesOk, SentOk, EffectsOk, NoEffect, NoRepeat, Distinct, Known, AllVotesOk, AllMet, Proved, HeaderMet;
      if !env.txsOk(reqs[cur.value].hash, reqs[cur.value].txs) {
        StartDPOSVerify(StateFailed, env);
        return;
      }
      NoteProof(env);
      StartDPOSVerify(Success, env);
    }

    /** `startTxsVerify`: start a numbered fetch unless all transactions are here. */
    method StartTxsVerify(env: Env)
      requires Base() && state == REQ_VERIFY && env in met
      requires Broadcast !in roles ==> reqs[cur.value].result != Success && HeaderMet(headers, cur.value, reqs[cur.value])
      modifies `state, `cur, `reqs, `txsAcquireSeq, `processed, `headers, `proofs, `issued, `sent, `published
      ensures Valid()
      ensures role != Broadcast ==> cur == old(cur) && state >= TXS_VERIFY
      ensures role == Broadcast ==> Cycled(old(published))
      decreases Rest(), 4
    {
      hide VotesOk, SentOk, NoRepeat, Distinct, Known, AllVotesOk, AllMet, Proved, HeaderMet;
      state := TXS_VERIFY;
      var q := reqs[cur.value];
      if q.txCount == 0 || q.txCount == |q.txs| {
        VerifyTxsAndState(env);
      } else {
        txsAcquireSeq := txsAcquireSeq + 1;
        issued := issued[txsAcquireSeq := cur.value];
      }
    }

    // ----- The broadcast cycle -----

    /** `startReqVerifyBC`: take the first request that is still to be verified, is not published yet, and has consensus. */
    method StartReqVerifyBC(env: Env)
      requires Valid() && role == Broadcast && env in met
      modifies `state, `cur, `reqs, `txsAcquireSeq, `processed, `headers, `proofs, `issued, `sent, `published
      ensures Valid()
      ensures old(state) == START ==> Cycled(old(published))
      decreases Open(reqs, cache), 0
    {
      hide VotesOk, SentOk, EffectsOk, NoEffect, CacheOk, ValidatorOk, BroadcastOk;
      if state != START {
        return;
      }
      var r := FirstOpen(env);
      if r.Some? {
        Take(r.value);
        BcProcessReqVerify(env);
      }
    }

    /** The first request of the cache that is to be worked on; those before it get their results. */
    method FirstOpen(env: Env) returns (r: Option<ReqId>)
      requires Valid() && role == Broadcast && state == START
      modifies `reqs
      ensures Valid() && Open(reqs, cache) <= old(Open(reqs, cache))
      ensures r.Some? ==> r.value in cache && r.value in reqs && reqs[r.value].hash !in processed && r.value in Open(reqs, cache)
      ensures r.None? ==> Known(reqs, cache) && forall i <- cache :: reqs[i].result != Processing
    {
      assert Known(reqs, cache);
      hide VotesOk, SentOk, EffectsOk, NoEffect, CacheOk, ValidatorOk, BroadcastOk;
      for i := 0 to |cache|
        invariant Valid() && Known(reqs, cache) && Open(reqs, cache) <= old(Open(reqs, cache))
        invariant forall j :: 0 <= j < i ==> reqs[cache[j]].result != Processing
      {
        var take := Examine(cache[i], env);
        if take {
          return Some(cache[i]);
        }
      }
      return None;
    }

    /** A request of the cache gets its result without being worked on. */
    method Mark(r: ReqId, result: Result)
      requires Valid() && role == Broadcast && state == START && r in cache
      modifies `reqs
      ensures Valid() && r in old(reqs) && reqs == old(reqs)[r := old(reqs)[r].(result := result)]
    {
      hide VotesOk, SentOk, EffectsOk, NoEffect, NoRepeat, Distinct;
      reqs := reqs[r := reqs[r].(result := result)];
    }

    /** Is a request of the cache to be worked on? If not it gets its result here. */
    method Examine(r: ReqId, env: Env) returns (take: bool)
      requires Valid() && role == Broadcast && state == START && r in cache
      modifies `reqs
      ensures Valid() && r in old(reqs) && r in reqs && reqs == old(reqs)[r := reqs[r]]
      ensures take <==> old(reqs)[r].result == Processing && old(reqs)[r].hash !in processed && env.blockDposOk(old(reqs)[r].hash)
      ensures if take then reqs[r] == old(reqs)[r] else reqs[r].result != Processing
    {
      assert r in reqs;
      hide VotesOk, SentOk, EffectsOk, NoEffect, CacheOk, ValidatorOk, BroadcastOk;
      var q := reqs[r];
      if q.result != Processing {
        return false;
      }
      if q.hash in processed {
        Mark(r, Success);
        return false;
      }
      if !env.blockDposOk(q.hash) {
        Mark(r, StateFailed);
        return false;
      }
      return true;
    }

    method Take(r: ReqId)
      requires Valid() && role == Broadcast && state == START && r in cache && (r in reqs ==> reqs[r].hash !in processed)
      modifies `cur, `state
      ensures Base() && state == REQ_VERIFY && cur == Some(r)
    {
      hide VotesOk, SentOk, EffectsOk, NoEffect, NoRepeat, Distinct, AllVotesOk;
      cur := Some(r);
      state := REQ_VERIFY;
    }

    /** `bcProcessReqVerify`. */
    method BcProcessReqVerify(env: Env)
      requires Base() && state == REQ_VERIFY && role == Broadcast && env in met
      modifies `state, `cur, `reqs, `txsAcquireSeq, `processed, `headers, `proofs, `issued, `sent, `published
      ensures Valid() && Cycled(old(published))
      decreases Rest(), 5
    {
      if !env.bcHeaderOk(reqs[cur.value].hash) {
        BcFinishedProcess(StateFailed, env);
        return;
      }
      StartTxsVerify(env);
    }

    /** `bcFinishedProcess`: publish a request that passed; otherwise go on with the next. */
    method BcFinishedProcess(lv: Result, env: Env)
      requires Base() && START < state < DPOS_VERIFY && role == Broadcast && lv != Processing && env in met
      modifies `state, `cur, `reqs, `txsAcquireSeq, `processed, `headers, `proofs, `issued, `sent, `published
      ensures Valid() && Cycled(old(published))
      ensures lv == Success ==> published == old(published) + [old(reqs[cur.value].hash)] && state == START
      decreases Rest(), 1
    {
      hide VotesOk, SentOk, EffectsOk, NoEffect, CacheOk, ValidatorOk, BroadcastOk, AllMet;
      MarkCur(lv);
      if lv != Success {
        DropCur();
        StartReqVerifyBC(env);
        return;
      }
      Publish();
    }

    /** The request in work gets its result. */
    method MarkCur(lv: Result)
      requires Base() && START < state < DPOS_VERIFY && role == Broadcast && lv != Processing
      modifies `reqs
      ensures Base() && Open(reqs, cache) <= old(Rest()) && reqs == old(reqs)[cur.value := old(reqs[cur.value]).(result := lv)]
    {
      assert Broadcast in roles && VotesOk(reqs[cur.value].votes);
      hide VotesOk, SentOk, EffectsOk, NoEffect, CacheOk, ValidatorOk, BroadcastOk, AllMet, Proved;
      var q := reqs[cur.value];
      SetCur(q.(result := lv));
    }

    method DropCur()
      requires Base() && role == Broadcast && state > START
      modifies `cur, `state
      ensures Valid() && state == START
    {
      hide VotesOk, SentOk, EffectsOk, NoEffect, NoRepeat, CacheOk, AllMet, Proved;
      cur := None;
      state := START;
    }

    /** The block in work is passed on, and noted as processed. */
    method Publish()
      requires Base() && role == Broadcast && START < state < DPOS_VERIFY
      modifies `published, `processed, `state
      ensures Valid() && state == START && published == old(published) + [reqs[cur.value].hash]
    {
      hide VotesOk, SentOk, EffectsOk, NoEffect, CacheOk, AllMet, Proved;
      published := published + [reqs[cur.value].hash];
      processed := processed + [reqs[cur.value].hash];
      state := START;
    }

    // ----- The validator's way -----

    /** `startReqVerifyCommon`. */
    method StartReqVerifyCommon(env: Env)
      requires Valid() && role == Validator && env in met
      modifies `state, `cur, `reqs, `txsAcquireSeq, `processed, `headers, `proofs, `issued, `sent, `published
      ensures Valid()
      ensures if old(state == START && info.consensus && info.leader != NO_ACCOUNT && exists i <- cache :: LeadersRequest(reqs[i], info.leader, info.turn))
              then state > REQ_VERIFY && cur.Some? && cur.value in cache && LeadersRequest(old(reqs)[cur.value], info.leader, info.turn)
              else unchanged(this)
    {
      assert Known(reqs, cache);
      hide VotesOk, SentOk, EffectsOk, NoEffect, NoRepeat, CacheOk, AllMet, Proved, HeaderMet;
      if state != START {
        return;
      }
      if !info.consensus {
        return;
      }
      var r := GetLeaderReq(reqs, cache, info.leader, info.turn);
      if r.None? {
        return;
      }
      cur := r;
      state := REQ_VERIFY;
      ProcessReqOnce(env);
    }

    /** `processReqOnce`: a local request passes, a known result stands, and any other request is checked
        step by step. */
    method ProcessReqOnce(env: Env)
      requires Valid() && state == REQ_VERIFY && role == Validator && env in met
      modifies `state, `cur, `reqs, `txsAcquireSeq, `processed, `headers, `proofs, `issued, `sent, `published
      ensures Valid() && state > REQ_VERIFY && cur == old(cur)
      ensures old(reqs[cur.value].kind) == LocalReq ==> Voted(old(reqs), old(cur), old(sent), Success, env)
    {
      hide VotesOk, SentOk, EffectsOk, NoEffect, NoRepeat, Distinct, Known, AllVotesOk;
      var q := reqs[cur.value];
      if q.kind == LocalReq {
        StartDPOSVerify(Success, env);
      } else if q.result != Processing && q.result != DBRecovery {
        StartDPOSVerify(q.result, env);
      } else if q.result != DBRecovery && (q.time < info.begin || q.time > info.end) {
        StartDPOSVerify(StateFailed, env);
      } else if !env.parentKnown(q.hash) {
        StartDPOSVerify(StateFailed, env);
      } else if !env.versionOk(q.hash) {
        StartDPOSVerify(StateFailed, env);
      } else if !env.headerOk(q.hash) {
        StartDPOSVerify(CanRecover, env);
      } else {
        headers := headers[cur.value := env];
        StartTxsVerify(env);
      }
    }

    /** Start over in the role the process runs in. */
    method Restart(env: Env)
      requires Valid() && env in met
      modifies `state, `cur, `reqs, `txsAcquireSeq, `processed, `headers, `proofs, `issued, `sent, `published
      ensures Valid()
    {
      if role == Broadcast {
        StartReqVerifyBC(env);
      } else if role == Validator {
        StartReqVerifyCommon(env);
      }
    }

    // ----- The steps -----

    method StartRunning(asRole: Role, env: Env)
      requires Valid() && env in met
      modifies `role, `state, `info, `cur, `reqs, `cache, `curTurn, `nextId, `txsAcquireSeq, `processed, `headers, `proofs, `issued, `effects, `sent, `published, `roles
      ensures Valid()
    {
      hide VotesOk, SentOk, EffectsOk, NoEffect, NoRepeat, Distinct, Known, AllVotesOk, AllMet, Proved, HeaderMet;
      role, roles := asRole, roles + {asRole};
      if state == IDLE {
        state := START;
      }
      CheckUnknownReq(env);
      Restart(env);
    }

    method Close()
      requires Valid()
      modifies `role, `state, `info, `cur, `reqs, `cache, `curTurn, `nextId, `txsAcquireSeq, `processed, `headers, `proofs, `issued, `effects, `sent, `published, `roles
      ensures Valid() && state == IDLE && cur == None
    {
      state, cur := IDLE, None;
    }

    /** `SetLeaderInfo`: without consensus everything stops; a new leader or turn drops the current request. */
    method SetLeaderInfo(now: LeaderInfo, env: Env)
      requires Valid() && env in met
      modifies `role, `state, `info, `cur, `reqs, `cache, `curTurn, `nextId, `txsAcquireSeq, `processed, `headers, `proofs, `issued, `effects, `sent, `published, `roles
      ensures Valid()
      ensures !now.consensus ==> info == NO_LEADER && cur == None && state <= START
      ensures now.consensus ==> info.leader == now.leader && info.turn == now.turn && info.consensus
    {
      hide VotesOk, SentOk, EffectsOk, NoEffect, NoRepeat, CacheOk, AllMet, Proved, HeaderMet;
      if !now.consensus {
        StopProcess();
        return;
      }
      if info.leader == now.leader && info.turn == now.turn {
        info := info.(consensus := true);
        return;
      }
      ChangeLeader(now);
      if state > IDLE && role == Validator {
        StartReqVerifyCommon(env);
      }
    }

    /** A new leader or turn: earlier requests are dropped, and with them the one in work. */
    method ChangeLeader(now: LeaderInfo)
      requires Valid()
      modifies `info, `cur, `cache, `curTurn, `state
      ensures Valid() && info == now && cur == None && state == if old(state) > IDLE then START else IDLE
    {
      hide VotesOk, SentOk, EffectsOk, NoEffect, NoRepeat, CacheOk, AllMet, Proved, HeaderMet;
      info, cur := now, None;
      SetCurTurn(now.turn);
      if state > IDLE {
        state := START;
      }
    }

    method StopProcess()
      requires Valid()
      modifies `info, `cur, `state
      ensures Valid() && info == NO_LEADER && cur == None && state == if old(state) > IDLE then START else IDLE
    {
      hide VotesOk, SentOk, EffectsOk, NoEffect, NoRepeat, Distinct, Known, AllVotesOk;
      info, cur := NO_LEADER, None;
      if state > IDLE {
        state := START;
      }
    }

    /** `reqCache.SetCurTurn`. */
    method SetCurTurn(turn: Turn)
      requires CacheOk()
      modifies `cache, `curTurn
      ensures CacheOk() && forall i :: i in cache ==> i in old(cache)
      ensures if Earlier(old(curTurn), turn) then curTurn == turn && forall i <- old(cache) :: i in cache <==> !Earlier(reqs[i].turn, turn)
              else cache == old(cache) && curTurn == old(curTurn)
    {
      hide VotesOk;
      if !Earlier(curTurn, turn) {
        return;
      }
      curTurn := turn;
      cache := DropEarlier(reqs, cache, turn);
    }

    /** The kind of a request, once its parent block is known; none if its sender has no deposit account. */
    static function KindOf(q: Req, env: Env): Option<Kind> {
      if !env.parentKnown(q.hash) then Some(UnknownReq)
      else
        match env.deposit(q.from)
        case None => None
        case Some(a) => Some(if a == q.leader then LeaderReq else OtherReq)
    }

    method SetKind(r: ReqId, kind: Kind)
      requires Valid() && r in reqs && reqs[r].kind == UnknownReq
      modifies `reqs
      ensures Valid() && reqs == old(reqs)[r := old(reqs)[r].(kind := kind)]
    {
      hide VotesOk, SentOk, EffectsOk, NoEffect, NoRepeat, Distinct, AllMet;
      reqs := reqs[r := reqs[r].(kind := kind)];
    }

    /** `CheckUnknownReq`: requests whose parent block is known by now get their kind. */
    method CheckUnknownReq(env: Env)
      requires Valid()
      modifies `reqs, `cache
      ensures Valid()
    {
      hide VotesOk, SentOk, EffectsOk, NoEffect, NoRepeat, AllMet, Proved, HeaderMet;
      var update := false;
      for i := 0 to |cache|
        invariant Valid() && cache == old(cache)
      {
        var q := reqs[cache[i]];
        if q.kind == UnknownReq && env.parentKnown(q.hash) {
          var kind := KindOf(q, env);
          SetKind(cache[i], if kind.None? then FromBadReq else kind.value);
          update := true;
        }
      }
      if update {
        cache := SortCache(reqs, cache);
      }
    }

    /** `reqCache.AddReq`: a full cache loses its last entry. */
    method CacheReq(q: Req, recovered: bool, env: Env) returns (r: Option<ReqId>)
      requires Valid() && q.result == Processing && q.votes == []
      modifies `reqs, `cache, `nextId
      ensures Valid() && (r.Some? <==> Admissible(old(reqs), old(cache), curTurn, q) && KindOf(q, env).Some?)
      ensures r.Some? ==> r.value in reqs && r.value !in old(reqs) && r.value in cache && |cache| <= |old(cache)| + 1
      ensures r.Some? ==> reqs[r.value] == if recovered then q.(kind := LeaderReq, result := DBRecovery) else q.(kind := KindOf(q, env).value)
      ensures forall i <- old(reqs) :: i in reqs && reqs[i] == old(reqs)[i]
      ensures r.None? ==> unchanged(this)
    {
      var ok := CheckAdmissible(reqs, cache, curTurn, q);
      if !ok {
        return None;
      }
      var kind := KindOf(q, env);
      if kind.None? {
        return None;
      }
      var q1 := if recovered then q.(kind := LeaderReq, result := DBRecovery) else q.(kind := kind.value);
      Store(q1, if |cache| >= REQ_COUNT_MAX then cache[..REQ_COUNT_MAX - 1] else cache);
      r := Some(nextId - 1);
    }

    /** A new record enters the cache. */
    method Store(q: Req, kept: seq<ReqId>)
      requires Valid() && q.votes == [] && q.result != Success && kept <= cache
      modifies `reqs, `cache, `nextId
      ensures Valid() && nextId == old(nextId) + 1 && old(nextId) !in old(reqs) && reqs == old(reqs)[old(nextId) := q] && old(nextId) in cache
      ensures |cache| == |kept| + 1
    {
      hide SentOk, EffectsOk, NoEffect, NoRepeat, ValidatorOk, BroadcastOk;
      var id := Alloc(q);
      var ids := kept + [id];
      assert Distinct(ids) && Known(reqs, ids);
      cache := SortCache(reqs, ids);
      assert id in ids;
    }

    method Alloc(q: Req) returns (id: ReqId)
      requires Valid() && q.votes == [] && q.result != Success
      modifies `reqs, `nextId
      ensures Valid() && id == old(nextId) && nextId == id + 1 && id !in old(reqs) && id !in cache && reqs == old(reqs)[id := q]
    {
      assert VotesOk(q.votes);
      hide VotesOk, SentOk, EffectsOk, NoEffect, NoRepeat, Distinct;
      id := nextId;
      reqs, nextId := reqs[id := q], nextId + 1;
    }

    method AddReq(q: Req, env: Env)
      requires Valid() && q.result == Processing && q.votes == [] && env in met
      modifies `role, `state, `info, `cur, `reqs, `cache, `curTurn, `nextId, `txsAcquireSeq, `processed, `headers, `proofs, `issued, `effects, `sent, `published, `roles
      ensures Valid()
      ensures !(Admissible(old(reqs), old(cache), old(curTurn), q) && KindOf(q, env).Some?) ==> unchanged(this)
    {
      var r := CacheReq(q, false, env);
      if r.Some? {
        Restart(env);
      }
    }

    /** `AddVerifiedBlock`: a block verified before a restart comes back with its transactions. */
    method AddVerifiedBlock(q: Req, txs: seq<nat>, env: Env)
      requires Valid() && q.result == Processing && q.votes == []
      modifies `role, `state, `info, `cur, `reqs, `cache, `curTurn, `nextId, `txsAcquireSeq, `processed, `headers, `proofs, `issued, `effects, `sent, `published, `roles
      ensures Valid()
    {
      var r := CacheReq(q, true, env);
      if r.Some? {
        SetTxs(r.value, txs);
      }
    }

    method SetTxs(r: ReqId, txs: seq<nat>)
      requires Valid() && r in reqs && reqs[r].result != Success
      modifies `reqs
      ensures Valid() && reqs == old(reqs)[r := old(reqs)[r].(txs := txs)]
    {
      hide VotesOk, SentOk, EffectsOk, NoEffect, NoRepeat, Distinct;
      reqs := reqs[r := reqs[r].(txs := txs)];
    }

    method AddLocalReq(q: Req, env: Env)
      requires Valid() && q.kind == LocalReq && q.result == Processing && q.votes == [] && env in met
      modifies `role, `state, `info, `cur, `reqs, `cache, `curTurn, `nextId, `txsAcquireSeq, `processed, `headers, `proofs, `issued, `effects, `sent, `published, `roles
      ensures Valid()
    {
      var id := nextId;
      Store(q, cache);
      var votes := AddVotes([], env.early(q.hash));
      SetVotes(id, votes);
      Restart(env);
    }

    method SetVotes(r: ReqId, votes: seq<Vote>)
      requires Valid() && r in reqs && VotesOk(votes)
      modifies `reqs
      ensures Valid() && reqs == old(reqs)[r := old(reqs)[r].(votes := votes)]
    {
      hide VotesOk, SentOk, EffectsOk, NoEffect, NoRepeat, Distinct;
      reqs := reqs[r := reqs[r].(votes := votes)];
    }

    /** `HandleVote`; `checked` is the vote if its signature checks out. */
    method HandleVote(signHash: Hash, from: Account, checked: Option<Vote>, env: Env)
      requires Valid()
      modifies `role, `state, `info, `cur, `reqs, `cache, `curTurn, `nextId, `txsAcquireSeq, `processed, `headers, `proofs, `issued, `effects, `sent, `published, `roles
      ensures Valid()
      ensures var counts := signHash != 0 && from != NO_ACCOUNT && checked.Some?
                            && old(cur.Some? && reqs[cur.value].hash == signHash && forall v <- reqs[cur.value].votes :: v.account != from);
              if counts then cur == old(cur) && cur.value in reqs && Counted(old(reqs[cur.value].votes), checked.value, reqs[cur.value].votes)
              else unchanged(this)
    {
      if signHash == 0 || from == NO_ACCOUNT {
        return;
      }
      if cur.None? || reqs[cur.value].hash != signHash {
        return;
      }
      var votes := reqs[cur.value].votes;
      for i := 0 to |votes|
        invariant forall j :: 0 <= j < i ==> votes[j].account != from
      {
        if votes[i].account == from {
          return;
        }
      }
      if checked.None? {
        return;
      }
      assert VotesOk(votes);
      var more := AddVote(votes, checked.value);
      SetVotes(cur.value, more);
      ProcessDPOSOnceLocked(env);
    }

    method ProcessDPOSOnce(env: Env)
      requires Valid()
      modifies `role, `state, `info, `cur, `reqs, `cache, `curTurn, `nextId, `txsAcquireSeq, `processed, `headers, `proofs, `issued, `effects, `sent, `published, `roles
      ensures Valid()
    {
      ProcessDPOSOnceLocked(env);
    }

    /** `ProcessRecoveryMsg`: the votes of a known request are replaced by those of the recovered header. */
    method ProcessRecoveryMsg(hash: Hash, signs: seq<Option<Vote>>, env: Env)
      requires Valid() && env in met
      modifies `role, `state, `info, `cur, `reqs, `cache, `curTurn, `nextId, `txsAcquireSeq, `processed, `headers, `proofs, `issued, `effects, `sent, `published, `roles
      ensures Valid()
    {
      var r := GetReqByHash(reqs, cache, hash);
      if r.None? {
        return;
      }
      var votes := AddVotes([], signs);
      SetVotes(r.value, votes);
      Restart(env);
    }

    /** `ProcessTxsAcquireTimeOut`. */
    method TxsAcquireTimeOut(number: nat, env: Env)
      requires Valid() && env in met
      modifies `role, `state, `info, `cur, `reqs, `cache, `curTurn, `nextId, `txsAcquireSeq, `processed, `headers, `proofs, `issued, `effects, `sent, `published, `roles
      ensures Valid()
      ensures if old(state == TXS_VERIFY && txsAcquireSeq == number) then effects == old(effects) + [Effect(number, old(issued[number]))] else unchanged(this)
    {
      if number != txsAcquireSeq {
        return;
      }
      if state != TXS_VERIFY {
        return;
      }
      TakeEffect(number);
      StartDPOSVerify(CanRecover, env);
    }

    /** `StartVerifyTxsAndState`: a fetch delivers, or fails. */
    method TxsAcquired(number: nat, failed: bool, txs: seq<nat>, env: Env)
      requires Valid() && env in met
      modifies `role, `state, `info, `cur, `reqs, `cache, `curTurn, `nextId, `txsAcquireSeq, `processed, `headers, `proofs, `issued, `effects, `sent, `published, `roles
      ensures Valid()
      ensures if old(state == TXS_VERIFY && txsAcquireSeq == number) then effects == old(effects) + [Effect(number, old(issued[number]))] else unchanged(this)
    {
      if state != TXS_VERIFY {
        return;
      }
      if number != txsAcquireSeq {
        return;
      }
      TakeEffect(number);
      if failed {
        StartDPOSVerify(CanRecover, env);
        return;
      }
      var q := reqs[cur.value];
      SetCur(q.(txs := q.txs + txs));
      VerifyTxsAndState(env);
    }

    ghost method TakeEffect(number: nat)
      requires Valid() && state == TXS_VERIFY && number == txsAcquireSeq
      modifies `effects
      ensures Base() && effects == old(effects) + [Effect(number, cur.value)] && issued[number] == cur.value
    {
      hide VotesOk, SentOk, NoRepeat, Distinct, AllVotesOk, Known;
      effects := effects + [Effect(number, cur.value)];
    }

    ghost method Meet(env: Env)
      requires Valid()
      modifies `met
      ensures Valid() && met == old(met) + [env]
    {
      hide VotesOk, SentOk, EffectsOk, NoEffect, NoRepeat, Distinct, AllVotesOk, Known, ProofOk, HeaderPassed;
      met := met + [env];
    }

    method Perform(e: Event, env: Env)
      requires Valid() && Fitting(e)
      modifies this
      ensures Valid() && met == old(met) + [env]
    {
      Meet(env);
      match e
      case Run(asRole) => StartRunning(asRole, env);
      case Stop => Close();
      case Leader(now) => SetLeaderInfo(now, env);
      case Recovery(hash, signs) => ProcessRecoveryMsg(hash, signs, env);
      case Recovered(q, txs) => AddVerifiedBlock(q, txs, env);
      case Request(q) => AddReq(q, env);
      case LocalRequest(q) => AddLocalReq(q, env);
      case VoteMsg(hash, from, checked) => HandleVote(hash, from, checked, env);
      case Consensus => ProcessDPOSOnce(env);
      case TimedOut(number) => TxsAcquireTimeOut(number, env);
      case Fetched(number, failed, txs) => TxsAcquired(number, failed, txs, env);
    }

    /** Any sequence of steps from a new process on, each with its own outside world. */
    method Execute(events: seq<Event>, envs: seq<Env>)
      requires Valid() && |envs| == |events| && forall e <- events :: Fitting(e)
      modifies this
      ensures Valid()
      ensures state > START ==> cur.Some?
      ensures forall i :: 0 <= i < |effects| ==> effects[i].number in issued && issued[effects[i].number] == effects[i].req
      ensures forall i, j :: 0 <= i < j < |effects| ==> effects[i].number != effects[j].number
      ensures met == old(met) + envs
      ensures Broadcast !in roles ==> forall i :: 0 <= i < |sent| ==> SentOk(sent[i]) && SentMet(sent[i], met)
      ensures roles <= {Broadcast} ==> NoRepeat(published)
      ensures forall r <- reqs :: VotesOk(reqs[r].votes)
    {
      for i := 0 to |events|
        invariant Valid() && met == old(met) + envs[..i]
      {
        Perform(events[i], envs[i]);
      }
    }
  }

  /** What can happen to a process. Requests arrive without results or votes. */
  datatype Event =
    | Run(asRole: Role)
    | Stop
    | Leader(now: LeaderInfo)
    | Recovery(hash: Hash, signs: seq<Option<Vote>>)
    | Recovered(q: Req, txs: seq<nat>)
    | Request(q: Req)
    | LocalRequest(q: Req)
    | VoteMsg(hash: Hash, from: Account, checked: Option<Vote>)
    | Consensus
    | TimedOut(number: nat)
    | Fetched(number: nat, failed: bool, txs: seq<nat>)

  ghost predicate Fitting(e: Event) {
    && (e.Recovered? || e.Request? || e.LocalRequest? ==> e.q.result == Processing && e.q.votes == [])
    && (e.LocalRequest? ==> e.q.kind == LocalReq)
  }
}
