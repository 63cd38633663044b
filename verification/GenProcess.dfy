/**
  The block generation process as the program runs it: one object whose methods update its fields.
  Every method is proved to do what the step function of `GenSteps` says, so that the object is at any
  time what its history of events and answers makes of it.
 */
module GenProcess {
  import opened GenSteps
  import opened GenProofs
  import opened GenRuns
  import opened Options

  class Process {
    const number: nat
    var role: Role
    var stage: nat
    var curLeader: Account
    var turn: nat
    var nextLeader: Account
    var interval: Option<Interval>
    var results: map<Account, Header>
    var cache: map<Account, Entry>
    var inserted: seq<Header>
    ghost var given: seq<Header>
    ghost var history: History

    ghost function View(): State
      reads `role, `stage, `curLeader, `turn, `nextLeader, `interval, `results, `cache, `inserted, `given
    {
      State(number, role, stage, curLeader, turn, nextLeader, interval, results, cache, inserted, given)
    }

    ghost predicate Valid()
      reads this
    {
      View() == After(Start(number), history)
    }

    constructor (number: nat)
      ensures View() == Start(number) && history == [] && Valid()
    {
      this.number := number;
      role, stage, curLeader, turn, nextLeader, interval := NoRole, IDLE, NO_ACCOUNT, 0, NO_ACCOUNT, None;
      results, cache, inserted, given, history := map[], map[], [], [], [];
    }

    /** `GetLastBlockData`: the latest block with a time above zero, the first met on a tie. */
    method GetLastBlockData(order: seq<Account>) returns (r: Option<Account>)
      ensures r == Last(cache, order)
      ensures r.None? <==> forall j | 0 <= j < |order| && order[j] in cache :: TimeOf(cache, order[j]) <= 0
      ensures r.Some? ==> exists j :: IsLatest(cache, order, j) && order[j] == r.value
    {
      LastIsLatest(cache, order);
      r := None;
      var lastTime := 0;
      for i := 0 to |order|
        invariant r == Last(cache, order[..i]) && lastTime == if r.Some? then cache[r.value].header.core.time else 0
      {
        assert order[..i + 1][..i] == order[..i];
        if order[i] in cache && cache[order[i]].header.core.time > lastTime {
          r, lastTime := Some(order[i]), cache[order[i]].header.core.time;
        }
      }
      assert order[..|order|] == order;
    }

    method Choose(leader: Account, order: seq<Account>) returns (r: Option<Account>)
      ensures r == Chosen(View(), order, leader)
    {
      if role == Broadcast {
        r := GetLastBlockData(order);
      } else {
        r := if leader in cache then Some(leader) else None;
      }
    }

    /** `insertAndBcBlock`. */
    method InsertAndBcBlock(leader: Account, msg: Option<Header>, env: Env) returns (ok: bool)
      modifies `given
      ensures (View(), ok) == GiveBlock(old(View()), env, leader, msg)
    {
      var who := Choose(leader, env.giveOrder);
      if who.None? || !cache[who.value].ready {
        return false;
      }
      var insertHeader := cache[who.value].header;
      if msg.Some? {
        if msg.value.core != insertHeader.core {
          return false;
        }
        insertHeader := msg.value;
      }
      given := given + [insertHeader];
      ok := env.writeOk(insertHeader);
    }

    /** `processBlockInsert`. */
    method ProcessBlockInsert(leader: Account, env: Env)
      modifies `role, `stage, `curLeader, `turn, `nextLeader, `interval, `results, `cache, `inserted, `given
      ensures View() == InsertOwn(old(View()), env, leader)
    {
      if stage < BLOCK_INSERT || interval.None? {
        return;
      }
      if IsBroadcastNumber(interval.value, number + 1) {
        if role != Broadcast {
          return;
        }
      } else if role != Validator || nextLeader == NO_ACCOUNT || nextLeader != env.self {
        return;
      }
      var ok := InsertAndBcBlock(leader, None, env);
      if ok {
        stage := END;
      }
    }

    /** `pickSatisfyMinerResults`: the first result that passes the tests. */
    method PickSatisfyMinerResults(h: Header, rs: seq<MinerResult>, env: Env) returns (r: Option<MinerResult>)
      ensures r == Pick(h, rs, env)
      ensures r.None? <==> forall j | 0 <= j < |rs| :: !Satisfies(h, rs[j], env)
      ensures r.Some? ==> exists j :: IsFirst(h, rs, env, j) && rs[j] == r.value
    {
      PickIsFirst(h, rs, env);
      for i := 0 to |rs|
        invariant Pick(h, rs[..i], env) == None
      {
        assert rs[..i + 1][..i] == rs[..i];
        if !env.innerPick && env.innerMiner(rs[i].coinbase) {
          continue;
        }
        var x := Header(h.core, rs[i].seal);
        if rs[i].core == h.core && env.dposOk(x) && env.sealOk(x) {
          PickStays(h, rs, i + 1, env);
          return Some(rs[i]);
        }
      }
      assert rs[..|rs|] == rs;
      return None;
    }

    /** `dealMinerResultVerifyCommon`. */
    method DealCommon(leader: Account, env: Env)
      modifies `role, `stage, `curLeader, `turn, `nextLeader, `interval, `results, `cache, `inserted, `given
      ensures View() == VerifyCommon(old(View()), env, leader)
    {
      hide Chosen, InsertOwn, Pick;
      var who := Choose(leader, env.verifyOrder);
      if who.None? {
        return;
      }
      var e := cache[who.value];
      if !e.ready {
        var r := PickSatisfyMinerResults(e.header, env.pool(e.header.core), env);
        if r.None? {
          return;
        }
        var x := Header(e.header.core, r.value.seal);
        cache := cache[who.value := Entry(x, true)];
      }
      stage := BLOCK_INSERT;
      ProcessBlockInsert(curLeader, env);
    }

    /** The loop of `dealMinerResultVerifyBroadcast` up to the first result that passes. */
    method FirstBroadcastResult(env: Env) returns (r: Option<Header>)
      ensures r == PickBroadcast(View(), env, env.resultOrder)
    {
      for i := 0 to |env.resultOrder|
        invariant PickBroadcast(View(), env, env.resultOrder[..i]) == None
      {
        assert env.resultOrder[..i + 1][..i] == env.resultOrder[..i];
        var a := env.resultOrder[i];
        if a in results && env.dposOk(results[a]) && env.txsOk(results[a]) {
          PickBroadcastStays(View(), env, i + 1);
          return Some(results[a]);
        }
      }
      assert env.resultOrder[..|env.resultOrder|] == env.resultOrder;
      return None;
    }

    /** `dealMinerResultVerifyBroadcast`. */
    method DealBroadcast(env: Env)
      modifies `role, `stage, `curLeader, `turn, `nextLeader, `interval, `results, `cache, `inserted, `given
      ensures View() == VerifyBroadcast(old(View()), env)
    {
      hide InsertOwn, PickBroadcast;
      var r := FirstBroadcastResult(env);
      if r.None? {
        return;
      }
      var x := r.value;
      cache := cache[x.core.leader := Entry(x, true)];
      if stage == BLOCK_INSERT - 1 {
        stage := BLOCK_INSERT;
      }
      ProcessBlockInsert(x.core.leader, env);
    }

    /** `processMinerResultVerify`. */
    method ProcessMinerResultVerify(leader: Account, checkStage: bool, env: Env)
      modifies `role, `stage, `curLeader, `turn, `nextLeader, `interval, `results, `cache, `inserted, `given
      ensures View() == VerifyResult(old(View()), env, leader, checkStage)
    {
      hide VerifyBroadcast, VerifyCommon;
      if checkStage && stage != RESULT_VERIFY {
        return;
      }
      if interval.None? {
        return;
      }
      if IsBroadcastNumber(interval.value, number) {
        DealBroadcast(env);
      } else {
        DealCommon(leader, env);
      }
    }

    /** `canBcBlock`. */
    method CanBcBlock() returns (ok: bool)
      ensures ok == CanBroadcast(View())
    {
      match role
      case Broadcast => return true;
      case Validator => return interval.Some? && (IsBroadcastNumber(interval.value, number) || curLeader != NO_ACCOUNT);
      case _ => return false;
    }

    /** `startBcBlock`. */
    method StartBcBlock(env: Env)
      modifies `role, `stage, `curLeader, `turn, `nextLeader, `interval, `results, `cache, `inserted, `given
      ensures View() == BroadcastParent(old(View()), env)
    {
      hide VerifyResult;
      if stage != BLOCK_BROADCAST {
        return;
      }
      var can := CanBcBlock();
      if !can {
        return;
      }
      if env.parentInterval.None? {
        return;
      }
      interval := env.parentInterval;
      stage := HEADER_GEN;
      StartHeaderGen(env);
    }

    /** `startHeaderGen` and `canGenHeader`. */
    method StartHeaderGen(env: Env)
      requires interval.Some?
      modifies `role, `stage, `curLeader, `turn, `nextLeader, `interval, `results, `cache, `inserted, `given
      ensures View() == var s := old(View()); var d := HeaderDuty(s, env);
              if d == Skip || (d == Produce && env.genOk) then VerifyResult(s.(stage := RESULT_VERIFY), env, s.curLeader, true) else s
    {
      hide VerifyResult;
      var bc := IsBroadcastNumber(interval.value, number);
      match role {
        case Broadcast =>
          if bc && !env.genOk {
            return;
          }
        case Validator =>
          if !bc {
            if curLeader == NO_ACCOUNT {
              return;
            }
            if curLeader == env.self && !env.genOk {
              return;
            }
          }
        case _ => return;
      }
      stage := RESULT_VERIFY;
      ProcessMinerResultVerify(curLeader, true, env);
    }

    // ----- The steps -----

    method StartRunning(asRole: Role, i: Interval, env: Env)
      modifies `role, `stage, `curLeader, `turn, `nextLeader, `interval, `results, `cache, `inserted, `given
      ensures View() == Step(old(View()), env, Run(asRole, i))
    {
      hide BroadcastParent;
      role := asRole;
      if interval.None? {
        interval := Some(i);
      }
      if stage == IDLE {
        stage := BLOCK_BROADCAST;
      }
      StartBcBlock(env);
    }

    method Close(env: Env)
      modifies `role, `stage, `curLeader, `turn, `nextLeader, `interval, `results, `cache, `inserted, `given
      ensures View() == Step(old(View()), env, Stop)
    {
      stage, curLeader, turn, nextLeader, interval := IDLE, NO_ACCOUNT, 0, NO_ACCOUNT, None;
    }

    method Reset(env: Env)
      modifies `role, `stage, `curLeader, `turn, `nextLeader, `interval, `results, `cache, `inserted, `given
      ensures View() == Step(old(View()), env, ReInit)
    {
      if stage == IDLE {
        return;
      }
      stage, curLeader, turn, nextLeader := BLOCK_BROADCAST, NO_ACCOUNT, 0, NO_ACCOUNT;
    }

    method ResetNextLeader(env: Env)
      modifies `role, `stage, `curLeader, `turn, `nextLeader, `interval, `results, `cache, `inserted, `given
      ensures View() == Step(old(View()), env, ReInitNextLeader)
    {
      nextLeader := NO_ACCOUNT;
    }

    method ChangeCurLeader(leader: Account, t: nat, env: Env)
      modifies `role, `stage, `curLeader, `turn, `nextLeader, `interval, `results, `cache, `inserted, `given
      ensures View() == Step(old(View()), env, CurLeader(leader, t))
    {
      hide BroadcastParent;
      if curLeader == leader && turn == t {
        return;
      }
      curLeader, turn := leader, t;
      if stage == IDLE {
        return;
      }
      stage, nextLeader := BLOCK_BROADCAST, NO_ACCOUNT;
      StartBcBlock(env);
    }

    method SetNextLeader(preLeader: Account, leader: Account, env: Env)
      modifies `role, `stage, `curLeader, `turn, `nextLeader, `interval, `results, `cache, `inserted, `given
      ensures View() == Step(old(View()), env, NextLeader(preLeader, leader))
    {
      hide InsertOwn;
      if nextLeader == leader {
        return;
      }
      nextLeader := leader;
      ProcessBlockInsert(preLeader, env);
    }

    method AddInsertBlockInfo(h: Header, env: Env)
      modifies `role, `stage, `curLeader, `turn, `nextLeader, `interval, `results, `cache, `inserted, `given
      ensures View() == Step(old(View()), env, InsertInfo(h))
    {
      hide GiveBlock;
      if h in inserted {
        return;
      }
      var i := env.intervalOf(h.core);
      if i.None? {
        return;
      }
      if IsBroadcastNumber(i.value, number) {
        if env.signer(h) != Some(h.core.leader) || !env.broadcastRole(h.core.leader) {
          return;
        }
      } else {
        if !env.dposOk(h) || !env.sealOk(h) {
          return;
        }
      }
      var ok := InsertAndBcBlock(h.core.leader, Some(h), env);
      inserted := inserted + [h];
    }

    method ProcessRecoveryMsg(h: Header, isBroadcast: bool, env: Env)
      modifies `role, `stage, `curLeader, `turn, `nextLeader, `interval, `results, `cache, `inserted, `given
      ensures View() == Step(old(View()), env, Recovery(h, isBroadcast))
    {
      hide VerifyResult;
      if isBroadcast {
        return;
      }
      ProcessMinerResultVerify(h.core.leader, false, env);
    }

    method ProcessFullBlockRsp(h: Header, env: Env)
      modifies `role, `stage, `curLeader, `turn, `nextLeader, `interval, `results, `cache, `inserted, `given
      ensures View() == Step(old(View()), env, FullBlock(h))
    {
      hide InsertOwn;
      if interval.None? {
        return;
      }
      if exists a <- cache :: cache[a].header.core == h.core {
        return;
      }
      var bc := IsBroadcastNumber(interval.value, h.core.number);
      if !env.headerOk(h) || (!bc && !env.sealOk(h)) {
        return;
      }
      if !env.dposOk(h) {
        return;
      }
      if !env.txsOk(h) {
        return;
      }
      cache := cache[h.core.leader := Entry(h, true)];
      stage := BLOCK_INSERT;
      ProcessBlockInsert(h.core.leader, env);
    }

    /** `AddMinerResult` and `minerPickTimeout`: the pool has changed, or inner miners may be picked now. */
    method MinerResultsChanged(env: Env)
      modifies `role, `stage, `curLeader, `turn, `nextLeader, `interval, `results, `cache, `inserted, `given
      ensures View() == Step(old(View()), env, Mined)
    {
      ProcessMinerResultVerify(curLeader, true, env);
    }

    method AddConsensusBlock(h: Header, env: Env)
      modifies `role, `stage, `curLeader, `turn, `nextLeader, `interval, `results, `cache, `inserted, `given
      ensures View() == Step(old(View()), env, Consensus(h))
    {
      hide VerifyResult;
      if h.core.leader !in cache {
        cache := cache[h.core.leader := Entry(h, false)];
      }
      ProcessMinerResultVerify(curLeader, true, env);
    }

    method AddBroadcastMinerResult(from: Account, h: Header, env: Env)
      modifies `role, `stage, `curLeader, `turn, `nextLeader, `interval, `results, `cache, `inserted, `given
      ensures View() == Step(old(View()), env, BroadcastResult(from, h))
    {
      hide VerifyResult;
      if from != h.core.leader {
        return;
      }
      var i := env.preInterval;
      if i.None? || !IsBroadcastNumber(i.value, h.core.number) {
        return;
      }
      results := results[from := h];
      ProcessMinerResultVerify(curLeader, true, env);
    }

    /** One event, with the answers met while it is handled. */
    method Perform(e: Event, env: Env)
      modifies this
      ensures View() == Step(old(View()), env, e)
      ensures history == old(history) + [(e, env)] && (old(Valid()) ==> Valid())
      ensures old(Inv(View())) ==> Inv(View()) && Checked(old(View()), View(), env, e, AsBroadcast(old(View()), env, e))
    {
      hide Step, Inv, Checked;
      ghost var s := View();
      match e {
        case Run(asRole, i) => StartRunning(asRole, i, env);
        case Stop => Close(env);
        case ReInit => Reset(env);
        case ReInitNextLeader => ResetNextLeader(env);
        case CurLeader(leader, t) => ChangeCurLeader(leader, t, env);
        case NextLeader(preLeader, leader) => SetNextLeader(preLeader, leader, env);
        case InsertInfo(h) => AddInsertBlockInfo(h, env);
        case Recovery(h, isBroadcast) => ProcessRecoveryMsg(h, isBroadcast, env);
        case FullBlock(h) => ProcessFullBlockRsp(h, env);
        case Mined => MinerResultsChanged(env);
        case Consensus(h) => AddConsensusBlock(h, env);
        case BroadcastResult(from, h) => AddBroadcastMinerResult(from, h, env);
      }
      history := old(history) + [(e, env)];
      assert history[..|history| - 1] == old(history);
      if Inv(s) {
        StepChecked(s, env, e);
      }
    }

    /** Any sequence of events: what is ready and what was given is what the history makes so, and all of it was checked. */
    method Execute(events: seq<Event>, envs: seq<Env>)
      requires Valid() && |envs| == |events|
      modifies this
      ensures Valid() && Extends(history, old(history), events, envs)
      ensures given == Given(number, history)
      ensures AllReadyChecked(number, history) && AllGivenChecked(number, history)
    {
      hide Step, Inv, Checked, After;
      for k := 0 to |events|
        invariant Valid() && Extends(history, old(history), events[..k], envs[..k])
      {
        Perform(events[k], envs[k]);
      }
      assert events[..|events|] == events && envs[..|envs|] == envs && history[..|history|] == history;
      RunChecked(number, history);
    }
  }

  /** The events, each with its answers, are added to the history. */
  ghost predicate Extends(history: History, was: History, events: seq<Event>, envs: seq<Env>)
    requires |envs| == |events|
  {
    && |history| == |was| + |events| && history[..|was|] == was
    && forall i | 0 <= i < |events| :: history[|was| + i] == (events[i], envs[i])
  }

  function TimeOf(cache: Cache, a: Account): int
    requires a in cache
  {
    cache[a].header.core.time
  }

  /** Position `j` of the order holds the latest time, above zero, and no earlier position holds the same. */
  ghost predicate IsLatest(cache: Cache, order: seq<Account>, j: int) {
    && 0 <= j < |order| && order[j] in cache && TimeOf(cache, order[j]) > 0
    && (forall i | 0 <= i < |order| && order[i] in cache :: TimeOf(cache, order[i]) <= TimeOf(cache, order[j]))
    && (forall i | 0 <= i < j && order[i] in cache :: TimeOf(cache, order[i]) < TimeOf(cache, order[j]))
  }

  lemma {:induction false} LastIsLatest(cache: Cache, order: seq<Account>)
    ensures var r := Last(cache, order);
            && (r.None? <==> forall j | 0 <= j < |order| && order[j] in cache :: TimeOf(cache, order[j]) <= 0)
            && (r.Some? ==> exists j :: IsLatest(cache, order, j) && order[j] == r.value)
    decreases |order|
  {
    if order != [] {
      var n := |order| - 1;
      LastIsLatest(cache, order[..n]);
      var q, r := Last(cache, order[..n]), Last(cache, order);
      assert forall i | 0 <= i < n :: order[..n][i] == order[i];
      if q.Some? {
        var j :| IsLatest(cache, order[..n], j) && order[..n][j] == q.value;
        if r == q {
          assert IsLatest(cache, order, j);
        } else {
          assert IsLatest(cache, order, n);
        }
      } else if r.Some? {
        assert IsLatest(cache, order, n);
      }
    }
  }

  /** Position `j` is the first that passes. */
  ghost predicate IsFirst(h: Header, rs: seq<MinerResult>, env: Env, j: int) {
    0 <= j < |rs| && Satisfies(h, rs[j], env) && forall i | 0 <= i < j :: !Satisfies(h, rs[i], env)
  }

  lemma {:induction false} PickIsFirst(h: Header, rs: seq<MinerResult>, env: Env)
    ensures var r := Pick(h, rs, env);
            && (r.None? <==> forall j | 0 <= j < |rs| :: !Satisfies(h, rs[j], env))
            && (r.Some? ==> exists j :: IsFirst(h, rs, env, j) && rs[j] == r.value)
    decreases |rs|
  {
    hide Satisfies;
    if rs != [] {
      var n := |rs| - 1;
      PickIsFirst(h, rs[..n], env);
      var q := Pick(h, rs[..n], env);
      assert forall i | 0 <= i < n :: rs[..n][i] == rs[i];
      if q.Some? {
        var j :| IsFirst(h, rs[..n], env, j) && rs[..n][j] == q.value;
        assert IsFirst(h, rs, env, j);
      } else if Satisfies(h, rs[n], env) {
        assert IsFirst(h, rs, env, n);
      }
    }
  }

  lemma {:induction false} PickStays(h: Header, rs: seq<MinerResult>, i: nat, env: Env)
    requires i <= |rs| && Pick(h, rs[..i], env).Some?
    ensures Pick(h, rs, env) == Pick(h, rs[..i], env)
    decreases |rs|
  {
    if i < |rs| {
      assert rs[..|rs| - 1][..i] == rs[..i];
      PickStays(h, rs[..|rs| - 1], i, env);
    } else {
      assert rs[..i] == rs;
    }
  }

  lemma {:induction false} PickBroadcastStays(s: State, env: Env, i: nat)
    requires i <= |env.resultOrder| && PickBroadcast(s, env, env.resultOrder[..i]).Some?
    ensures PickBroadcast(s, env, env.resultOrder) == PickBroadcast(s, env, env.resultOrder[..i])
  {
    PickBroadcastIn(s, env, env.resultOrder, i);
  }

  lemma {:induction false} PickBroadcastIn(s: State, env: Env, order: seq<Account>, i: nat)
    requires i <= |order| && PickBroadcast(s, env, order[..i]).Some?
    ensures PickBroadcast(s, env, order) == PickBroadcast(s, env, order[..i])
    decreases |order|
  {
    if i < |order| {
      assert order[..|order| - 1][..i] == order[..i];
      PickBroadcastIn(s, env, order[..|order| - 1], i);
    } else {
      assert order[..i] == order;
    }
  }
}
