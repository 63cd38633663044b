/**
  What every run of a generation process keeps. A block is taken for ready only at a step whose own
  checks it passes, ready blocks stay ready, and every block given to the chain goes back to such a
  step. The seal is tested exactly at the steps that do not take the height for a broadcast height.
 */
module GenProofs {
  import opened GenSteps
  import opened Options

  type Cache = map<Account, Entry>

  // ----- What one step may do -----

  function Started(s: State, asRole: Role, interval: Interval): State {
    s.(role := asRole, interval := if s.interval.None? then Some(interval) else s.interval,
       stage := if s.stage == IDLE then BLOCK_BROADCAST else s.stage)
  }

  function Led(s: State, leader: Account, turn: nat): State {
    s.(curLeader := leader, turn := turn, stage := BLOCK_BROADCAST, nextLeader := NO_ACCOUNT)
  }

  /** The interval after the broadcast stage: that of the parent, once the block was broadcast. */
  function OfParent(s: State, env: Env): Option<Interval> {
    if s.stage == BLOCK_BROADCAST && CanBroadcast(s) && env.parentInterval.Some? then env.parentInterval else s.interval
  }

  /** The interval by which the step tells broadcast heights from others. */
  function Deciding(s: State, env: Env, e: Event): Option<Interval> {
    match e
    case Run(asRole, interval) => OfParent(Started(s, asRole, interval), env)
    case CurLeader(leader, turn) =>
      if (s.curLeader == leader && s.turn == turn) || s.stage == IDLE then s.interval else OfParent(Led(s, leader, turn), env)
    case InsertInfo(h) => env.intervalOf(h.core)
    case Stop => None
    case _ => s.interval
  }

  /** The step takes the height for a broadcast height. */
  predicate AsBroadcast(s: State, env: Env, e: Event) {
    var i := Deciding(s, env, e);
    i.Some? && IsBroadcastNumber(i.value, if e.FullBlock? then e.header.core.number else s.number)
  }

  /** The checks of a block that is taken for ready. */
  predicate Passed(env: Env, x: Header, broadcast: bool) {
    env.dposOk(x) && if broadcast then env.txsOk(x) else env.sealOk(x)
  }

  /** The checks of a block that others inserted. */
  predicate Vouched(env: Env, x: Header, broadcast: bool) {
    if broadcast then env.signer(x) == Some(x.core.leader) && env.broadcastRole(x.core.leader) else env.dposOk(x) && env.sealOk(x)
  }

  predicate Ready(cache: Cache, x: Header) {
    x.core.leader in cache && cache[x.core.leader] == Entry(x, true)
  }

  predicate Accepts(cache: Cache, next: Cache, x: Header) {
    Ready(next, x) && !Ready(cache, x)
  }

  /** Every entry is kept under the leader of its block. */
  ghost predicate Keyed(cache: Cache) {
    forall a <- cache :: cache[a].header.core.leader == a
  }

  /** Only blocks that pass become ready, no entry is dropped, and no ready entry is taken back. */
  ghost predicate CacheOk(cache: Cache, next: Cache, env: Env, broadcast: bool) {
    && Keyed(next)
    && (forall a <- cache :: a in next && (cache[a].ready ==> next[a].ready))
    && (forall x :: Accepts(cache, next, x) ==> Passed(env, x, broadcast))
  }

  /** At most one block is given, and `x` is it. */
  predicate Gives(given: seq<Header>, next: seq<Header>, x: Header) {
    next == given + [x]
  }

  /** What is given is ready. */
  ghost predicate GivenOk(given: seq<Header>, next: seq<Header>, cache: Cache) {
    next == given || exists x :: Gives(given, next, x) && Ready(cache, x)
  }

  /** A process that is not idle knows its interval. */
  predicate Placed(s: State) {
    s.stage > IDLE ==> s.interval.Some?
  }

  ghost predicate Inv(s: State) {
    Keyed(s.cache) && Placed(s)
  }

  /** What a step does, apart from those for blocks that others inserted. */
  ghost predicate StepOk(s: State, t: State, env: Env, broadcast: bool) {
    t.number == s.number && Placed(t) && CacheOk(s.cache, t.cache, env, broadcast) && GivenOk(s.given, t.given, t.cache)
  }

  lemma {:induction false} NothingDone(s: State, t: State, env: Env, broadcast: bool)
    requires Inv(s) && t.number == s.number && Placed(t) && t.cache == s.cache && t.given == s.given
    ensures StepOk(s, t, env, broadcast)
  {
  }

  lemma {:induction false} GiveIs(s: State, env: Env, leader: Account, msg: Option<Header>)
    requires Keyed(s.cache)
    ensures var t := GiveBlock(s, env, leader, msg).0;
            && t == s.(given := t.given)
            && (t.given == s.given || exists x :: Gives(s.given, t.given, x) && msg in {None, Some(x)} && BackedBy(s.cache, x) && (msg.None? ==> Ready(s.cache, x)))
  {
    var t := GiveBlock(s, env, leader, msg).0;
    var who := Chosen(s, env.giveOrder, leader);
    hide Chosen;
    if t.given != s.given {
      var h := s.cache[who.value].header;
      var x := if msg.Some? then msg.value else h;
      assert Ready(s.cache, h) && x.core == h.core;
      assert Gives(s.given, t.given, x);
    }
  }

  /** A ready block has the same unsigned hash. */
  predicate BackedBy(cache: Cache, x: Header) {
    var a := x.core.leader;
    a in cache && cache[a].ready && cache[a].header.core == x.core
  }

  lemma {:induction false} OwnIs(s: State, env: Env, leader: Account)
    requires Keyed(s.cache)
    ensures var t := InsertOwn(s, env, leader);
            && t == s.(given := t.given, stage := t.stage) && (t.stage == s.stage || s.interval.Some?) && GivenOk(s.given, t.given, s.cache)
  {
    GiveIs(s, env, leader, None);
    hide GiveBlock, Ready, BackedBy;
  }

  lemma {:induction false} OwnOk(s: State, env: Env, leader: Account, broadcast: bool)
    requires Inv(s)
    ensures var t := InsertOwn(s, env, leader); StepOk(s, t, env, broadcast) && t.interval == s.interval
  {
    OwnIs(s, env, leader);
    hide InsertOwn, Gives;
  }

  lemma {:induction false} ReadyIn(cache: Cache, x: Header, env: Env, broadcast: bool)
    requires Keyed(cache) && Passed(env, x, broadcast)
    ensures CacheOk(cache, cache[x.core.leader := Entry(x, true)], env, broadcast)
  {
    hide Passed;
    var next := cache[x.core.leader := Entry(x, true)];
    assert forall y :: Accepts(cache, next, y) ==> y == x;
  }

  /** A block that passes becomes ready, and may be given at once. */
  lemma {:induction false} MadeOk(s: State, x: Header, stage: nat, env: Env, leader: Account, broadcast: bool)
    requires Inv(s) && s.interval.Some? && Passed(env, x, broadcast)
    ensures var t := InsertOwn(MakeReady(s, x.core.leader, x).(stage := stage), env, leader);
            StepOk(s, t, env, broadcast) && t.interval == s.interval
  {
    ReadyIn(s.cache, x, env, broadcast);
    OwnIs(MakeReady(s, x.core.leader, x).(stage := stage), env, leader);
    hide InsertOwn, GivenOk, Passed, Accepts;
  }

  lemma {:induction false} CommonOk(s: State, env: Env, leader: Account)
    requires Inv(s) && s.interval.Some?
    ensures var t := VerifyCommon(s, env, leader); StepOk(s, t, env, false) && t.interval == s.interval
  {
    NothingDone(s, s, env, false);
    var who := Chosen(s, env.verifyOrder, leader);
    if who.Some? {
      var e := s.cache[who.value];
      assert e.header.core.leader == who.value;
      hide Chosen, StepOk, InsertOwn, MakeReady;
      if e.ready {
        OwnOk(s.(stage := BLOCK_INSERT), env, s.curLeader, false);
        Later(s, s.(stage := BLOCK_INSERT), InsertOwn(s.(stage := BLOCK_INSERT), env, s.curLeader), env, false);
      } else {
        var r := Pick(e.header, env.pool(e.header.core), env);
        if r.Some? {
          MadeOk(s, Header(e.header.core, r.value.seal), BLOCK_INSERT, env, s.curLeader, false);
        }
      }
    }
  }

  /** Changes that no check depends on may come first. */
  lemma {:induction false} Later(s: State, t: State, u: State, env: Env, broadcast: bool)
    requires t.number == s.number && t.cache == s.cache && t.given == s.given && StepOk(t, u, env, broadcast)
    ensures StepOk(s, u, env, broadcast)
  {
    hide CacheOk, GivenOk;
  }

  lemma {:induction false} BroadcastOk(s: State, env: Env)
    requires Inv(s) && s.interval.Some?
    ensures var t := VerifyBroadcast(s, env); StepOk(s, t, env, true) && t.interval == s.interval
  {
    NothingDone(s, s, env, true);
    var r := PickBroadcast(s, env, env.resultOrder);
    hide StepOk, InsertOwn, MakeReady, PickBroadcast;
    if r.Some? {
      MadeOk(s, r.value, if s.stage == BLOCK_INSERT - 1 then BLOCK_INSERT else s.stage, env, r.value.core.leader, true);
    }
  }

  predicate AtBroadcast(s: State) {
    s.interval.Some? && IsBroadcastNumber(s.interval.value, s.number)
  }

  lemma {:induction false} VerifyOk(s: State, env: Env, leader: Account, check: bool)
    requires Inv(s)
    ensures var t := VerifyResult(s, env, leader, check); t.interval == s.interval && StepOk(s, t, env, AtBroadcast(s))
  {
    NothingDone(s, s, env, AtBroadcast(s));
    hide VerifyBroadcast, VerifyCommon, StepOk;
    if s.interval.Some? {
      BroadcastOk(s, env);
      CommonOk(s, env, leader);
    }
  }

  lemma {:induction false} ParentOk(s: State, env: Env)
    requires Inv(s)
    ensures var t := BroadcastParent(s, env); StepOk(s, t, env, AtBroadcast(t)) && t.interval == OfParent(s, env)
  {
    NothingDone(s, s, env, AtBroadcast(s));
    if s.stage == BLOCK_BROADCAST && env.parentInterval.Some? {
      var t := s.(interval := env.parentInterval, stage := HEADER_GEN);
      NothingDone(s, t, env, AtBroadcast(t));
      var u := t.(stage := RESULT_VERIFY);
      hide StepOk, VerifyResult, HeaderDuty, CanBroadcast;
      VerifyOk(u, env, t.curLeader, true);
      var v := VerifyResult(u, env, t.curLeader, true);
      Later(s, u, v, env, AtBroadcast(v)) by { NumberStays(u, v, env, AtBroadcast(u)); }
      NumberStays(u, v, env, AtBroadcast(u));
    }
  }

  lemma {:induction false} NumberStays(s: State, t: State, env: Env, broadcast: bool)
    requires StepOk(s, t, env, broadcast)
    ensures t.number == s.number
  {
  }

  lemma {:induction false} FullOk(s: State, env: Env, h: Header)
    requires Inv(s)
    ensures var t := TakeFullBlock(s, env, h);
            t.interval == s.interval && StepOk(s, t, env, s.interval.Some? && IsBroadcastNumber(s.interval.value, h.core.number))
  {
    NothingDone(s, s, env, s.interval.Some? && IsBroadcastNumber(s.interval.value, h.core.number));
    var t := TakeFullBlock(s, env, h);
    hide StepOk, InsertOwn, MakeReady;
    if t != s {
      var bc := IsBroadcastNumber(s.interval.value, h.core.number);
      MadeOk(s, h, BLOCK_INSERT, env, h.core.leader, bc);
    }
  }

  /** The step of a block that others inserted: it is given if it is vouched for and a ready block has its hash. */
  ghost predicate InsertOk(s: State, t: State, env: Env, x: Header, broadcast: bool) {
    && t.number == s.number && Placed(t) && t.cache == s.cache
    && (t.given == s.given || (Gives(s.given, t.given, x) && BackedBy(s.cache, x) && Vouched(env, x, broadcast)))
  }

  lemma {:induction false} OtherOk(s: State, env: Env, h: Header)
    requires Inv(s)
    ensures InsertOk(s, InsertOther(s, env, h), env, h, AsBroadcast(s, env, InsertInfo(h)))
  {
    GiveIs(s, env, h.core.leader, Some(h));
    hide GiveBlock, BackedBy, Gives, Keyed;
  }

  /** What each step promises of its own checks. */
  ghost predicate Checked(s: State, t: State, env: Env, e: Event, broadcast: bool) {
    if e.InsertInfo? then InsertOk(s, t, env, e.header, broadcast) else StepOk(s, t, env, broadcast)
  }

  lemma {:induction false} ThenVerify(s: State, t: State, env: Env, leader: Account, check: bool)
    requires Inv(t) && t.number == s.number && t.cache == s.cache && t.given == s.given
    ensures var u := VerifyResult(t, env, leader, check); u.number == s.number && u.interval == t.interval && StepOk(s, u, env, AtBroadcast(u))
  {
    VerifyOk(t, env, leader, check);
    var u := VerifyResult(t, env, leader, check);
    hide StepOk, VerifyResult, Inv;
    NumberStays(t, u, env, AtBroadcast(t));
    Later(s, t, u, env, AtBroadcast(u));
  }

  lemma {:induction false} ThenParent(s: State, t: State, env: Env)
    requires Inv(t) && t.number == s.number && t.cache == s.cache && t.given == s.given
    ensures var u := BroadcastParent(t, env); u.number == s.number && u.interval == OfParent(t, env) && StepOk(s, u, env, AtBroadcast(u))
  {
    ParentOk(t, env);
    var u := BroadcastParent(t, env);
    NumberStays(t, u, env, AtBroadcast(u));
    hide StepOk, BroadcastParent, Inv;
    Later(s, t, u, env, AtBroadcast(u));
  }

  lemma {:induction false} ThenOwn(s: State, t: State, env: Env, leader: Account, broadcast: bool)
    requires Inv(t) && t.number == s.number && t.cache == s.cache && t.given == s.given
    ensures StepOk(s, InsertOwn(t, env, leader), env, broadcast)
  {
    OwnOk(t, env, leader, broadcast);
    hide StepOk, InsertOwn, Inv;
    Later(s, t, InsertOwn(t, env, leader), env, broadcast);
  }

  /** An entry that is not ready enters the cache, and the results are verified. */
  lemma {:induction false} ConsensusOk(s: State, env: Env, h: Header)
    requires Inv(s) && h.core.leader !in s.cache
    ensures var u := VerifyResult(s.(cache := s.cache[h.core.leader := Entry(h, false)]), env, s.curLeader, true);
            u.number == s.number && u.interval == s.interval && StepOk(s, u, env, AtBroadcast(u))
  {
    var t := s.(cache := s.cache[h.core.leader := Entry(h, false)]);
    VerifyOk(t, env, s.curLeader, true);
    var u := VerifyResult(t, env, s.curLeader, true);
    NumberStays(t, u, env, AtBroadcast(t));
    hide VerifyResult, Passed;
    assert CacheOk(s.cache, u.cache, env, AtBroadcast(u)) by {
      hide GivenOk;
      assert forall x :: Ready(t.cache, x) == Ready(s.cache, x);
      hide Ready;
    }
  }

  lemma {:induction false} VerifyingStep(s: State, env: Env, e: Event)
    requires Inv(s) && (e.Recovery? || e.Mined? || e.Consensus? || e.BroadcastResult?)
    ensures var t := Step(s, env, e); Checked(s, t, env, e, AsBroadcast(s, env, e)) && t.interval == s.interval
  {
    NothingDone(s, s, env, AtBroadcast(s));
    hide VerifyResult, StepOk;
    match e
    case Recovery(h, isBroadcast) =>
      ThenVerify(s, s, env, h.core.leader, false);
      NumberStays(s, VerifyResult(s, env, h.core.leader, false), env, AtBroadcast(s));
    case Mined =>
      ThenVerify(s, s, env, s.curLeader, true);
    case Consensus(h) =>
      if h.core.leader in s.cache {
        ThenVerify(s, s, env, s.curLeader, true);
      } else {
        ConsensusOk(s, env, h);
      }
    case BroadcastResult(from, h) =>
      ThenVerify(s, s.(results := s.results[from := h]), env, s.curLeader, true);
  }

  /** Every step makes only such blocks ready as pass its own checks, and gives only a ready block, or one that others
      inserted, is vouched for and has the hash of a ready block. */
  lemma {:induction false} StepChecked(s: State, env: Env, e: Event)
    requires Inv(s)
    ensures var t := Step(s, env, e);
            && Inv(t) && Checked(s, t, env, e, AsBroadcast(s, env, e))
            && (t.interval == if e.InsertInfo? then s.interval else Deciding(s, env, e))
  {
    var t := Step(s, env, e);
    hide VerifyResult, BroadcastParent, InsertOwn, InsertOther, TakeFullBlock;
    assert Checked(s, t, env, e, AsBroadcast(s, env, e)) && (t.interval == if e.InsertInfo? then s.interval else Deciding(s, env, e)) by {
      if e.Recovery? || e.Mined? || e.Consensus? || e.BroadcastResult? {
        hide Step, Checked, Inv;
        VerifyingStep(s, env, e);
      } else {
        PlainStep(s, env, e);
      }
    }
    CheckedKeeps(s, t, env, e, AsBroadcast(s, env, e));
  }

  lemma {:induction false} CheckedKeeps(s: State, t: State, env: Env, e: Event, broadcast: bool)
    requires Inv(s) && Checked(s, t, env, e, broadcast)
    ensures Inv(t) && t.number == s.number
    ensures forall a <- s.cache :: a in t.cache && (s.cache[a].ready ==> t.cache[a].ready)
    ensures s.given <= t.given && |t.given| <= |s.given| + 1
  {
  }

  lemma {:induction false} PlainStep(s: State, env: Env, e: Event)
    requires Inv(s) && !(e.Recovery? || e.Mined? || e.Consensus? || e.BroadcastResult?)
    ensures var t := Step(s, env, e);
            && Checked(s, t, env, e, AsBroadcast(s, env, e)) && (t.interval == if e.InsertInfo? then s.interval else Deciding(s, env, e))
  {
    hide BroadcastParent, InsertOwn, InsertOther, TakeFullBlock, StepOk, InsertOk;
    var bc := AsBroadcast(s, env, e);
    match e
    case Run(asRole, interval) => ThenParent(s, Started(s, asRole, interval), env);
    case Stop => NothingDone(s, Step(s, env, e), env, bc);
    case ReInit => NothingDone(s, Step(s, env, e), env, bc);
    case ReInitNextLeader => NothingDone(s, Step(s, env, e), env, bc);
    case CurLeader(leader, turn) =>
      if (s.curLeader == leader && s.turn == turn) || s.stage == IDLE {
        NothingDone(s, Step(s, env, e), env, bc);
      } else {
        ThenParent(s, Led(s, leader, turn), env);
      }
    case NextLeader(preLeader, leader) =>
      if s.nextLeader == leader {
        NothingDone(s, s, env, bc);
      } else {
        var t := s.(nextLeader := leader);
        ThenOwn(s, t, env, preLeader, bc);
        OwnIs(t, env, preLeader);
      }
    case InsertInfo(h) =>
      OtherOk(s, env, h);
      OtherInterval(s, env, h);
    case FullBlock(h) => FullOk(s, env, h);
  }

  lemma {:induction false} OtherInterval(s: State, env: Env, h: Header)
    ensures InsertOther(s, env, h).interval == s.interval
  {
  }

  // ----- The seal -----

  /** The same world, in which the seal of `x` does not pass. */
  function Refusing(env: Env, x: Header): Env {
    env.(sealOk := h => h != x && env.sealOk(h))
  }

  lemma {:induction false} PickUnsealed(s: State, env: Env, x: Header, order: seq<Account>)
    ensures PickBroadcast(s, Refusing(env, x), order) == PickBroadcast(s, env, order)
    decreases |order|
  {
    if order != [] {
      PickUnsealed(s, env, x, order[..|order| - 1]);
    }
  }

  lemma {:induction false} OwnUnsealed(s: State, env: Env, x: Header, leader: Account)
    ensures InsertOwn(s, Refusing(env, x), leader) == InsertOwn(s, env, leader)
  {
    hide Last;
  }

  lemma {:induction false} VerifyUnsealed(s: State, env: Env, x: Header, leader: Account, check: bool)
    requires AtBroadcast(s)
    ensures VerifyResult(s, Refusing(env, x), leader, check) == VerifyResult(s, env, leader, check)
  {
    var r := PickBroadcast(s, env, env.resultOrder);
    PickUnsealed(s, env, x, env.resultOrder);
    if r.Some? {
      var t := MakeReady(s, r.value.core.leader, r.value);
      OwnUnsealed(t.(stage := if s.stage == BLOCK_INSERT - 1 then BLOCK_INSERT else s.stage), env, x, r.value.core.leader);
    }
    hide InsertOwn, PickBroadcast;
  }

  lemma {:induction false} ParentUnsealed(s: State, env: Env, x: Header)
    requires var i := OfParent(s, env); i.Some? && IsBroadcastNumber(i.value, s.number)
    ensures BroadcastParent(s, Refusing(env, x)) == BroadcastParent(s, env)
  {
    if s.stage == BLOCK_BROADCAST && CanBroadcast(s) && env.parentInterval.Some? {
      var t := s.(interval := env.parentInterval, stage := RESULT_VERIFY);
      VerifyUnsealed(t, env, x, t.curLeader, true);
      hide VerifyResult, CanBroadcast;
    }
  }

  lemma {:induction false} FullUnsealed(s: State, env: Env, x: Header, h: Header)
    requires s.interval.Some? && IsBroadcastNumber(s.interval.value, h.core.number)
    ensures TakeFullBlock(s, Refusing(env, x), h) == TakeFullBlock(s, env, h)
  {
    OwnUnsealed(MakeReady(s, h.core.leader, h).(stage := BLOCK_INSERT), env, x, h.core.leader);
    hide InsertOwn;
  }

  lemma {:induction false} OtherUnsealed(s: State, env: Env, x: Header, h: Header)
    requires var i := env.intervalOf(h.core); i.Some? && IsBroadcastNumber(i.value, s.number)
    ensures InsertOther(s, Refusing(env, x), h) == InsertOther(s, env, h)
  {
    hide Last;
  }

  /** A step that takes the height for a broadcast height looks at no seal. */
  lemma {:induction false} Unsealed(s: State, env: Env, e: Event, x: Header)
    requires AsBroadcast(s, env, e)
    ensures Step(s, Refusing(env, x), e) == Step(s, env, e)
  {
    hide BroadcastParent, VerifyResult, InsertOwn, InsertOther, TakeFullBlock, CanBroadcast;
    match e
    case Run(asRole, interval) => ParentUnsealed(Started(s, asRole, interval), env, x);
    case Stop =>
    case ReInit =>
    case ReInitNextLeader =>
    case CurLeader(leader, turn) =>
      if !(s.curLeader == leader && s.turn == turn) && s.stage != IDLE {
        ParentUnsealed(Led(s, leader, turn), env, x);
      }
    case NextLeader(preLeader, leader) => OwnUnsealed(s.(nextLeader := leader), env, x, preLeader);
    case InsertInfo(h) => OtherUnsealed(s, env, x, h);
    case Recovery(h, isBroadcast) => VerifyUnsealed(s, env, x, h.core.leader, false);
    case FullBlock(h) => FullUnsealed(s, env, x, h);
    case Mined => VerifyUnsealed(s, env, x, s.curLeader, true);
    case Consensus(h) =>
      VerifyUnsealed(if h.core.leader in s.cache then s else s.(cache := s.cache[h.core.leader := Entry(h, false)]), env, x, s.curLeader, true);
    case BroadcastResult(from, h) => VerifyUnsealed(s.(results := s.results[from := h]), env, x, s.curLeader, true);
  }

  /** The block would have become ready even if its seal did not pass, if and only if the step takes the height for a
      broadcast height. */
  lemma {:induction false} SealDecides(s: State, env: Env, e: Event, x: Header)
    requires Inv(s) && Accepts(s.cache, Step(s, env, e).cache, x)
    ensures Accepts(s.cache, Step(s, Refusing(env, x), e).cache, x) <==> AsBroadcast(s, env, e)
    ensures !AsBroadcast(s, env, e) ==> env.sealOk(x)
  {
    StepChecked(s, env, e);
    var r := Refusing(env, x);
    StepChecked(s, r, e);
    assert AsBroadcast(s, r, e) == AsBroadcast(s, env, e);
    if AsBroadcast(s, env, e) {
      Unsealed(s, env, e, x);
    }
    hide Step, AsBroadcast, Inv;
  }

  /** The same for a block that others inserted. */
  lemma {:induction false} InsertSealDecides(s: State, env: Env, x: Header)
    requires Inv(s) && Step(s, env, InsertInfo(x)).given != s.given
    ensures Step(s, Refusing(env, x), InsertInfo(x)).given != s.given <==> AsBroadcast(s, env, InsertInfo(x))
    ensures !AsBroadcast(s, env, InsertInfo(x)) ==> env.sealOk(x)
  {
    var e := InsertInfo(x);
    StepChecked(s, env, e);
    var r := Refusing(env, x);
    StepChecked(s, r, e);
    assert AsBroadcast(s, r, e) == AsBroadcast(s, env, e);
    if AsBroadcast(s, env, e) {
      Unsealed(s, env, e, x);
    }
    hide Step, AsBroadcast, Inv;
  }
}
