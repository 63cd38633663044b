/**
  The block generation process of one height, as steps on a value: which blocks it takes for ready,
  and which blocks it gives to the chain. Consensus (DPOS) checks, seal checks, transaction runs and
  the mining result pool are answers of the environment.
 */
module GenSteps {
  import opened Options

  type Account = nat

  const NO_ACCOUNT: Account := 0

  const IDLE: nat := 0
  const BLOCK_BROADCAST: nat := 1
  const HEADER_GEN: nat := 2
  const RESULT_VERIFY: nat := 3
  const BLOCK_INSERT: nat := 4
  const END: nat := 5

  type Period = x: nat | x > 0 witness 1

  datatype Role = NoRole | Validator | Broadcast | Other

  /** A header without its signatures, nonce, coinbase and mix digest: its unsigned hash stands for it. */
  datatype Core = Core(leader: Account, parent: nat, number: nat, time: int)

  datatype Header = Header(core: Core, seal: nat)

  datatype MinerResult = MinerResult(core: Core, coinbase: Account, seal: nat)

  datatype Interval = Interval(lastBC: nat, period: Period)

  predicate IsBroadcastNumber(i: Interval, n: nat) {
    n >= i.lastBC && (n - i.lastBC) % i.period == 0
  }

  datatype Entry = Entry(header: Header, ready: bool)

  datatype State = State(number: nat, role: Role, stage: nat, curLeader: Account, turn: nat, nextLeader: Account,
                         interval: Option<Interval>, results: map<Account, Header>, cache: map<Account, Entry>,
                         inserted: seq<Header>, given: seq<Header>)

  /** The answers of the world outside while one step runs. The three orders are those in which the maps are ranged over:
      the cache when a result is verified and when a block is given, and the broadcast results. `preInterval` is the
      interval that the check of a broadcast result reads before it waits for the lock. */
  datatype Env = Env(self: Account, verifyOrder: seq<Account>, giveOrder: seq<Account>, resultOrder: seq<Account>, dposOk: Header -> bool, sealOk: Header -> bool, headerOk: Header -> bool,
                     txsOk: Header -> bool, writeOk: Header -> bool, genOk: bool, pool: Core -> seq<MinerResult>, innerMiner: Account -> bool,
                     innerPick: bool, signer: Header -> Option<Account>, broadcastRole: Account -> bool,
                     parentInterval: Option<Interval>, intervalOf: Core -> Option<Interval>, preInterval: Option<Interval>)

  // ----- Looking into the cache -----

  /** `GetLastBlockData`: the entry with the latest time above zero; the first met on a tie. */
  function Last(cache: map<Account, Entry>, order: seq<Account>): (r: Option<Account>)
    ensures r.Some? ==> r.value in cache
  {
    if order == [] then None
    else
      var r, a := Last(cache, order[..|order| - 1]), order[|order| - 1];
      if a in cache && cache[a].header.core.time > (if r.Some? then cache[r.value].header.core.time else 0) then Some(a) else r
  }

  /** The entry to work with: a broadcast node takes the latest, any other node the leader's. */
  function Chosen(s: State, order: seq<Account>, leader: Account): (r: Option<Account>)
    ensures r.Some? ==> r.value in s.cache
  {
    if s.role == Broadcast then Last(s.cache, order)
    else if leader in s.cache then Some(leader)
    else None
  }

  // ----- Giving a block to the chain -----

  /** `insertAndBcBlock`: the ready block itself, or a header from a message with the same unsigned hash. */
  function GiveBlock(s: State, env: Env, leader: Account, msg: Option<Header>): (State, bool) {
    var who := Chosen(s, env.giveOrder, leader);
    if who.None? || !s.cache[who.value].ready then (s, false)
    else
      var h := s.cache[who.value].header;
      if msg.Some? && msg.value.core != h.core then (s, false)
      else
        var x := if msg.Some? then msg.value else h;
        (s.(given := s.given + [x]), env.writeOk(x))
  }

  /** `canGenBlock`. */
  predicate CanGenBlock(s: State, env: Env) {
    && s.stage >= BLOCK_INSERT && s.interval.Some?
    && if IsBroadcastNumber(s.interval.value, s.number + 1) then s.role == Broadcast
       else s.role == Validator && s.nextLeader != NO_ACCOUNT && s.nextLeader == env.self
  }

  /** `processBlockInsert`. */
  function InsertOwn(s: State, env: Env, leader: Account): State {
    if !CanGenBlock(s, env) then s
    else
      var (t, ok) := GiveBlock(s, env, leader, None);
      if ok then t.(stage := END) else t
  }

  // ----- Making a block ready -----

  /** `verifyOneResult`: the header completed by a mining result. */
  predicate ResultOk(h: Header, r: MinerResult, env: Env) {
    var x := Header(h.core, r.seal);
    r.core == h.core && env.dposOk(x) && env.sealOk(x)
  }

  /** The tests of `pickSatisfyMinerResults` on one result: inner miners wait for their turn. */
  predicate Satisfies(h: Header, r: MinerResult, env: Env) {
    (env.innerPick || !env.innerMiner(r.coinbase)) && ResultOk(h, r, env)
  }

  /** `pickSatisfyMinerResults`: the first result that will do. */
  function Pick(h: Header, rs: seq<MinerResult>, env: Env): (r: Option<MinerResult>)
    ensures r.Some? ==> ResultOk(h, r.value, env)
  {
    if rs == [] then None
    else
      var r, x := Pick(h, rs[..|rs| - 1], env), rs[|rs| - 1];
      if r.Some? then r
      else if Satisfies(h, x, env) then Some(x)
      else None
  }

  /** `dealMinerResultVerifyCommon`. */
  function VerifyCommon(s: State, env: Env, leader: Account): State {
    var who := Chosen(s, env.verifyOrder, leader);
    if who.None? then s
    else
      var e := s.cache[who.value];
      if e.ready then InsertOwn(s.(stage := BLOCK_INSERT), env, s.curLeader)
      else
        var r := Pick(e.header, env.pool(e.header.core), env);
        if r.None? then s
        else
          var x := Header(e.header.core, r.value.seal);
          InsertOwn(MakeReady(s, who.value, x).(stage := BLOCK_INSERT), env, s.curLeader)
  }

  /** A header enters the cache as ready. */
  function MakeReady(s: State, a: Account, x: Header): State {
    s.(cache := s.cache[a := Entry(x, true)])
  }

  /** The first cached broadcast result that passes. */
  function PickBroadcast(s: State, env: Env, order: seq<Account>): (r: Option<Header>)
    ensures r.Some? ==> env.dposOk(r.value) && env.txsOk(r.value)
  {
    if order == [] then None
    else
      var r, a := PickBroadcast(s, env, order[..|order| - 1]), order[|order| - 1];
      if r.Some? then r
      else if a in s.results && env.dposOk(s.results[a]) && env.txsOk(s.results[a]) then Some(s.results[a])
      else None
  }

  /** `dealMinerResultVerifyBroadcast`. */
  function VerifyBroadcast(s: State, env: Env): State {
    var r := PickBroadcast(s, env, env.resultOrder);
    if r.None? then s
    else
      var t := MakeReady(s, r.value.core.leader, r.value);
      InsertOwn(t.(stage := if s.stage == BLOCK_INSERT - 1 then BLOCK_INSERT else s.stage), env, r.value.core.leader)
  }

  /** `processMinerResultVerify`. */
  function VerifyResult(s: State, env: Env, leader: Account, checkStage: bool): State {
    if checkStage && s.stage != RESULT_VERIFY then s
    else if s.interval.None? then s
    else if IsBroadcastNumber(s.interval.value, s.number) then VerifyBroadcast(s, env)
    else VerifyCommon(s, env, leader)
  }

  // ----- The stages before -----

  /** `canBcBlock`. */
  predicate CanBroadcast(s: State) {
    match s.role
    case Broadcast => true
    case Validator => s.interval.Some? && (IsBroadcastNumber(s.interval.value, s.number) || s.curLeader != NO_ACCOUNT)
    case _ => false
  }

  /** Must this node produce the header, and may it go on without? */
  datatype Duty = Wait | Skip | Produce

  /** `canGenHeader`. */
  function HeaderDuty(s: State, env: Env): Duty
    requires s.interval.Some?
  {
    var bc := IsBroadcastNumber(s.interval.value, s.number);
    match s.role
    case Broadcast => if bc then Produce else Skip
    case Validator => if bc then Skip else if s.curLeader == NO_ACCOUNT then Wait else if s.curLeader != env.self then Skip else Produce
    case _ => Wait
  }

  /** `startBcBlock` and `startHeaderGen`. */
  function BroadcastParent(s: State, env: Env): State {
    if s.stage != BLOCK_BROADCAST || !CanBroadcast(s) || env.parentInterval.None? then s
    else
      var t := s.(interval := env.parentInterval, stage := HEADER_GEN);
      var d := HeaderDuty(t, env);
      if d == Skip || (d == Produce && env.genOk) then VerifyResult(t.(stage := RESULT_VERIFY), env, t.curLeader, true) else t
  }

  // ----- The steps -----

  datatype Event =
    | Run(asRole: Role, interval: Interval)
    | Stop
    | ReInit
    | ReInitNextLeader
    | CurLeader(leader: Account, turn: nat)
    | NextLeader(preLeader: Account, leader: Account)
    | InsertInfo(header: Header)
    | Recovery(header: Header, isBroadcast: bool)
    | FullBlock(header: Header)
    | Mined
    | Consensus(header: Header)
    | BroadcastResult(from: Account, header: Header)

  /** `canInsertBlock`. */
  predicate CanInsert(s: State, env: Env, i: Interval, h: Header) {
    if IsBroadcastNumber(i, s.number) then env.signer(h) == Some(h.core.leader) && env.broadcastRole(h.core.leader)
    else env.dposOk(h) && env.sealOk(h)
  }

  /** `startBlockInsert`: a block that others inserted. */
  function InsertOther(s: State, env: Env, h: Header): State {
    var i := env.intervalOf(h.core);
    if h in s.inserted || i.None? || !CanInsert(s, env, i.value, h) then s
    else
      var (t, ok) := GiveBlock(s, env, h.core.leader, Some(h));
      t.(inserted := t.inserted + [h])
  }

  /** `ProcessFullBlockRsp`. */
  function TakeFullBlock(s: State, env: Env, h: Header): State {
    if s.interval.None? || (exists a <- s.cache :: s.cache[a].header.core == h.core) then s
    else
      var bc := IsBroadcastNumber(s.interval.value, h.core.number);
      if !env.headerOk(h) || (!bc && !env.sealOk(h)) || !env.dposOk(h) || !env.txsOk(h) then s
      else InsertOwn(MakeReady(s, h.core.leader, h).(stage := BLOCK_INSERT), env, h.core.leader)
  }

  /** `AddBroadcastMinerResult`. */
  function TakeBroadcastResult(s: State, env: Env, from: Account, h: Header): State {
    var i := env.preInterval;
    if from != h.core.leader || i.None? || !IsBroadcastNumber(i.value, h.core.number) then s
    else VerifyResult(s.(results := s.results[from := h]), env, s.curLeader, true)
  }

  function SetCurLeader(s: State, env: Env, leader: Account, turn: nat): State {
    if s.curLeader == leader && s.turn == turn then s
    else
      var t := s.(curLeader := leader, turn := turn);
      if s.stage == IDLE then t else BroadcastParent(t.(stage := BLOCK_BROADCAST, nextLeader := NO_ACCOUNT), env)
  }

  function Step(s: State, env: Env, e: Event): State {
    match e
    case Run(asRole, interval) =>
      BroadcastParent(s.(role := asRole, interval := if s.interval.None? then Some(interval) else s.interval,
                         stage := if s.stage == IDLE then BLOCK_BROADCAST else s.stage), env)
    case Stop => s.(stage := IDLE, curLeader := NO_ACCOUNT, turn := 0, nextLeader := NO_ACCOUNT, interval := None)
    case ReInit =>
      if s.stage == IDLE then s else s.(stage := BLOCK_BROADCAST, curLeader := NO_ACCOUNT, turn := 0, nextLeader := NO_ACCOUNT)
    case ReInitNextLeader => s.(nextLeader := NO_ACCOUNT)
    case CurLeader(leader, turn) => SetCurLeader(s, env, leader, turn)
    case NextLeader(preLeader, leader) => if s.nextLeader == leader then s else InsertOwn(s.(nextLeader := leader), env, preLeader)
    case InsertInfo(h) => InsertOther(s, env, h)
    case Recovery(h, isBroadcast) => if isBroadcast then s else VerifyResult(s, env, h.core.leader, false)
    case FullBlock(h) => TakeFullBlock(s, env, h)
    case Mined => VerifyResult(s, env, s.curLeader, true)
    case Consensus(h) =>
      VerifyResult(if h.core.leader in s.cache then s else s.(cache := s.cache[h.core.leader := Entry(h, false)]), env, s.curLeader, true)
    case BroadcastResult(from, h) => TakeBroadcastResult(s, env, from, h)
  }

  function Start(number: nat): State {
    State(number, NoRole, IDLE, NO_ACCOUNT, 0, NO_ACCOUNT, None, map[], map[], [], [])
  }

  function After(s: State, es: seq<(Event, Env)>): State {
    if es == [] then s else Step(After(s, es[..|es| - 1]), es[|es| - 1].1, es[|es| - 1].0)
  }
}
