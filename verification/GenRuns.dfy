/**
  Whole runs of a generation process: every ready block and every block given to the chain is traced
  back to the step that accepted it and to the checks it passed there.
 */
module GenRuns {
  import opened GenProofs
  import opened GenSteps
  import opened Options

  type History = seq<(Event, Env)>

  /** The state before step `k`. */
  function Before(number: nat, es: History, k: nat): State
    requires k <= |es|
  {
    After(Start(number), es[..k])
  }

  /** Step `k` takes the height for a broadcast height. */
  predicate BroadcastAt(number: nat, es: History, k: nat)
    requires k < |es|
  {
    AsBroadcast(Before(number, es, k), es[k].1, es[k].0)
  }

  lemma {:induction false} NextStep(number: nat, es: History, k: nat)
    requires k < |es|
    ensures Before(number, es, k + 1) == Step(Before(number, es, k), es[k].1, es[k].0)
  {
    assert es[..k + 1][..k] == es[..k];
    hide Step;
  }

  lemma {:induction false} AtStart(number: nat, es: History)
    ensures Before(number, es, 0) == Start(number)
  {
    assert es[..0] == [];
    hide Step;
  }

  lemma {:induction false} RunInv(number: nat, es: History, k: nat)
    requires k <= |es|
    ensures Inv(Before(number, es, k)) && Before(number, es, k).number == number
    ensures k < |es| ==> Checked(Before(number, es, k), Before(number, es, k + 1), es[k].1, es[k].0, BroadcastAt(number, es, k))
  {
    if k > 0 {
      RunInv(number, es, k - 1);
      hide Inv, Checked, Before, BroadcastAt;
      CheckedKeeps(Before(number, es, k - 1), Before(number, es, k), es[k - 1].1, es[k - 1].0, BroadcastAt(number, es, k - 1));
    }
    if k < |es| {
      hide Inv, Checked;
      StepChecked(Before(number, es, k), es[k].1, es[k].0);
      NextStep(number, es, k);
    }
  }

  /** Over a run no entry is dropped, no ready entry is taken back, and what was given stays given. */
  lemma {:induction false} RunGrows(number: nat, es: History, j: nat, k: nat)
    requires j <= k <= |es|
    ensures var s, t := Before(number, es, j), Before(number, es, k);
            s.given <= t.given && forall a <- s.cache :: a in t.cache && (s.cache[a].ready ==> t.cache[a].ready)
    decreases k
  {
    hide Inv, Checked, Before, BroadcastAt;
    if j < k {
      RunGrows(number, es, j, k - 1);
      RunInv(number, es, k - 1);
      CheckedKeeps(Before(number, es, k - 1), Before(number, es, k), es[k - 1].1, es[k - 1].0, BroadcastAt(number, es, k - 1));
    }
  }

  // ----- Ready blocks -----

  /** The step before `k` that made `x` ready. */
  function Since(number: nat, es: History, k: nat, x: Header): (j: nat)
    requires k <= |es|
    ensures k > 0 ==> j < k
  {
    if k == 0 then 0 else if Ready(Before(number, es, k - 1).cache, x) then Since(number, es, k - 1, x) else k - 1
  }

  /** Step `j` made `x` ready, `x` passed the checks of that step, and it stayed ready up to `k`. */
  ghost predicate ReadyFrom(number: nat, es: History, j: nat, k: nat, x: Header)
    requires k <= |es|
  {
    && j < k && Accepts(Before(number, es, j).cache, Before(number, es, j + 1).cache, x)
    && Passed(es[j].1, x, BroadcastAt(number, es, j))
    && forall i | j < i <= k :: Ready(Before(number, es, i).cache, x)
  }

  /** Every ready block goes back to a step whose checks it passed. */
  lemma {:induction false} ReadyChecked(number: nat, es: History, k: nat, x: Header)
    requires k <= |es| && Ready(Before(number, es, k).cache, x)
    ensures ReadyFrom(number, es, Since(number, es, k, x), k, x)
  {
    hide Before, BroadcastAt, Inv;
    AtStart(number, es);
    RunInv(number, es, k - 1);
    var s := Before(number, es, k - 1);
    if Ready(s.cache, x) {
      ReadyChecked(number, es, k - 1, x);
    }
  }

  // ----- Given blocks -----

  function Given(number: nat, es: History): seq<Header> {
    Before(number, es, |es|).given
  }

  /** The step before `k` that gave the `i`-th block. */
  function GivenAt(number: nat, es: History, k: nat, i: nat): (g: nat)
    requires k <= |es|
    ensures k > 0 ==> g < k
  {
    if k == 0 then 0 else if i < |Before(number, es, k - 1).given| then GivenAt(number, es, k - 1, i) else k - 1
  }

  lemma {:induction false} GivenAtIs(number: nat, es: History, k: nat, i: nat)
    requires k <= |es| && i < |Before(number, es, k).given|
    ensures var g := GivenAt(number, es, k, i);
            g < k && |Before(number, es, g).given| == i && Gives(Before(number, es, g).given, Before(number, es, g + 1).given, Before(number, es, k).given[i])
  {
    hide Before, BroadcastAt, Checked, Inv;
    AtStart(number, es);
    RunInv(number, es, k - 1);
    var s, t := Before(number, es, k - 1), Before(number, es, k);
    CheckedKeeps(s, t, es[k - 1].1, es[k - 1].0, BroadcastAt(number, es, k - 1));
    if i < |s.given| {
      GivenAtIs(number, es, k - 1, i);
    }
  }

  /** The step that decided on the `i`-th block given: the one that gave it, if others inserted it, or else the one that made it ready. */
  function DecidedAt(number: nat, es: History, i: nat): (d: nat)
    requires es != []
    ensures d < |es|
  {
    var g := GivenAt(number, es, |es|, i);
    if es[g].0.InsertInfo? || i >= |Given(number, es)| then g else Since(number, es, g + 1, Given(number, es)[i])
  }

  /** The `i`-th block given was ready, and had passed the checks of the step that made it so; or else others inserted
      it, it is vouched for, and a ready block with the same hash had passed. */
  ghost predicate GivenChecked(number: nat, es: History, i: nat)
    requires i < |Given(number, es)| && es != []
  {
    var g, d, x := GivenAt(number, es, |es|, i), DecidedAt(number, es, i), Given(number, es)[i];
    if es[g].0.InsertInfo? then
      var cache := Before(number, es, g).cache;
      && es[g].0.header == x && Vouched(es[g].1, x, BroadcastAt(number, es, g))
      && x.core.leader in cache && cache[x.core.leader].header.core == x.core
      && var y := cache[x.core.leader].header; ReadyFrom(number, es, Since(number, es, g, y), g, y)
    else ReadyFrom(number, es, d, g + 1, x)
  }

  /** Every block given to the chain was checked. */
  lemma {:induction false} EveryGivenChecked(number: nat, es: History, i: nat)
    requires i < |Given(number, es)|
    ensures es != [] && GivenChecked(number, es, i)
  {
    GivenAtIs(number, es, |es|, i);
    var g, x := GivenAt(number, es, |es|, i), Given(number, es)[i];
    RunInv(number, es, g);
    GivenStep(number, es, g, x);
  }

  lemma {:induction false} GivenStep(number: nat, es: History, g: nat, x: Header)
    requires g < |es| && Gives(Before(number, es, g).given, Before(number, es, g + 1).given, x)
    ensures var cache := Before(number, es, g).cache;
            if es[g].0.InsertInfo? then
              && es[g].0.header == x && Vouched(es[g].1, x, BroadcastAt(number, es, g))
              && x.core.leader in cache && cache[x.core.leader].header.core == x.core
              && var y := cache[x.core.leader].header; ReadyFrom(number, es, Since(number, es, g, y), g, y)
            else ReadyFrom(number, es, Since(number, es, g + 1, x), g + 1, x)
  {
    RunInv(number, es, g);
    var s, t, e := Before(number, es, g), Before(number, es, g + 1), es[g].0;
    hide Before, BroadcastAt, ReadyFrom, Since, Inv, CacheOk, Vouched;
    assert s.given + [x] != s.given;
    if e.InsertInfo? {
      assert t.given[|s.given|] == x;
      ReadyChecked(number, es, g, s.cache[x.core.leader].header);
    } else {
      assert t.given[|s.given|] == x;
      ReadyChecked(number, es, g + 1, x);
    }
  }

  /** Every block that is ready after the run goes back to a step whose checks it passed. */
  ghost predicate AllReadyChecked(number: nat, es: History) {
    forall x :: Ready(Before(number, es, |es|).cache, x) ==> ReadyFrom(number, es, Since(number, es, |es|, x), |es|, x)
  }

  ghost predicate AllGivenChecked(number: nat, es: History) {
    forall i :: 0 <= i < |Given(number, es)| ==> es != [] && GivenChecked(number, es, i)
  }

  /** After any run all that is ready and all that was given has been checked. */
  lemma {:induction false} RunChecked(number: nat, es: History)
    ensures AllReadyChecked(number, es) && AllGivenChecked(number, es)
  {
    hide ReadyFrom, Since, Before, Ready;
    forall x | Ready(Before(number, es, |es|).cache, x) ensures ReadyFrom(number, es, Since(number, es, |es|, x), |es|, x) {
      ReadyChecked(number, es, |es|, x);
    }
    hide GivenChecked, Given;
    forall i | 0 <= i < |Given(number, es)| ensures es != [] && GivenChecked(number, es, i) {
      EveryGivenChecked(number, es, i);
    }
  }

  // ----- The seals of given blocks -----

  /** Had the seal of the `i`-th block given not passed at the step that decided on it, the step would not have decided so. */
  predicate SealTested(number: nat, es: History, i: nat)
    requires i < |Given(number, es)| && es != []
  {
    var d, x := DecidedAt(number, es, i), Given(number, es)[i];
    var s, env, e := Before(number, es, d), es[d].1, es[d].0;
    var t := Step(s, Refusing(env, x), e);
    if es[GivenAt(number, es, |es|, i)].0.InsertInfo? then t.given == s.given else !Accepts(s.cache, t.cache, x)
  }

  /** The seal of a given block was tested if and only if the step that decided on it did not take the height for a
      broadcast height; and then it passed. */
  lemma {:induction false} SealTestedIff(number: nat, es: History, i: nat)
    requires i < |Given(number, es)| && es != []
    ensures var d := DecidedAt(number, es, i);
            && (SealTested(number, es, i) <==> !BroadcastAt(number, es, d))
            && (SealTested(number, es, i) ==> es[d].1.sealOk(Given(number, es)[i]))
  {
    hide Inv, Checked, Step, AsBroadcast, GivenAt, Since, Before, Passed, Vouched;
    EveryGivenChecked(number, es, i);
    GivenAtIs(number, es, |es|, i);
    var g, d, x := GivenAt(number, es, |es|, i), DecidedAt(number, es, i), Given(number, es)[i];
    var s, env, e := Before(number, es, d), es[d].1, es[d].0;
    RunInv(number, es, d);
    NextStep(number, es, d);
    if es[g].0.InsertInfo? {
      assert s.given + [x] != s.given;
      InsertSealDecides(s, env, x);
    } else {
      SealDecides(s, env, e, x);
    }
  }

  /** Every given block had its seal tested, if and only if none was decided on at a step that took the height for a broadcast height. */
  lemma {:induction false} AllTestedIff(number: nat, es: History)
    requires es != []
    ensures (forall i | 0 <= i < |Given(number, es)| :: SealTested(number, es, i))
            <==> (forall i | 0 <= i < |Given(number, es)| :: !BroadcastAt(number, es, DecidedAt(number, es, i)))
  {
    forall i | 0 <= i < |Given(number, es)|
      ensures SealTested(number, es, i) <==> !BroadcastAt(number, es, DecidedAt(number, es, i))
    {
      SealTestedIff(number, es, i);
    }
    hide SealTested, BroadcastAt, DecidedAt, Given;
  }

  // ----- A height that changes its kind -----

  /** A world in which no seal ever passes. */
  function Unsealing(i: Interval): Env {
    Env(2, [1], [1], [1], h => true, h => false, h => true, h => true, h => true, true, c => [], a => false, false, h => None, a => false,
        Some(i), c => None, Some(i))
  }

  function Block(): Header {
    Header(Core(1, 0, 5, 1), 0)
  }

  /** By the first interval height 5 is a broadcast height, by the second it is not. */
  const FIRST := Interval(0, 5)
  const SECOND := Interval(0, 100)

  /** The process starts, receives a broadcast result, is given a leader after its parent changed, and must make the next block. */
  function Changing(): History {
    [(Event.Run(Validator, FIRST), Unsealing(FIRST)), (BroadcastResult(1, Block()), Unsealing(FIRST)),
     (CurLeader(1, 1), Unsealing(SECOND)), (NextLeader(1, 2), Unsealing(SECOND))]
  }

  lemma {:induction false} FirstStep()
    ensures Step(Start(5), Unsealing(FIRST), Event.Run(Validator, FIRST))
            == Start(5).(role := Validator, stage := RESULT_VERIFY, interval := Some(FIRST))
  {
    var s := Start(5).(role := Validator, stage := RESULT_VERIFY, interval := Some(FIRST));
    assert [1][..0] == [];
    assert PickBroadcast(s, Unsealing(FIRST), []) == None;
    assert PickBroadcast(s, Unsealing(FIRST), [1]) == None;
  }

  lemma {:induction false} SecondStep(s: State)
    requires s == Start(5).(role := Validator, stage := RESULT_VERIFY, interval := Some(FIRST))
    ensures Step(s, Unsealing(FIRST), BroadcastResult(1, Block()))
            == s.(stage := BLOCK_INSERT, results := map[1 := Block()], cache := map[1 := Entry(Block(), true)])
  {
    var t := s.(results := map[1 := Block()]);
    assert [1][..0] == [];
    assert PickBroadcast(t, Unsealing(FIRST), []) == None;
    assert PickBroadcast(t, Unsealing(FIRST), [1]) == Some(Block());
  }

  lemma {:induction false} ThirdStep(s: State)
    requires s.number == 5 && s.role == Validator && s.stage == BLOCK_INSERT && s.interval == Some(FIRST) && s.curLeader == NO_ACCOUNT
    requires s.cache == map[1 := Entry(Block(), true)]
    ensures Step(s, Unsealing(SECOND), CurLeader(1, 1)) == s.(curLeader := 1, turn := 1, interval := Some(SECOND), nextLeader := NO_ACCOUNT)
  {
  }

  lemma {:induction false} FourthStep(s: State)
    requires s.number == 5 && s.role == Validator && s.stage == BLOCK_INSERT && s.interval == Some(SECOND) && s.nextLeader == NO_ACCOUNT
    requires s.cache == map[1 := Entry(Block(), true)]
    ensures Step(s, Unsealing(SECOND), NextLeader(1, 2)) == s.(stage := END, nextLeader := 2, given := s.given + [Block()])
  {
  }

  lemma {:induction false} ChangingStates()
    ensures var es := Changing();
            && Before(5, es, 0) == Start(5)
            && Before(5, es, 1) == Start(5).(role := Validator, stage := RESULT_VERIFY, interval := Some(FIRST))
            && (var s := Before(5, es, 2); s.cache == map[1 := Entry(Block(), true)] && s.given == [])
            && (var s := Before(5, es, 3); s.cache == map[1 := Entry(Block(), true)] && s.given == [] && s.interval == Some(SECOND) && s.number == 5)
            && (var s := Before(5, es, 4); s.cache == map[1 := Entry(Block(), true)] && s.given == [Block()] && s.interval == Some(SECOND))
  {
    var es := Changing();
    hide Step, Before, Unsealing;
    AtStart(5, es);
    NextStep(5, es, 0);
    FirstStep();
    NextStep(5, es, 1);
    SecondStep(Before(5, es, 1));
    NextStep(5, es, 2);
    ThirdStep(Before(5, es, 2));
    NextStep(5, es, 3);
    FourthStep(Before(5, es, 3));
  }

  /** Block() is given at a height that is no broadcast height by the interval then in force, and no seal ever passed:
      it was made ready while another interval made the height a broadcast height. */
  lemma {:induction false} UnsealedBlockGiven()
    ensures var es := Changing();
            && Given(5, es) == [Block()] && GivenAt(5, es, 4, 0) == 3 && !BroadcastAt(5, es, 3)
            && DecidedAt(5, es, 0) == 1 && BroadcastAt(5, es, 1) && !SealTested(5, es, 0)
            && forall k, x: Header | 0 <= k < |es| :: !es[k].1.sealOk(x)
  {
    var es := Changing();
    ChangingStates();
    assert !BroadcastAt(5, es, 3) by { hide Step, Before, Unsealing; }
    assert BroadcastAt(5, es, 1) by { hide Step, Before, Unsealing; }
    hide Step, Before, BroadcastAt;
    assert Since(5, es, 2, Block()) == 1;
    assert Since(5, es, 3, Block()) == 1;
    assert Since(5, es, 4, Block()) == 1;
    SealTestedIff(5, es, 0);
    hide SealTested;
  }
}
