/**
  When the time index of revocable records agrees with the live records: after a new record, at the end
  of a block, after a revert, and over whole runs. Entries wait in a queue until a block ends or a revert
  commits them.
 */
module RevertIndex {
  import opened Ledger
  import opened Options
  import opened Records
  import opened Reverts
  import opened TimeIndex

  // ----- Maps of maps -----

  /** What an index holds at a time for a hash. */
  function At(index: Times, t: nat, h: Hash): Option<Record> {
    if t in index && h in index[t] then Some(index[t][h]) else None
  }

  ghost predicate Full(index: Times) {
    forall t <- index :: index[t] != map[]
  }

  lemma {:induction false} EnteredAt(was: Times, time: nat, data: Live, lost: bool, t: nat, h: Hash)
    ensures At(Entered(was, time, data, lost), t, h)
            == if time == t && h in data then Some(data[h]) else if lost && time == t then None else At(was, t, h)
  {
  }

  lemma {:induction false} EnteredFull(was: Times, time: nat, data: Live, lost: bool)
    requires Full(was) && data != map[]
    ensures Full(Entered(was, time, data, lost))
  {
    var h :| h in data;
    assert h in Entered(was, time, data, lost)[time];
  }

  // ----- Index and queue together -----

  /** What the queue holds at a time for a hash, the latest entry first. */
  ghost function Waiting(q: seq<Queued>, t: nat, h: Hash): Option<Record> {
    if q == [] then None
    else
      var x := q[|q| - 1];
      if x.kind == Revocable && x.time == t && h in x.data then Some(x.data[h]) else Waiting(q[..|q| - 1], t, h)
  }

  /** What index and queue hold together. */
  ghost function Held(tree: TimeTree, q: seq<Queued>, t: nat, h: Hash): Option<Record> {
    if Waiting(q, t, h).Some? then Waiting(q, t, h) else At(Contents(tree), t, h)
  }

  /** What they should hold. */
  ghost function Due(live: Live, t: nat, h: Hash): Option<Record> {
    if h in live && live[h].kind == Revocable && live[h].time == t then Some(live[h]) else None
  }

  /** No record waits that is there already, in the index or earlier in the queue. */
  ghost predicate Once(tree: TimeTree, q: seq<Queued>) {
    q != [] ==>
      var n := |q| - 1;
      Once(tree, q[..n]) && (q[n].kind == Revocable ==> forall h <- q[n].data :: Held(tree, q[..n], q[n].time, h) == None)
  }

  ghost predicate Exact(tree: TimeTree, q: seq<Queued>, live: Live) {
    && Full(Contents(tree)) && Once(tree, q)
    && forall t: nat, h: Hash {:trigger Due(live, t, h)} :: Held(tree, q, t, h) == Due(live, t, h)
  }

  /** Index and queue hold exactly the live revocable records, each once and under its creation time, and the index has
      no empty time. */
  ghost predicate Agrees(w: World) {
    Exact(w.revocable, w.queue, w.live)
  }

  lemma {:induction false} WaitingMore(q: seq<Queued>, x: Queued, t: nat, h: Hash)
    ensures Waiting(q + [x], t, h) == if x.kind == Revocable && x.time == t && h in x.data then Some(x.data[h]) else Waiting(q, t, h)
  {
    assert (q + [x])[..|q|] == q;
  }

  lemma {:induction false} OnceMore(tree: TimeTree, q: seq<Queued>, x: Queued)
    requires Once(tree, q) && (x.kind == Revocable ==> forall h <- x.data :: Held(tree, q, x.time, h) == None)
    ensures Once(tree, q + [x])
  {
    assert (q + [x])[..|q|] == q;
  }

  // ----- New records -----

  lemma {:induction false} ExactMore(tree: TimeTree, q: seq<Queued>, live: Live, h: Hash, r: Record)
    requires Exact(tree, q, live) && h !in live
    ensures Exact(tree, q + [Queued(r.kind, r.time, map[h := r])], live[h := r])
  {
    var x, more := Queued(r.kind, r.time, map[h := r]), live[h := r];
    hide Contents, TreeValid;
    assert Held(tree, q, r.time, h) == Due(live, r.time, h) == None;
    OnceMore(tree, q, x);
    hide Once, Full;
    forall t: nat, g: Hash ensures Held(tree, q + [x], t, g) == Due(more, t, g) {
      WaitingMore(q, x, t, g);
      assert Held(tree, q, t, g) == Due(live, t, g);
    }
  }

  /** A new record, revocable or timed, keeps the agreement: it is queued. */
  lemma {:induction false} CreateAgrees(w: World, h: Hash, r: Record)
    requires Agrees(w) && h !in w.live
    ensures Agrees(Create(w, h, r))
  {
    hide Create, Exact;
    CreateQueues(w, h, r);
    ExactMore(w.revocable, w.queue, w.live, h, r);
  }

  lemma {:induction false} CreateQueues(w: World, h: Hash, r: Record)
    ensures var v := Create(w, h, r);
            v.queue == w.queue + [Queued(r.kind, r.time, map[h := r])] && v.revocable == w.revocable && v.live == w.live[h := r]
  {
  }

  // ----- Commits -----

  /** No entry of the queue overwrites what the B-tree holds for its time when its turn comes. */
  ghost predicate Merges(tree: TimeTree, q: seq<Queued>) {
    q != [] ==>
      var n := |q| - 1;
      Merges(tree, q[..n]) && (q[n].kind == Revocable && q[n].data != map[] ==> !Overwrites(Flush(tree, q[..n], Revocable), q[n].time))
  }

  lemma {:induction false} FlushAt(tree: TimeTree, q: seq<Queued>, t: nat, h: Hash)
    requires Merges(tree, q)
    ensures At(Contents(Flush(tree, q, Revocable)), t, h) == Held(tree, q, t, h)
  {
    hide Contents, Enter, Overwrites, TreeValid, Entered, At;
    if q != [] {
      var n := |q| - 1;
      var u, x := Flush(tree, q[..n], Revocable), q[n];
      FlushAt(tree, q[..n], t, h);
      EnterContents(u, x.time, x.data);
      EnteredAt(Contents(u), x.time, x.data, false, t, h);
    }
  }

  lemma {:induction false} FlushFull(tree: TimeTree, q: seq<Queued>)
    requires Full(Contents(tree))
    ensures Full(Contents(Flush(tree, q, Revocable)))
  {
    hide Contents, Enter, Overwrites, TreeValid, Entered, Full;
    if q != [] {
      var n := |q| - 1;
      var u, x := Flush(tree, q[..n], Revocable), q[n];
      FlushFull(tree, q[..n]);
      if x.kind == Revocable && x.data != map[] {
        EnterContents(u, x.time, x.data);
        EnteredFull(Contents(u), x.time, x.data, Overwrites(u, x.time));
      }
    }
  }

  /** An entry that overwrites loses a record for good. */
  lemma {:induction false} FlushLoses(tree: TimeTree, q: seq<Queued>) returns (t: nat, h: Hash)
    requires Full(Contents(tree)) && Once(tree, q) && !Merges(tree, q)
    ensures Held(tree, q, t, h).Some? && At(Contents(Flush(tree, q, Revocable)), t, h) == None
  {
    var n := |q| - 1;
    var u, x := Flush(tree, q[..n], Revocable), q[n];
    if Merges(tree, q[..n]) {
      t := x.time;
      FlushFull(tree, q[..n]);
      EnterContents(u, x.time, x.data);
      h :| h in Contents(u)[t];
      FlushAt(tree, q[..n], t, h);
    } else {
      t, h := FlushLoses(tree, q[..n]);
      EnterContents(u, x.time, x.data);
    }
    hide Contents, Enter, Overwrites, TreeValid, Entered, Flush;
    EnteredAt(Contents(u), x.time, x.data, Overwrites(u, x.time), t, h);
  }

  /** Committing the queue keeps the agreement if and only if no entry meets its time as the median of a full node. */
  lemma {:induction false} CommitAgrees(tree: TimeTree, q: seq<Queued>, live: Live)
    requires Exact(tree, q, live)
    ensures Exact(Flush(tree, q, Revocable), [], live) <==> Merges(tree, q)
  {
    var now := Flush(tree, q, Revocable);
    FlushFull(tree, q);
    hide Flush, Contents, TreeValid, Full;
    if Merges(tree, q) {
      forall t: nat, h: Hash ensures Held(now, [], t, h) == Due(live, t, h) {
        FlushAt(tree, q, t, h);
      }
    } else {
      var t, h := FlushLoses(tree, q);
      assert Held(now, [], t, h) == None && Held(tree, q, t, h) == Due(live, t, h);
    }
  }

  /** The end of a block keeps the agreement on the same condition. */
  lemma {:induction false} EndAgrees(w: World)
    requires Agrees(w)
    ensures Agrees(EndBlock(w)) <==> Merges(w.revocable, w.queue)
  {
    hide Exact, Flush, Merges, Written;
    CommitAgrees(w.revocable, w.queue, w.live);
  }

  // ----- Taking a hash out of the index -----

  lemma {:induction false} OnceApart(tree: TimeTree, q: seq<Queued>, t: nat, h: Hash)
    requires Once(tree, q) && Waiting(q, t, h).Some?
    ensures At(Contents(tree), t, h) == None
  {
    hide Contents, TreeValid, At;
    var n := |q| - 1;
    if !(q[n].kind == Revocable && q[n].time == t && h in q[n].data) {
      OnceApart(tree, q[..n], t, h);
    }
  }

  lemma {:induction false} ErasedAt(tree: TimeTree, time: nat, t: nat, h: Hash)
    ensures At(Contents(Erase(tree, time)), t, h) == if t == time then None else At(Contents(tree), t, h)
  {
    EraseContents(tree, time);
    hide Contents, Erase, TreeValid;
  }

  lemma {:induction false} OnceErased(tree: TimeTree, q: seq<Queued>, time: nat)
    requires Once(tree, q)
    ensures Once(Erase(tree, time), q)
  {
    hide Contents, Erase, TreeValid, At;
    if q != [] {
      var n := |q| - 1;
      OnceErased(tree, q[..n], time);
      if q[n].kind == Revocable {
        forall h <- q[n].data ensures Held(Erase(tree, time), q[..n], q[n].time, h) == None {
          ErasedAt(tree, time, q[n].time, h);
        }
      }
    }
  }

  /** What is queued for a time that is taken out. */
  function Rest(tree: TimeTree, time: nat, x: Hash): Queued
    requires time in Contents(tree)
  {
    Queued(Revocable, time, Contents(tree)[time] - {x})
  }

  /** With the time taken out and the rest of it queued, all is held as before, but `x` at that time only as far as it
      was waiting in the queue. */
  lemma {:induction false} RestHeld(tree: TimeTree, q: seq<Queued>, time: nat, x: Hash, t: nat, h: Hash)
    requires Once(tree, q) && time in Contents(tree)
    ensures Held(Erase(tree, time), q + [Rest(tree, time, x)], t, h)
            == if t == time && h == x then Waiting(q, t, h) else Held(tree, q, t, h)
  {
    ErasedAt(tree, time, t, h);
    WaitingMore(q, Rest(tree, time, x), t, h);
    if Waiting(q, t, h).Some? {
      OnceApart(tree, q, t, h);
    }
    hide Contents, Erase, TreeValid, Once;
  }

  lemma {:induction false} RestOnce(tree: TimeTree, q: seq<Queued>, time: nat, x: Hash)
    requires Once(tree, q) && Full(Contents(tree)) && time in Contents(tree)
    ensures Once(Erase(tree, time), q + [Rest(tree, time, x)]) && Full(Contents(Erase(tree, time)))
  {
    EraseContents(tree, time);
    OnceErased(tree, q, time);
    var e := Rest(tree, time, x);
    hide Erase, TreeValid;
    forall h <- e.data ensures Held(Erase(tree, time), q, time, h) == None {
      ErasedAt(tree, time, time, h);
      if Waiting(q, time, h).Some? {
        OnceApart(tree, q, time, h);
      }
    }
    OnceMore(Erase(tree, time), q, e);
  }

  lemma {:induction false} TakeOutIs(w: World, time: nat, x: Hash)
    ensures var v := TakeOut(w, time, x);
            && v.live == w.live
            && if time in Contents(w.revocable)
               then v.queue == [] && v.revocable == Flush(Erase(w.revocable, time), w.queue + [Rest(w.revocable, time, x)], Revocable)
               else v.queue == w.queue && v.revocable == w.revocable
  {
    hide Flush, Erase, Contents;
  }

  /** The commit that taking a time out makes is without overwriting. */
  ghost predicate CleanOut(w: World, time: nat, x: Hash) {
    time in Contents(w.revocable) ==> Merges(Erase(w.revocable, time), w.queue + [Rest(w.revocable, time, x)])
  }

  /** Every commit of a revert is. */
  ghost predicate Clean(w: World, order: seq<nat>, x: Hash)
    decreases |order|
  {
    order != [] ==> var n := |order| - 1; Clean(w, order[..n], x) && CleanOut(TakeOutAll(w, order[..n], x), order[n], x)
  }

  lemma {:induction false} TakeOutHeld(w: World, time: nat, x: Hash)
    requires Once(w.revocable, w.queue) && Full(Contents(w.revocable)) && CleanOut(w, time, x)
    ensures var v := TakeOut(w, time, x);
            && Once(v.revocable, v.queue) && Full(Contents(v.revocable))
            && forall t: nat, h: Hash {:trigger Held(v.revocable, v.queue, t, h)} ::
                 Held(v.revocable, v.queue, t, h)
                 == if time in Contents(w.revocable) && t == time && h == x then Waiting(w.queue, t, h) else Held(w.revocable, w.queue, t, h)
  {
    var v := TakeOut(w, time, x);
    TakeOutIs(w, time, x);
    hide TakeOut, Flush, Erase, TreeValid;
    if time in Contents(w.revocable) {
      var tree, q := Erase(w.revocable, time), w.queue + [Rest(w.revocable, time, x)];
      RestOnce(w.revocable, w.queue, time, x);
      FlushFull(tree, q);
      hide Contents, Merges;
      forall t: nat, h: Hash
        ensures Held(v.revocable, v.queue, t, h) == if t == time && h == x then Waiting(w.queue, t, h) else Held(w.revocable, w.queue, t, h)
      {
        FlushAt(tree, q, t, h);
        RestHeld(w.revocable, w.queue, time, x, t, h);
      }
    }
  }

  /** Taking `x` out of any number of times leaves every other hash alone. */
  lemma {:induction false} TakeAllHeld(w: World, order: seq<nat>, x: Hash, t: nat, h: Hash)
    requires Once(w.revocable, w.queue) && Full(Contents(w.revocable)) && Clean(w, order, x)
    ensures var v := TakeOutAll(w, order, x);
            Once(v.revocable, v.queue) && Full(Contents(v.revocable)) && (h != x ==> Held(v.revocable, v.queue, t, h) == Held(w.revocable, w.queue, t, h))
    decreases |order|
  {
    hide TakeOut, Once, Full, Held, CleanOut, Contents, TreeValid;
    if order != [] {
      var n := |order| - 1;
      TakeAllHeld(w, order[..n], x, t, h);
      TakeOutHeld(TakeOutAll(w, order[..n], x), order[n], x);
    }
  }

  // ----- Reverts -----

  lemma {:induction false} InTimes(w: World, hs: seq<Hash>, from: Addr, coin: Coin, h: Hash)
    requires Taken(w, hs, from, coin, h)
    ensures Get(w, h).value.time in TimesOf(w, hs, from, coin)
    decreases |hs|
  {
    var n := |hs| - 1;
    if hs[n] != h {
      assert h in hs[..n];
      InTimes(w, hs[..n], from, coin, h);
    }
  }

  lemma {:induction false} FromTimes(w: World, hs: seq<Hash>, from: Addr, coin: Coin, t: nat) returns (h: Hash)
    requires t in TimesOf(w, hs, from, coin)
    ensures Taken(w, hs, from, coin, h) && Get(w, h).value.time == t
    decreases |hs|
  {
    var n := |hs| - 1;
    if Effective(w, hs[n], from, coin) && Get(w, hs[n]).value.time == t {
      h := hs[n];
    } else {
      h := FromTimes(w, hs[..n], from, coin, t);
    }
  }

  /** Each time once, in some order. */
  ghost predicate Listing(order: seq<nat>, times: set<nat>) {
    (forall i, j :: 0 <= i < j < |order| ==> order[i] != order[j]) && forall t :: t in order <==> t in times
  }

  lemma {:induction false} ListingIn(order: seq<nat>, times: set<nat>)
    requires Listing(order, times)
    ensures forall i :: 0 <= i < |order| ==> order[i] in times
  {
    forall i | 0 <= i < |order| ensures order[i] in times {
      assert order[i] in order;
    }
  }

  lemma {:induction false} FirstTwo(order: seq<nat>, times: set<nat>)
    requires forall i :: 0 <= i < |order| ==> order[i] in times
    ensures |order| > 0 ==> order[0] in times
    ensures |order| > 1 ==> order[1] in times
  {
  }

  lemma {:induction false} ListingOne(order: seq<nat>, t: nat)
    requires Listing(order, {t})
    ensures order == [t]
  {
    assert t in order;
    ListingIn(order, {t});
    FirstTwo(order, {t});
  }

  lemma {:induction false} ListingNone(order: seq<nat>)
    requires Listing(order, {})
    ensures order == []
  {
    ListingIn(order, {});
    FirstTwo(order, {});
  }

  /** The only effective hash is the last one named. */
  ghost predicate OnlyLast(w: World, hs: seq<Hash>, from: Addr, coin: Coin)
    requires hs != []
  {
    forall h <- hs :: Effective(w, h, from, coin) ==> h == hs[|hs| - 1]
  }

  /** It has reached the index: it is not waiting in the queue. */
  ghost predicate Settled(w: World, h: Hash) {
    h in w.live ==> Waiting(w.queue, w.live[h].time, h) == None
  }

  lemma {:induction false} FreshLive(w: World, hs: seq<Hash>, from: Addr, coin: Coin, h: Hash)
    requires StoreOk(w) && Fresh(w, hs, from, coin) && Taken(w, hs, from, coin, h)
    ensures h in w.live && Get(w, h) == Some(w.live[h]) && w.live[h].kind == Revocable
  {
    var i :| 0 <= i < |hs| && hs[i] == h;
    assert Effective(w, hs[i], from, coin);
    LiveAnswers(w, h, from, coin);
  }

  lemma {:induction false} OneTime(w: World, hs: seq<Hash>, from: Addr, coin: Coin)
    requires hs != [] && OnlyLast(w, hs, from, coin)
    ensures TimesOf(w, hs, from, coin) == if Effective(w, hs[|hs| - 1], from, coin) then {Get(w, hs[|hs| - 1]).value.time} else {}
  {
    var last := hs[|hs| - 1];
    if Effective(w, last, from, coin) {
      InTimes(w, hs, from, coin, last);
    }
    forall t | t in TimesOf(w, hs, from, coin)
      ensures Effective(w, last, from, coin) && t == Get(w, last).value.time
    {
      var h := FromTimes(w, hs, from, coin, t);
    }
  }

  /** The index side of a revert: everything but what is taken out stays as it was. */
  lemma {:induction false} SameQueue(w: World, hs: seq<Hash>, from: Addr, coin: Coin)
    ensures var u := RevertAll(w, hs, from, coin); u.revocable == w.revocable && u.queue == w.queue
    decreases |hs|
  {
    hide Apply, Back;
    if hs != [] {
      SameQueue(w, hs[..|hs| - 1], from, coin);
    }
  }

  /** A fresh revert whose commits overwrite nothing keeps the agreement if and only if the only record it gives back
      is the one named last, and that one has reached the index. */
  lemma {:induction false} RevertAgrees(w: World, hs: seq<Hash>, from: Addr, coin: Coin, order: seq<nat>)
    requires hs != [] && StoreOk(w) && Agrees(w) && Fresh(w, hs, from, coin) && Listing(order, TimesOf(w, hs, from, coin))
    requires Clean(RevertAll(w, hs, from, coin), order, hs[|hs| - 1])
    ensures Agrees(Revert(w, hs, from, coin, order))
            <==> OnlyLast(w, hs, from, coin) && (Effective(w, hs[|hs| - 1], from, coin) ==> Settled(w, hs[|hs| - 1]))
  {
    var u, last := RevertAll(w, hs, from, coin), hs[|hs| - 1];
    SameQueue(w, hs, from, coin);
    if !OnlyLast(w, hs, from, coin) {
      var h :| h in hs && Effective(w, h, from, coin) && h != last;
      StaysHeld(w, hs, from, coin, order, h);
    } else if Effective(w, last, from, coin) {
      OneTime(w, hs, from, coin);
      FreshLive(w, hs, from, coin, last);
      ListingOne(order, w.live[last].time);
      LastOut(w, hs, from, coin);
    } else {
      OneTime(w, hs, from, coin);
      ListingNone(order);
      NothingOut(w, hs, from, coin);
    }
  }

  lemma {:induction false} StaysHeld(w: World, hs: seq<Hash>, from: Addr, coin: Coin, order: seq<nat>, h: Hash)
    requires hs != [] && StoreOk(w) && Agrees(w) && Fresh(w, hs, from, coin) && Clean(RevertAll(w, hs, from, coin), order, hs[|hs| - 1])
    requires Taken(w, hs, from, coin, h) && h != hs[|hs| - 1]
    ensures !Agrees(Revert(w, hs, from, coin, order))
  {
    var u, last, v := RevertAll(w, hs, from, coin), hs[|hs| - 1], Revert(w, hs, from, coin, order);
    SameQueue(w, hs, from, coin);
    FreshLive(w, hs, from, coin, h);
    RevertLive(w, hs, from, coin, h);
    RevertIs(w, hs, from, coin, order);
    var t := w.live[h].time;
    hide RevertAll, Clean, StoreOk, Fresh, Get, TakeOutAll, Once, Full, Taken;
    TakeAllHeld(u, order, last, t, h);
    assert Held(w.revocable, w.queue, t, h) == Due(w.live, t, h);
    assert Held(v.revocable, v.queue, t, h).Some? && Due(v.live, t, h) == None;
  }

  lemma {:induction false} NothingOut(w: World, hs: seq<Hash>, from: Addr, coin: Coin)
    requires hs != [] && Agrees(w) && forall h <- hs :: !Effective(w, h, from, coin)
    ensures Agrees(Revert(w, hs, from, coin, []))
  {
    var u := RevertAll(w, hs, from, coin);
    SameQueue(w, hs, from, coin);
    forall h ensures (h in u.live <==> h in w.live) && (h in u.live ==> u.live[h] == w.live[h]) {
      RevertLive(w, hs, from, coin, h);
    }
    assert u.live == w.live;
    hide RevertAll, Exact;
  }

  lemma {:induction false} LastLess(w: World, hs: seq<Hash>, from: Addr, coin: Coin)
    requires hs != [] && Effective(w, hs[|hs| - 1], from, coin) && forall h <- hs :: Effective(w, h, from, coin) ==> h == hs[|hs| - 1]
    ensures RevertAll(w, hs, from, coin).live == w.live - {hs[|hs| - 1]}
  {
    var u, last := RevertAll(w, hs, from, coin), hs[|hs| - 1];
    hide RevertAll, Effective;
    forall h ensures (h in u.live <==> h in w.live && h != last) && (h in u.live ==> u.live[h] == w.live[h]) {
      RevertLive(w, hs, from, coin, h);
    }
  }

  lemma {:induction false} LastOut(w: World, hs: seq<Hash>, from: Addr, coin: Coin)
    requires hs != [] && StoreOk(w) && Agrees(w) && Fresh(w, hs, from, coin) && OnlyLast(w, hs, from, coin)
    requires var last := hs[|hs| - 1];
             Effective(w, last, from, coin) && last in w.live && w.live[last].kind == Revocable
             && Clean(RevertAll(w, hs, from, coin), [w.live[last].time], last)
    ensures var last := hs[|hs| - 1]; Agrees(Revert(w, hs, from, coin, [w.live[last].time])) <==> Settled(w, last)
  {
    var u, last := RevertAll(w, hs, from, coin), hs[|hs| - 1];
    var t0 := w.live[last].time;
    var v := Revert(w, hs, from, coin, [t0]);
    SameQueue(w, hs, from, coin);
    assert [t0][..0] == [] && TakeOutAll(u, [], last) == u && v == TakeOut(u, t0, last);
    assert CleanOut(u, t0, last);
    LastLess(w, hs, from, coin);
    hide RevertAll, Revert, TakeOut, TakeOutAll, Clean, CleanOut, StoreOk, Fresh, Effective, OnlyLast, Exact, Settled;
    OutExact(w, u, last);
  }

  lemma {:induction false} OutExact(w: World, u: World, last: Hash)
    requires Agrees(w) && last in w.live && w.live[last].kind == Revocable
    requires u.revocable == w.revocable && u.queue == w.queue && u.live == w.live - {last} && CleanOut(u, w.live[last].time, last)
    ensures Agrees(TakeOut(u, w.live[last].time, last)) <==> Settled(w, last)
  {
    var t0 := w.live[last].time;
    var v := TakeOut(u, t0, last);
    hide TakeOut, CleanOut, Contents, TreeValid, Once, Full, Flush, Erase, Held, Due, Waiting;
    TakeOutIs(u, t0, last);
    TakeOutHeld(u, t0, last);
    LastDue(w, u.live, last, t0);
    if Settled(w, last) {
      forall t: nat, h: Hash ensures Held(v.revocable, v.queue, t, h) == Due(v.live, t, h) {
        LessDue(w.live, last, t, h);
        assert Held(w.revocable, w.queue, t, h) == Due(w.live, t, h);
      }
    } else {
      assert Held(v.revocable, v.queue, t0, last).Some? && Due(v.live, t0, last) == None;
    }
  }

  /** A fresh revert of the one record named last, once that has reached the index, keeps the agreement if and only if its
      commit overwrites nothing. */
  lemma {:induction false} RevertCleanly(w: World, hs: seq<Hash>, from: Addr, coin: Coin, order: seq<nat>)
    requires hs != [] && StoreOk(w) && Agrees(w) && Fresh(w, hs, from, coin) && Listing(order, TimesOf(w, hs, from, coin))
    requires OnlyLast(w, hs, from, coin) && (Effective(w, hs[|hs| - 1], from, coin) ==> Settled(w, hs[|hs| - 1]))
    ensures Agrees(Revert(w, hs, from, coin, order)) <==> Clean(RevertAll(w, hs, from, coin), order, hs[|hs| - 1])
  {
    var last := hs[|hs| - 1];
    OneTime(w, hs, from, coin);
    if Effective(w, last, from, coin) {
      FreshLive(w, hs, from, coin, last);
      ListingOne(order, w.live[last].time);
      hide OnlyLast, Listing, StoreOk;
      LastCleanly(w, hs, from, coin);
    } else {
      ListingNone(order);
      NothingOut(w, hs, from, coin);
    }
  }

  lemma {:induction false} LastCleanly(w: World, hs: seq<Hash>, from: Addr, coin: Coin)
    requires hs != [] && Agrees(w)
    requires var last := hs[|hs| - 1];
             Effective(w, last, from, coin) && last in w.live && w.live[last].kind == Revocable && Settled(w, last)
    requires forall h <- hs :: Effective(w, h, from, coin) ==> h == hs[|hs| - 1]
    ensures var last := hs[|hs| - 1];
            Agrees(Revert(w, hs, from, coin, [w.live[last].time])) <==> Clean(RevertAll(w, hs, from, coin), [w.live[last].time], last)
  {
    var u, last := RevertAll(w, hs, from, coin), hs[|hs| - 1];
    var t0 := w.live[last].time;
    hide RevertAll, TakeOut, TakeOutAll, Clean, CleanOut, Effective, Exact, Settled, TreeValid;
    SameQueue(w, hs, from, coin);
    CleanOne(u, t0, last);
    LastLess(w, hs, from, coin);
    assert Revert(w, hs, from, coin, [t0]) == TakeOut(u, t0, last);
    OutCleanly(w, u, last);
  }

  lemma {:induction false} CleanOne(u: World, t0: nat, last: Hash)
    ensures TakeOutAll(u, [t0], last) == TakeOut(u, t0, last) && (Clean(u, [t0], last) <==> CleanOut(u, t0, last))
  {
    hide TakeOut, CleanOut;
    assert [t0][..0] == [] && TakeOutAll(u, [], last) == u && Clean(u, [], last);
  }

  lemma {:induction false} OutCleanly(w: World, u: World, last: Hash)
    requires Agrees(w) && last in w.live && w.live[last].kind == Revocable && Settled(w, last)
    requires u.revocable == w.revocable && u.queue == w.queue && u.live == w.live - {last}
    ensures Agrees(TakeOut(u, w.live[last].time, last)) <==> CleanOut(u, w.live[last].time, last)
  {
    var t0 := w.live[last].time;
    LastDue(w, u.live, last, t0);
    TakeOutIs(u, t0, last);
    var tree, q := Erase(u.revocable, t0), u.queue + [Rest(u.revocable, t0, last)];
    RestOnce(u.revocable, u.queue, t0, last);
    hide TakeOut, Contents, TreeValid, Once, Full, Flush, Erase, Held, Due, Waiting, Merges, Rest;
    forall t: nat, h: Hash ensures Held(tree, q, t, h) == Due(u.live, t, h) {
      RestHeld(u.revocable, u.queue, t0, last, t, h);
      LessDue(w.live, last, t, h);
      assert Held(w.revocable, w.queue, t, h) == Due(w.live, t, h);
    }
    CommitAgrees(tree, q, u.live);
  }

  lemma {:induction false} LessDue(live: Live, last: Hash, t: nat, h: Hash)
    ensures Due(live - {last}, t, h) == if h == last then None else Due(live, t, h)
    ensures h == last && last in live && live[last].time != t ==> Due(live, t, h) == None
  {
  }

  lemma {:induction false} LastDue(w: World, less: Live, last: Hash, t0: nat)
    requires Agrees(w) && last in w.live && w.live[last].kind == Revocable && w.live[last].time == t0 && less == w.live - {last}
    ensures Held(w.revocable, w.queue, t0, last).Some? && Due(less, t0, last) == None
    ensures t0 !in Contents(w.revocable) ==> Waiting(w.queue, t0, last).Some?
  {
    assert Held(w.revocable, w.queue, t0, last) == Due(w.live, t0, last);
    hide Contents, Once, Full, TreeValid;
  }

  // ----- Whole runs -----

  /** A block end without overwriting; a fresh revert of one record that has reached the index, without overwriting. */
  ghost predicate Harmless(w: World, e: Event) {
    match e
    case BlockEnd => Merges(w.revocable, w.queue)
    case Reverting(hs, from, coin, order) => hs == [] || HarmlessRevert(w, hs, from, coin, order)
    case _ => true
  }

  ghost predicate HarmlessRevert(w: World, hs: seq<Hash>, from: Addr, coin: Coin, order: seq<nat>)
    requires hs != []
  {
    && Fresh(w, hs, from, coin) && Listing(order, TimesOf(w, hs, from, coin)) && Clean(RevertAll(w, hs, from, coin), order, hs[|hs| - 1])
    && OnlyLast(w, hs, from, coin) && (Effective(w, hs[|hs| - 1], from, coin) ==> Settled(w, hs[|hs| - 1]))
  }

  ghost predicate AllHarmless(es: seq<Event>)
    decreases |es|
  {
    es != [] ==> var n := |es| - 1; AllHarmless(es[..n]) && Harmless(Run(NOTHING, es[..n]), es[n])
  }

  lemma {:induction false} StepAgrees(w: World, e: Event)
    requires StoreOk(w) && Possible(w, e) && Agrees(w) && Harmless(w, e)
    ensures Agrees(Step(w, e))
  {
    hide Exact, Merges, EndBlock, Create, Revert, Clean, Fresh;
    match e
    case Created(h, r) =>
      assert h !in w.live;
      CreateAgrees(w, h, r);
    case Reverting(hs, from, coin, order) => if hs != [] { RevertAgrees(w, hs, from, coin, order); }
    case Moved(ds) =>
    case BlockEnd => EndAgrees(w);
  }

  /** Over all runs of such steps index and queue hold exactly the live revocable records. */
  lemma {:induction false} RunAgrees(es: seq<Event>)
    requires AllPossible(es) && AllHarmless(es)
    ensures Agrees(Run(NOTHING, es))
    decreases |es|
  {
    if es == [] {
      NothingHeld();
    } else {
      var n := |es| - 1;
      RunAgrees(es[..n]);
      RunKeeps(es[..n], "", 0);
      hide Step, StoreOk, Exact, Harmless, Possible;
      StepAgrees(Run(NOTHING, es[..n]), es[n]);
    }
  }

  lemma {:induction false} NothingHeld()
    ensures Agrees(NOTHING) && Contents(EMPTY) == map[]
  {
    assert Refs(EMPTY) == map[];
  }
}
