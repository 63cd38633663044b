/**
  The section indexer beside the canonical chain. The chain may grow or be reorganised between any two
  steps of the worker, and a reorganisation is notified at once: the notification takes the lock, and
  then cuts the index back step by step. The stored heads stay canonical except for one race: the
  section in work is read, and then reorganised from within.
 */
module IndexedChain {
  import opened Chain
  import opened ChainIndexer

  /** The indexer, and the canonical hashes by number. */
  datatype Joint = Joint(s: State, canon: seq<Hash>)

  /** A step of the indexer; a longer chain; or another chain from the block after `ancestor` on, with its notification. */
  datatype Move =
    | Work(e: Event)
    | Grow(canon: seq<Hash>)
    | Change(canon: seq<Hash>, ancestor: nat)

  /** Headers are read by their canonical hashes. */
  ghost predicate Fits(j: Joint, m: Move) {
    match m
    case Work(e) =>
      && (e.Head? ==> !e.reorg)
      && (e.Read? && j.s.worker.Reading? ==> e.hash == var n := j.s.worker.number; if n < |j.canon| then j.canon[n] else NO_HASH)
    case Grow(canon) => j.canon <= canon
    case Change(canon, a) => j.s.note.Free? && a < |j.canon| && a < |canon| && canon[..a + 1] == j.canon[..a + 1]
  }

  function Next(j: Joint, p: Config, hs: Headers, m: Move): Joint
    requires p.size > 0 && p.confirms < U64
  {
    match m
    case Work(e) => Joint(Step(j.s, p, hs, e), j.canon)
    case Grow(canon) => Joint(j.s, canon)
    case Change(canon, a) => Joint(Step(j.s, p, hs, Head(a, true)), canon)
  }

  /** The number of the last block of a section. */
  function EndOf(p: Config, section: nat): (n: nat)
    requires p.size > 0
    ensures n + 1 == section * p.size + p.size
  {
    section * p.size + p.size - 1
  }

  predicate IsCanonical(canon: seq<Hash>, n: nat, h: Hash) {
    n < |canon| && canon[n] == h
  }

  /** The sections that stay stored: those that a notification is about to cut off do not count. */
  function Counted(s: State): nat {
    if s.note.Cutting? && s.note.changed < s.stored then s.note.changed else s.stored
  }

  /** Every stored head is the canonical hash of the last block of its section. */
  ghost predicate HeadsCanonical(j: Joint, p: Config)
    requires p.size > 0
  {
    forall k: nat | k < Counted(j.s) :: k in j.s.heads && IsCanonical(j.canon, EndOf(p, k), j.s.heads[k])
  }

  /** The step stores the head of a section that is no longer canonical. */
  predicate Stale(j: Joint, p: Config, m: Move)
    requires p.size > 0
  {
    && m == Work(Finish) && j.s.worker.Done? && j.s.note.Free? && j.s.stored == j.s.worker.section
    && !IsCanonical(j.canon, EndOf(p, j.s.worker.section), j.s.worker.newHead)
  }

  lemma {:induction false} EndBelow(p: Config, k: nat, section: nat)
    requires p.size > 0 && k < section
    ensures EndOf(p, k) < section * p.size
  {
    ProductLarger(section - k - 1, p.size);
    assert section * p.size == k * p.size + p.size + (section - k - 1) * p.size;
  }

  /** A reorganisation leaves the blocks of the sections before its own as they were. */
  lemma {:induction false} ChangeKeeps(j: Joint, p: Config, hs: Headers, canon: seq<Hash>, a: nat)
    requires Inv(j.s, p, hs) && HeadsCanonical(j, p) && Fits(j, Change(canon, a))
    ensures HeadsCanonical(Next(j, p, hs, Change(canon, a)), p)
  {
    QuotientSmaller(a, p.size);
    var changed: nat := a / p.size;
    assert a == changed * p.size + a % p.size;
    var t := Next(j, p, hs, Change(canon, a));
    assert t.s.heads == j.s.heads && Counted(t.s) == if changed < j.s.stored then changed else j.s.stored;
    hide Inv, Step, EndOf;
    forall k: nat | k < Counted(t.s) ensures k in t.s.heads && IsCanonical(canon, EndOf(p, k), t.s.heads[k]) {
      var n := EndOf(p, k);
      assert IsCanonical(j.canon, n, j.s.heads[k]);
      EndAtMost(p, k, changed, a);
      assert canon[..a + 1][n] == j.canon[..a + 1][n];
    }
  }

  lemma {:induction false} EndAtMost(p: Config, k: nat, changed: nat, a: nat)
    requires p.size > 0 && k < changed && changed * p.size <= a
    ensures EndOf(p, k) < a
  {
    EndBelow(p, k, changed);
  }

  lemma {:induction false} WorkKeeps(j: Joint, p: Config, hs: Headers, e: Event)
    requires Inv(j.s, p, hs) && HeadsCanonical(j, p) && Fits(j, Work(e))
    ensures HeadsCanonical(Next(j, p, hs, Work(e)), p) <==> !Stale(j, p, Work(e))
  {
    hide EndOf, Below, Above, WorkerOk;
    if e == Finish && j.s.worker.Done? && j.s.note.Free? {
      CommitIff(j.s, p, hs);
      var k := j.s.worker.section;
      if j.s.stored == k {
        var t := Next(j, p, hs, Work(e));
        assert t.s.stored == k + 1 && k in t.s.heads && t.s.heads[k] == j.s.worker.newHead;
        assert forall i: nat | i < k :: i in t.s.heads && t.s.heads[i] == j.s.heads[i];
        hide Inv, Step;
      }
    }
  }

  /** Every step keeps the stored heads canonical, except the one that stores a stale head. */
  lemma {:induction false} MoveKeeps(j: Joint, p: Config, hs: Headers, m: Move)
    requires Inv(j.s, p, hs) && HeadsCanonical(j, p) && Fits(j, m)
    ensures HeadsCanonical(Next(j, p, hs, m), p) <==> !Stale(j, p, m)
  {
    match m
    case Work(e) => WorkKeeps(j, p, hs, e);
    case Grow(canon) =>
    case Change(canon, a) => ChangeKeeps(j, p, hs, canon, a);
  }

  // ----- Whole runs -----

  function After(j: Joint, p: Config, hs: Headers, ms: seq<Move>): Joint
    requires p.size > 0 && p.confirms < U64
  {
    if ms == [] then j else Next(After(j, p, hs, ms[..|ms| - 1]), p, hs, ms[|ms| - 1])
  }

  function At(j: Joint, p: Config, hs: Headers, ms: seq<Move>, i: nat): Joint
    requires p.size > 0 && p.confirms < U64 && i <= |ms|
  {
    After(j, p, hs, ms[..i])
  }

  lemma {:induction false} NextAt(j: Joint, p: Config, hs: Headers, ms: seq<Move>, i: nat)
    requires p.size > 0 && p.confirms < U64 && i < |ms|
    ensures At(j, p, hs, ms, 0) == j && At(j, p, hs, ms, i + 1) == Next(At(j, p, hs, ms, i), p, hs, ms[i])
  {
    assert ms[..i + 1][..i] == ms[..i];
    hide Next;
  }

  /** Every move fits when it is made, and none tears the index. */
  ghost predicate Possible(j: Joint, p: Config, hs: Headers, ms: seq<Move>)
    requires p.size > 0 && p.confirms < U64
  {
    forall i: nat | i < |ms| :: FitsAt(j, p, hs, ms, i)
  }

  ghost predicate FitsAt(j: Joint, p: Config, hs: Headers, ms: seq<Move>, i: nat)
    requires p.size > 0 && p.confirms < U64 && i < |ms|
  {
    var t := At(j, p, hs, ms, i);
    Fits(t, ms[i]) && (ms[i].Work? ==> !Torn(t.s, ms[i].e))
  }

  lemma {:induction false} InvAt(j: Joint, p: Config, hs: Headers, ms: seq<Move>, i: nat)
    requires Inv(j.s, p, hs) && Possible(j, p, hs, ms) && i <= |ms|
    ensures Inv(At(j, p, hs, ms, i).s, p, hs)
  {
    assert ConfigOk(p);
    if i == 0 {
      assert At(j, p, hs, ms, 0) == j;
    } else {
      InvAt(j, p, hs, ms, i - 1);
      NextAt(j, p, hs, ms, i - 1);
      assert FitsAt(j, p, hs, ms, i - 1);
      hide Inv, At, Step;
      var t := At(j, p, hs, ms, i - 1);
      match ms[i - 1]
      case Work(e) => StepKeeps(t.s, p, hs, e);
      case Grow(canon) =>
      case Change(canon, a) => StepKeeps(t.s, p, hs, Head(a, true));
    }
  }

  ghost predicate AlwaysCanonical(j: Joint, p: Config, hs: Headers, ms: seq<Move>)
    requires p.size > 0 && p.confirms < U64
  {
    forall i: nat | i <= |ms| :: HeadsCanonical(At(j, p, hs, ms, i), p)
  }

  ghost predicate NeverStale(j: Joint, p: Config, hs: Headers, ms: seq<Move>)
    requires p.size > 0 && p.confirms < U64
  {
    forall i: nat | i < |ms| :: !Stale(At(j, p, hs, ms, i), p, ms[i])
  }

  /** Over a run the stored heads are canonical at every moment, if and only if no step stores a stale head. */
  lemma {:induction false} RunCanonical(j: Joint, p: Config, hs: Headers, ms: seq<Move>)
    requires Inv(j.s, p, hs) && HeadsCanonical(j, p) && Possible(j, p, hs, ms)
    ensures AlwaysCanonical(j, p, hs, ms) <==> NeverStale(j, p, hs, ms)
  {
    assert ConfigOk(p);
    hide Inv, HeadsCanonical, Stale, At, Possible;
    if AlwaysCanonical(j, p, hs, ms) {
      forall i: nat | i < |ms| ensures !Stale(At(j, p, hs, ms, i), p, ms[i]) {
        CanonicalNext(j, p, hs, ms, i);
        assert HeadsCanonical(At(j, p, hs, ms, i + 1), p);
      }
    }
    if NeverStale(j, p, hs, ms) {
      forall i: nat | i <= |ms| ensures HeadsCanonical(At(j, p, hs, ms, i), p) {
        CanonicalAt(j, p, hs, ms, i);
      }
    }
  }

  lemma {:induction false} CanonicalNext(j: Joint, p: Config, hs: Headers, ms: seq<Move>, i: nat)
    requires Inv(j.s, p, hs) && Possible(j, p, hs, ms) && i < |ms| && HeadsCanonical(At(j, p, hs, ms, i), p)
    ensures HeadsCanonical(At(j, p, hs, ms, i + 1), p) <==> !Stale(At(j, p, hs, ms, i), p, ms[i])
  {
    assert ConfigOk(p);
    hide Inv, HeadsCanonical, Stale, At, Fits, Next, Torn;
    InvAt(j, p, hs, ms, i);
    NextAt(j, p, hs, ms, i);
    assert FitsAt(j, p, hs, ms, i);
    MoveKeeps(At(j, p, hs, ms, i), p, hs, ms[i]);
  }

  lemma {:induction false} CanonicalAt(j: Joint, p: Config, hs: Headers, ms: seq<Move>, i: nat)
    requires Inv(j.s, p, hs) && HeadsCanonical(j, p) && Possible(j, p, hs, ms) && i <= |ms|
    requires NeverStale(j, p, hs, ms)
    ensures HeadsCanonical(At(j, p, hs, ms, i), p)
  {
    assert ConfigOk(p);
    hide Inv, HeadsCanonical, Stale, Possible;
    if i == 0 {
      assert At(j, p, hs, ms, 0) == j;
    } else {
      hide At;
      CanonicalAt(j, p, hs, ms, i - 1);
      CanonicalNext(j, p, hs, ms, i - 1);
    }
  }

  // ----- Where a stale head comes from -----

  /** The worker has read at least one header of its section. */
  predicate HasRead(w: Worker, p: Config) {
    w.Done? || (w.Reading? && w.number > w.section * p.size)
  }

  function LastHash(w: Worker, p: Config): Hash
    requires HasRead(w, p)
  {
    if w.Done? then w.newHead else w.last
  }

  function LastNumber(w: Worker, p: Config): nat
    requires HasRead(w, p) && p.size > 0
  {
    if w.Done? then EndOf(p, w.section) else w.number - 1
  }

  /** The move reads the next header of the section. */
  predicate Reads(j: Joint, p: Config, hs: Headers, m: Move) {
    m.Work? && m.e.Read? && j.s.worker.Reading? && ReadHeader(j.s, p, hs, m.e.hash, m.e.present) != j.s.(worker := Failed)
    && j.s.worker.number < j.s.worker.section * p.size + p.size
  }

  /** The move that read the last header so far. */
  function ReadAt(j: Joint, p: Config, hs: Headers, ms: seq<Move>, n: nat): (i: nat)
    requires p.size > 0 && p.confirms < U64 && n <= |ms|
    ensures n > 0 ==> i < n
  {
    if n == 0 then 0 else if Reads(At(j, p, hs, ms, n - 1), p, hs, ms[n - 1]) then n - 1 else ReadAt(j, p, hs, ms, n - 1)
  }

  /** A move that is no read leaves what was read of the section in work as it is. */
  lemma {:induction false} NoRead(j: Joint, p: Config, hs: Headers, m: Move)
    requires Inv(j.s, p, hs) && Fits(j, m) && !Reads(j, p, hs, m)
    requires var w := Next(j, p, hs, m).s.worker; HasRead(w, p)
    ensures var w, t := j.s.worker, Next(j, p, hs, m).s;
            && HasRead(w, p) && w.section == t.worker.section && LastHash(w, p) == LastHash(t.worker, p) && LastNumber(w, p) == LastNumber(t.worker, p)
            && Counted(t) <= Counted(j.s)
  {
    hide Below, Above, Links;
    if m.Change? {
      QuotientSmaller(m.ancestor, p.size);
    }
  }

  lemma {:induction false} DidRead(j: Joint, p: Config, hs: Headers, m: Move)
    requires p.size > 0 && p.confirms < U64 && Fits(j, m) && Reads(j, p, hs, m)
    requires HasRead(Next(j, p, hs, m).s.worker, p)
    ensures var t := Next(j, p, hs, m); t.canon == j.canon && IsCanonical(j.canon, LastNumber(t.s.worker, p), LastHash(t.s.worker, p))
  {
  }

  /** What was read last was canonical when it was read. */
  lemma {:induction false} CanonicalWhenRead(j: Joint, p: Config, hs: Headers, ms: seq<Move>, n: nat)
    requires Inv(j.s, p, hs) && j.s.worker.Idle? && Possible(j, p, hs, ms) && n <= |ms| && HasRead(At(j, p, hs, ms, n).s.worker, p)
    ensures var i, w := ReadAt(j, p, hs, ms, n), At(j, p, hs, ms, n).s.worker;
            n > 0 && IsCanonical(At(j, p, hs, ms, i).canon, LastNumber(w, p), LastHash(w, p))
  {
    assert At(j, p, hs, ms, 0) == j;
    assert ConfigOk(p);
    hide At, Inv, Next, HasRead, LastHash, LastNumber, Fits, Torn, Reads;
    assert n > 0 by { NotIdle(j.s.worker, p); }
    var t := At(j, p, hs, ms, n - 1);
    NextAt(j, p, hs, ms, n - 1);
    assert FitsAt(j, p, hs, ms, n - 1);
    if Reads(t, p, hs, ms[n - 1]) {
      DidRead(t, p, hs, ms[n - 1]);
    } else {
      InvAt(j, p, hs, ms, n - 1);
      NoRead(t, p, hs, ms[n - 1]);
      CanonicalWhenRead(j, p, hs, ms, n - 1);
    }
  }

  lemma {:induction false} NotIdle(w: Worker, p: Config)
    ensures HasRead(w, p) ==> !w.Idle?
  {
  }

  /** The section that is about to be stored is stale if and only if its last block was replaced after it was read. */
  lemma {:induction false} StaleIff(j: Joint, p: Config, hs: Headers, ms: seq<Move>)
    requires Inv(j.s, p, hs) && j.s.worker.Idle? && Possible(j, p, hs, ms)
    requires var s := After(j, p, hs, ms).s; s.worker.Done? && s.note.Free? && s.stored == s.worker.section
    ensures var t, i := After(j, p, hs, ms), ReadAt(j, p, hs, ms, |ms|);
            var end := EndOf(p, t.s.worker.section);
            && i < |ms| && end < |At(j, p, hs, ms, i).canon|
            && (Stale(t, p, Work(Finish)) <==> !IsCanonical(t.canon, end, At(j, p, hs, ms, i).canon[end]))
  {
    assert ms[..|ms|] == ms;
    assert At(j, p, hs, ms, |ms|) == After(j, p, hs, ms);
    CanonicalWhenRead(j, p, hs, ms, |ms|);
    hide At, After, Inv, Possible;
  }

  /** The move reorganises the chain from within the section: the index is not cut back. */
  predicate Within(m: Move, p: Config, section: nat)
    requires p.size > 0
  {
    m.Change? && m.ancestor / p.size == section
  }

  /** Unless a move reorganises the chain from within the section, or the index is cut back, what was read stays canonical. */
  lemma {:induction false} StaysCanonical(j: Joint, p: Config, hs: Headers, m: Move)
    requires Inv(j.s, p, hs) && Fits(j, m) && !Reads(j, p, hs, m) && HasRead(j.s.worker, p)
    requires IsCanonical(j.canon, LastNumber(j.s.worker, p), LastHash(j.s.worker, p)) && Counted(j.s) == j.s.worker.section
    requires !Within(m, p, j.s.worker.section) && Counted(Next(j, p, hs, m).s) == Counted(j.s)
    ensures IsCanonical(Next(j, p, hs, m).canon, LastNumber(j.s.worker, p), LastHash(j.s.worker, p))
  {
    var n, k := LastNumber(j.s.worker, p), j.s.worker.section;
    assert n < k * p.size + p.size;
    if m.Change? {
      var a := m.ancestor;
      QuotientSmaller(a, p.size);
      var changed: nat := a / p.size;
      assert changed >= k;
      hide Inv, Next, LastNumber, LastHash, HasRead, Reads;
      AfterSection(p, k, changed, a);
      assert m.canon[..a + 1][n] == j.canon[..a + 1][n];
    }
  }

  lemma {:induction false} AfterSection(p: Config, k: nat, changed: nat, a: nat)
    requires p.size > 0 && k < changed == a / p.size
    ensures k * p.size + p.size <= a
  {
    assert a == changed * p.size + a % p.size;
    ProductLarger(changed - k - 1, p.size);
    assert changed * p.size == k * p.size + p.size + (changed - k - 1) * p.size;
  }

  /** A stale head is stored only after a reorganisation from within its section, made once its last header was read. */
  lemma {:induction false} StaleOnlyFromWithin(j: Joint, p: Config, hs: Headers, ms: seq<Move>, n: nat)
    requires Inv(j.s, p, hs) && j.s.worker.Idle? && Possible(j, p, hs, ms) && n <= |ms|
    requires var s := At(j, p, hs, ms, n).s; HasRead(s.worker, p) && Counted(s) == s.worker.section
    requires forall i: nat | ReadAt(j, p, hs, ms, n) < i < n :: !Within(ms[i], p, At(j, p, hs, ms, n).s.worker.section)
    ensures var t := At(j, p, hs, ms, n); IsCanonical(t.canon, LastNumber(t.s.worker, p), LastHash(t.s.worker, p))
  {
    assert At(j, p, hs, ms, 0) == j;
    assert ConfigOk(p);
    hide At, Next, HasRead, LastHash, LastNumber, Fits, Torn, Reads, Within;
    assert n > 0 by { NotIdle(j.s.worker, p); }
    var t := At(j, p, hs, ms, n - 1);
    NextAt(j, p, hs, ms, n - 1);
    assert FitsAt(j, p, hs, ms, n - 1);
    if Reads(t, p, hs, ms[n - 1]) {
      DidRead(t, p, hs, ms[n - 1]);
    } else {
      InvAt(j, p, hs, ms, n - 1);
      NoRead(t, p, hs, ms[n - 1]);
      StartedBelow(t.s, p, hs);
      hide Inv;
      StaleOnlyFromWithin(j, p, hs, ms, n - 1);
      if ReadAt(j, p, hs, ms, n - 1) < n - 1 {
        StaysCanonical(t, p, hs, ms[n - 1]);
      }
    }
  }

  lemma {:induction false} StartedBelow(s: State, p: Config, hs: Headers)
    requires Inv(s, p, hs) && HasRead(s.worker, p)
    ensures Counted(s) <= s.worker.section
  {
    hide Below, Above, Links;
  }

  // ----- Such a run -----

  /** Two blocks, and another block in place of the second. */
  function ThreeHeaders(): Headers {
    map[1 := Header(1, NO_HASH, 0, 0, 0, 0, false), 2 := Header(2, 1, 1, 0, 0, 0, false), 3 := Header(3, 1, 1, 0, 0, 0, false)]
  }

  function Replacing(): seq<Move> {
    [Work(Head(1, false)), Work(Begin), Work(Reset(true)), Work(Read(1, true)), Work(Read(2, true)), Work(Commit(true)),
     Change([1, 3], 0), Work(Finish)]
  }

  lemma {:induction false} ReplacingSteps(hs: Headers, p: Config, s: State)
    requires hs == ThreeHeaders() && p == Config(2, 0) && s == State(0, 0, 0, map[], Idle, Free)
    ensures Step(s, p, hs, Head(1, false)) == s.(known := 1)
    ensures Step(s.(known := 1), p, hs, Begin) == s.(known := 1, worker := Resetting(0, NO_HASH))
    ensures Step(s.(known := 1, worker := Resetting(0, NO_HASH)), p, hs, Reset(true)) == s.(known := 1, worker := Reading(0, NO_HASH, NO_HASH, 0))
    ensures Step(s.(known := 1, worker := Reading(0, NO_HASH, NO_HASH, 0)), p, hs, Read(1, true)) == s.(known := 1, worker := Reading(0, NO_HASH, 1, 1))
    ensures Step(s.(known := 1, worker := Reading(0, NO_HASH, 1, 1)), p, hs, Read(2, true)) == s.(known := 1, worker := Reading(0, NO_HASH, 2, 2))
    ensures Step(s.(known := 1, worker := Reading(0, NO_HASH, 2, 2)), p, hs, Commit(true)) == s.(known := 1, worker := Done(0, NO_HASH, 2))
    ensures Step(s.(known := 1, worker := Done(0, NO_HASH, 2)), p, hs, Head(0, true)) == s.(worker := Done(0, NO_HASH, 2))
    ensures Step(s.(worker := Done(0, NO_HASH, 2)), p, hs, Finish) == State(1, 0, 1, map[0 := 2], Idle, Free)
  {
    var h: map<nat, Hash> := map[0 := 2];
    assert SetValid(s.(heads := h, worker := Done(0, NO_HASH, 2)), 1).heads == h;
  }

  const EMPTY: State := State(0, 0, 0, map[], Idle, Free)
  const PAIRS: Config := Config(2, 0)

  /** Before the section is read through. */
  lemma {:induction false} FirstStates(j: Joint, hs: Headers, ms: seq<Move>)
    requires j == Joint(EMPTY, [1, 2]) && hs == ThreeHeaders() && |ms| == 8
    requires ms[0] == Work(Head(1, false)) && ms[1] == Work(Begin) && ms[2] == Work(Reset(true)) && ms[3] == Work(Read(1, true))
    ensures At(j, PAIRS, hs, ms, 3) == Joint(EMPTY.(known := 1, worker := Reading(0, NO_HASH, NO_HASH, 0)), [1, 2])
    ensures At(j, PAIRS, hs, ms, 4) == Joint(EMPTY.(known := 1, worker := Reading(0, NO_HASH, 1, 1)), [1, 2])
  {
    hide Step, At, ThreeHeaders;
    ReplacingSteps(hs, PAIRS, EMPTY);
    NextAt(j, PAIRS, hs, ms, 0);
    NextAt(j, PAIRS, hs, ms, 1);
    NextAt(j, PAIRS, hs, ms, 2);
    NextAt(j, PAIRS, hs, ms, 3);
  }

  lemma {:induction false} LastStates(j: Joint, hs: Headers, ms: seq<Move>)
    requires hs == ThreeHeaders() && |ms| == 8 && At(j, PAIRS, hs, ms, 4) == Joint(EMPTY.(known := 1, worker := Reading(0, NO_HASH, 1, 1)), [1, 2])
    requires ms[4] == Work(Read(2, true)) && ms[5] == Work(Commit(true)) && ms[6] == Change([1, 3], 0) && ms[7] == Work(Finish)
    ensures At(j, PAIRS, hs, ms, 6) == Joint(EMPTY.(known := 1, worker := Done(0, NO_HASH, 2)), [1, 2])
    ensures At(j, PAIRS, hs, ms, 8) == Joint(State(1, 0, 1, map[0 := 2], Idle, Free), [1, 3])
  {
    hide Step, At, ThreeHeaders;
    ReplacingSteps(hs, PAIRS, EMPTY);
    NextAt(j, PAIRS, hs, ms, 4);
    NextAt(j, PAIRS, hs, ms, 5);
    NextAt(j, PAIRS, hs, ms, 6);
    NextAt(j, PAIRS, hs, ms, 7);
  }

  lemma {:induction false} ReplacingFits(j: Joint, hs: Headers, ms: seq<Move>)
    requires j == Joint(EMPTY, [1, 2]) && hs == ThreeHeaders() && ms == Replacing()
    ensures Possible(j, PAIRS, hs, ms)
  {
    hide At, ThreeHeaders;
    FirstStates(j, hs, ms);
    LastStates(j, hs, ms);
    assert [1, 3][..1] == [1, 2][..1];
    assert FitsAt(j, PAIRS, hs, ms, 0) && FitsAt(j, PAIRS, hs, ms, 1) && FitsAt(j, PAIRS, hs, ms, 2) && FitsAt(j, PAIRS, hs, ms, 5);
    assert FitsAt(j, PAIRS, hs, ms, 3) && FitsAt(j, PAIRS, hs, ms, 4) && FitsAt(j, PAIRS, hs, ms, 6) && FitsAt(j, PAIRS, hs, ms, 7);
    hide FitsAt;
    assert |ms| == 8;
  }

  /** The section is read, its second block is replaced, and the head of the old block is stored. */
  lemma {:induction false} StaleHeadStored()
    ensures var j, hs, ms := Joint(EMPTY, [1, 2]), ThreeHeaders(), Replacing();
            && Inv(j.s, PAIRS, hs) && HeadsCanonical(j, PAIRS) && Possible(j, PAIRS, hs, ms)
            && At(j, PAIRS, hs, ms, 8) == Joint(State(1, 0, 1, map[0 := 2], Idle, Free), [1, 3])
            && !HeadsCanonical(At(j, PAIRS, hs, ms, 8), PAIRS)
  {
    var j, hs, ms := Joint(EMPTY, [1, 2]), ThreeHeaders(), Replacing();
    assert Inv(j.s, PAIRS, hs) && HeadsCanonical(j, PAIRS);
    hide Inv, At, Possible, ThreeHeaders;
    FirstStates(j, hs, ms);
    LastStates(j, hs, ms);
    ReplacingFits(j, hs, ms);
    var last := At(j, PAIRS, hs, ms, 8);
    var k: nat := 0;
    assert k < last.s.stored && EndOf(PAIRS, k) == 1 && !IsCanonical(last.canon, 1, 2);
  }
}
