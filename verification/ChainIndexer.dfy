/**
  The section indexer: a background worker indexes fixed-size sections of the canonical chain
  without holding the lock, while reorg notifications cut the index back under the lock. When the
  backend cannot be reset, the worker cuts the index back as well, and does so without the lock. So a
  notification and the worker may be in the same loop at once, and every access of that loop to the
  count or to the heads is a step of its own. A locked region that no such loop can run beside is one step. The
  steps interleave freely, and the canonical chain may change between any two of them.
 */
module ChainIndexer {
  import opened Chain
  import opened Options

  const U64: nat := 0x1_0000_0000_0000_0000

  /** Section size and required confirmations. */
  datatype Config = Config(size: nat, confirms: nat)

  ghost predicate ConfigOk(p: Config) {
    0 < p.size < U64 && p.confirms < U64
  }

  /** The next access in the loop of `setValidSections`: the test; the read and the write of the decrement; the read
      of the section to remove; its removal; or the write after the loop. */
  datatype Cut =
    | Test
    | Load
    | Write(seen: nat)
    | Pick
    | Drop(section: nat)
    | Close

  /** Where the worker is: waiting; about to reset the backend; reading headers; undoing the index
      after a failed reset; or back from the section, waiting for the lock. */
  datatype Worker =
    | Idle
    | Resetting(section: nat, oldHead: Hash)
    | Reading(section: nat, oldHead: Hash, last: Hash, number: nat)
    | Clearing(cut: Cut)
    | Done(section: nat, oldHead: Hash, newHead: Hash)
    | Failed

  /** The lock is free for the worker, or held by a notification that cuts the index back. */
  datatype Note =
    | Free
    | Cutting(changed: nat, cut: Cut)

  datatype State = State(stored: nat, known: nat, cascaded: nat, heads: map<nat, Hash>, worker: Worker, note: Note)

  /** `Read` is one header read: the canonical hash found (zero if none) and whether its header was found. `Notice` and
      `Clear` are the next access of the notification and of the worker to an index that they cut back. */
  datatype Event =
    | Head(head: nat, reorg: bool)
    | Notice
    | Begin
    | Reset(ok: bool)
    | Read(hash: Hash, present: bool)
    | Commit(ok: bool)
    | Clear
    | Finish

  // ----- The steps as functions -----

  function SectionHead(heads: map<nat, Hash>, section: nat): Hash {
    if section in heads then heads[section] else NO_HASH
  }

  /** `section - 1` on 64 bits. */
  function Before(section: nat): nat {
    if section == 0 then U64 - 1 else section - 1
  }

  /** `setValidSections` when nothing comes between: heads from `sections` up to the stored count go. */
  function SetValid(s: State, sections: nat): State {
    s.(stored := sections, heads := map k | k in s.heads && !(sections <= k < s.stored) :: s.heads[k])
  }

  /** One access of `setValidSections`: what it does to the count, to the heads, and what comes next. */
  function StoredAfter(stored: nat, sections: nat, cut: Cut): nat {
    match cut
    case Write(seen) => Before(seen)
    case Close => sections
    case _ => stored
  }

  function HeadsAfter(heads: map<nat, Hash>, cut: Cut): map<nat, Hash> {
    if cut.Drop? then heads - {cut.section} else heads
  }

  function CutAfter(stored: nat, sections: nat, cut: Cut): Cut {
    match cut
    case Test => if stored > sections then Load else Close
    case Load => Write(stored)
    case Write(seen) => Pick
    case Pick => Drop(stored)
    case Drop(section) => Test
    case Close => Close
  }

  function Cascade(s: State, head: nat): State {
    if head < s.cascaded then s.(cascaded := head) else s
  }

  function NewHead(s: State, p: Config, head: nat, reorg: bool): State
    requires p.size > 0 && p.confirms < U64
  {
    if reorg then
      var changed: nat := head / p.size;
      var s1 := if changed < s.known then s.(known := changed) else s;
      if changed < s1.stored then s1.(note := Cutting(changed, Test)) else Cascade(s1, changed * p.size)
    else if head >= p.confirms then
      var sections := (head + 1 - p.confirms) % U64 / p.size;
      if sections > s.known then s.(known := sections) else s
    else s
  }

  function NoticeStep(s: State, p: Config): State
    requires s.note.Cutting?
  {
    var n := s.note;
    var t := s.(stored := StoredAfter(s.stored, n.changed, n.cut), heads := HeadsAfter(s.heads, n.cut));
    if n.cut.Close? then Cascade(t, n.changed * p.size).(note := Free)
    else t.(note := Cutting(n.changed, CutAfter(s.stored, n.changed, n.cut)))
  }

  function ClearStep(s: State): State
    requires s.worker.Clearing?
  {
    var c := s.worker.cut;
    s.(stored := StoredAfter(s.stored, 0, c), heads := HeadsAfter(s.heads, c),
       worker := if c.Close? then Failed else Clearing(CutAfter(s.stored, 0, c)))
  }

  /** A section is started when more is known than stored. */
  function StartSection(s: State): State {
    if s.known > s.stored then
      s.(worker := Resetting(s.stored, if s.stored > 0 then SectionHead(s.heads, s.stored - 1) else NO_HASH))
    else s
  }

  function ReadHeader(s: State, p: Config, hs: Headers, hash: Hash, present: bool): State
    requires s.worker.Reading?
  {
    var w := s.worker;
    if w.number >= w.section * p.size + p.size then s
    else if hash == NO_HASH || !present || hash !in hs || hs[hash].parent != w.last then s.(worker := Failed)
    else s.(worker := w.(last := hash, number := w.number + 1))
  }

  /** Back under the lock: commit the section if the head before it is still the one it was started on. */
  function FinishSection(s: State, p: Config): State
    requires p.size > 0 && (s.worker.Done? || s.worker.Failed?)
  {
    if s.worker.Done? && s.worker.oldHead == SectionHead(s.heads, Before(s.worker.section)) then
      var k := s.worker.section;
      var s1 := SetValid(s.(heads := s.heads[k := s.worker.newHead]), k + 1);
      s1.(cascaded := k * p.size + p.size - 1, worker := Idle)
    else s.(known := s.stored, worker := Idle)
  }

  /** One step. An event that does not fit where the worker is, or that waits for the lock, changes nothing. */
  function Step(s: State, p: Config, hs: Headers, e: Event): State
    requires p.size > 0 && p.confirms < U64
  {
    match e
    case Head(head, reorg) => if s.note.Free? then NewHead(s, p, head, reorg) else s
    case Notice => if s.note.Cutting? then NoticeStep(s, p) else s
    case Begin => if s.worker.Idle? && s.note.Free? then StartSection(s) else s
    case Reset(ok) =>
      if !s.worker.Resetting? then s
      else if ok then s.(worker := Reading(s.worker.section, s.worker.oldHead, s.worker.oldHead, s.worker.section * p.size))
      else s.(worker := Clearing(Test))
    case Read(hash, present) => if s.worker.Reading? then ReadHeader(s, p, hs, hash, present) else s
    case Commit(ok) =>
      if s.worker.Reading? && s.worker.number >= s.worker.section * p.size + p.size
      then s.(worker := if ok then Done(s.worker.section, s.worker.oldHead, s.worker.last) else Failed)
      else s
    case Clear => if s.worker.Clearing? then ClearStep(s) else s
    case Finish => if (s.worker.Done? || s.worker.Failed?) && s.note.Free? then FinishSection(s, p) else s
  }

  function Run(s: State, p: Config, hs: Headers, es: seq<Event>): State
    requires p.size > 0 && p.confirms < U64
  {
    if es == [] then s else Step(Run(s, p, hs, es[..|es| - 1]), p, hs, es[|es| - 1])
  }

  // ----- The invariant -----

  /** `to` is reached from `from` by `n` parent links. */
  ghost predicate Links(hs: Headers, from: Hash, to: Hash, n: nat)
    decreases n
  {
    if n == 0 then from == to else to != NO_HASH && to in hs && Links(hs, from, hs[to].parent, n - 1)
  }

  /** The head of section `k` is one section of parent links after the one before. */
  ghost predicate SectionLinked(heads: map<nat, Hash>, k: nat, size: nat, hs: Headers) {
    && k in heads && heads[k] != NO_HASH && (k > 0 ==> k - 1 in heads)
    && Links(hs, if k == 0 then NO_HASH else heads[k - 1], heads[k], size)
  }

  /** Every section below `count` has its head, linked to the one before. */
  ghost predicate Below(heads: map<nat, Hash>, count: nat, size: nat, hs: Headers) {
    forall k: nat {:trigger SectionLinked(heads, k, size, hs)} :: k < count ==> SectionLinked(heads, k, size, hs)
  }

  /** The loop is about to remove the head of `k`. */
  predicate OwedBy(stored: nat, cut: Cut, k: nat) {
    (cut.Pick? && k == stored) || cut == Drop(k)
  }

  predicate Owed(stored: nat, worker: Worker, note: Note, k: nat) {
    (worker.Clearing? && OwedBy(stored, worker.cut, k)) || (note.Cutting? && OwedBy(stored, note.cut, k))
  }

  ghost predicate Above(stored: nat, heads: map<nat, Hash>, worker: Worker, note: Note) {
    forall k <- heads :: k < stored || Owed(stored, worker, note, k)
  }

  /** Heads exist exactly for the sections below the count, but for those about to be removed, and each is linked to the
      one before. */
  ghost predicate Exact(s: State, p: Config, hs: Headers) {
    Below(s.heads, s.stored, p.size, hs) && Above(s.stored, s.heads, s.worker, s.note)
  }

  /** A section in work was started on the head before it. As long as nothing was cut back the count
      still stands at that section; once it was, the head before it is gone. */
  ghost predicate Started(stored: nat, heads: map<nat, Hash>, section: nat, oldHead: Hash) {
    && stored <= section < U64 - 1
    && (section == 0 <==> oldHead == NO_HASH)
    && (stored == section > 0 ==> section - 1 in heads && heads[section - 1] == oldHead)
  }

  ghost predicate WorkerOk(stored: nat, heads: map<nat, Hash>, worker: Worker, size: nat, hs: Headers) {
    match worker
    case Resetting(k, old0) => Started(stored, heads, k, old0)
    case Reading(k, old0, last, number) =>
      && Started(stored, heads, k, old0)
      && k * size <= number <= k * size + size && Links(hs, old0, last, number - k * size)
    case Done(k, old0, new0) => Started(stored, heads, k, old0) && new0 != NO_HASH && Links(hs, old0, new0, size)
    case _ => true
  }

  /** What a loop that cuts back to `sections` has seen is still so: its test still holds when it reads the count, the
      count is at most one below what it read, and it has not fallen below `sections`. */
  predicate CutOk(stored: nat, sections: nat, cut: Cut) {
    && stored >= sections
    && match cut
       case Load => stored > sections
       case Write(seen) => seen > sections && seen - 1 <= stored <= seen
       case Drop(k) => stored <= k
       case Close => stored == sections
       case _ => true
  }

  predicate CutsOk(stored: nat, worker: Worker, note: Note) {
    (worker.Clearing? ==> CutOk(stored, 0, worker.cut)) && (note.Cutting? ==> CutOk(stored, note.changed, note.cut))
  }

  ghost predicate Inv(s: State, p: Config, hs: Headers) {
    && ConfigOk(p) && s.stored < U64 && s.known < U64
    && Exact(s, p, hs) && CutsOk(s.stored, s.worker, s.note) && WorkerOk(s.stored, s.heads, s.worker, p.size, hs)
  }

  // ----- Tears -----

  /** Lowering the count by one from `stored` takes it from under another loop that cuts back to `sections`: it falls
      below `sections`; the other has passed its test, which would fail now; the other has read the count before an
      earlier decrement and would raise it again; or the other has lowered the count and would now remove another head
      than the one it gave up. */
  predicate Undercuts(stored: nat, heads: map<nat, Hash>, sections: nat, other: Cut) {
    || stored <= sections
    || (other.Load? && stored <= sections + 1)
    || (other.Write? && stored < other.seen)
    || (other.Pick? && stored in heads)
  }

  /** The step lowers the count and takes it from under the other loop. */
  predicate Torn(s: State, e: Event) {
    && s.worker.Clearing? && s.note.Cutting?
    && match e
       case Clear => s.worker.cut == Write(s.stored) && Undercuts(s.stored, s.heads, s.note.changed, s.note.cut)
       case Notice => s.note.cut == Write(s.stored) && Undercuts(s.stored, s.heads, 0, s.worker.cut)
       case _ => false
  }

  // ----- Every step keeps the invariant exactly if it does not tear -----

  lemma {:induction false} AddKeeps(heads: map<nat, Hash>, k: nat, head: Hash, size: nat, hs: Headers)
    requires Below(heads, k, size, hs) && head != NO_HASH && (k > 0 ==> k - 1 in heads)
    requires Links(hs, if k == 0 then NO_HASH else heads[k - 1], head, size)
    ensures Below(heads[k := head], k + 1, size, hs)
  {
    hide Links;
    var more: map<nat, Hash> := heads[k := head];
    forall j: nat | j < k ensures SectionLinked(more, j, size, hs) {
      assert SectionLinked(heads, j, size, hs);
    }
    assert SectionLinked(more, k, size, hs);
  }

  lemma {:induction false} BelowLess(heads: map<nat, Hash>, less: map<nat, Hash>, count: nat, fewer: nat, size: nat, hs: Headers)
    requires Below(heads, count, size, hs) && fewer <= count && forall k: nat | k < fewer && k in heads :: k in less && less[k] == heads[k]
    ensures Below(less, fewer, size, hs)
  {
    hide Links;
    forall k: nat | k < fewer ensures SectionLinked(less, k, size, hs) {
      assert SectionLinked(heads, k, size, hs);
      if k > 0 {
        assert k - 1 in heads && k - 1 in less;
      }
    }
  }

  lemma {:induction false} HeadKeeps(s: State, p: Config, hs: Headers, head: nat, reorg: bool)
    requires Inv(s, p, hs) && s.note.Free?
    ensures Inv(NewHead(s, p, head, reorg), p, hs)
  {
    QuotientSmaller(head, p.size);
    hide Below, WorkerOk;
    if !reorg && head >= p.confirms {
      var n := (head + 1 - p.confirms) % U64;
      QuotientSmaller(n, p.size);
    }
  }

  lemma {:induction false} QuotientSmaller(n: nat, d: nat)
    requires d > 0
    ensures 0 <= n / d <= n
  {
    var q := n / d;
    assert n == q * d + n % d;
    ProductLarger(q, d);
  }

  lemma {:induction false} ProductLarger(q: int, d: nat)
    requires d > 0
    ensures q >= 0 ==> q * d >= q
    ensures q < 0 ==> q * d + d <= 0
  {
    if d > 1 {
      ProductLarger(q, d - 1);
      assert q * d == q * (d - 1) + q;
    }
  }

  lemma {:induction false} ReadKeeps(s: State, p: Config, hs: Headers, hash: Hash, present: bool)
    requires Inv(s, p, hs) && s.worker.Reading?
    ensures Inv(ReadHeader(s, p, hs, hash, present), p, hs)
  {
    hide Below, Started;
  }

  /** A section is committed exactly when the stored count still equals the section that was started. */
  lemma {:induction false} CommitIff(s: State, p: Config, hs: Headers)
    requires Inv(s, p, hs) && s.worker.Done? && s.note.Free?
    ensures s.worker.oldHead == SectionHead(s.heads, Before(s.worker.section)) <==> s.stored == s.worker.section
    ensures FinishSection(s, p).stored == if s.stored == s.worker.section then s.stored + 1 else s.stored
  {
    hide Links, SectionLinked;
  }

  lemma {:induction false} FinishKeeps(s: State, p: Config, hs: Headers)
    requires Inv(s, p, hs) && (s.worker.Done? || s.worker.Failed?) && s.note.Free?
    ensures Inv(FinishSection(s, p), p, hs)
  {
    if s.worker.Done? && s.stored == s.worker.section {
      var k := s.stored;
      AddKeeps(s.heads, k, s.worker.newHead, p.size, hs);
      assert SetValid(s.(heads := s.heads[k := s.worker.newHead]), k + 1) == s.(stored := k + 1, heads := s.heads[k := s.worker.newHead]);
    }
    if s.worker.Done? {
      CommitIff(s, p, hs);
    }
    hide Links, SetValid, Below, SectionHead;
  }

  lemma {:induction false} StartKeeps(s: State, p: Config, hs: Headers)
    requires Inv(s, p, hs) && s.worker.Idle? && s.note.Free?
    ensures Inv(StartSection(s), p, hs)
  {
    hide Links;
    if s.stored > 0 {
      assert SectionLinked(s.heads, s.stored - 1, p.size, hs);
    }
  }

  lemma {:induction false} ResetKeeps(s: State, p: Config, hs: Headers, ok: bool)
    requires Inv(s, p, hs)
    ensures Inv(Step(s, p, hs, Reset(ok)), p, hs)
  {
    hide Below, Started;
  }

  lemma {:induction false} CommitKeeps(s: State, p: Config, hs: Headers, ok: bool)
    requires Inv(s, p, hs)
    ensures Inv(Step(s, p, hs, Commit(ok)), p, hs)
  {
    hide Below, Started;
  }

  /** One access of a loop leaves the sections below the count as they are, and the count where it is or one lower. */
  lemma {:induction false} CutBelow(stored: nat, heads: map<nat, Hash>, sections: nat, cut: Cut, size: nat, hs: Headers)
    requires Below(heads, stored, size, hs) && CutOk(stored, sections, cut) && stored < U64
    ensures var n, less := StoredAfter(stored, sections, cut), HeadsAfter(heads, cut);
            && (n == stored || (cut == Write(stored) && n == stored - 1)) && Below(less, n, size, hs)
            && (forall k <- less :: k in heads && less[k] == heads[k]) && (forall k <- heads :: k in less || cut == Drop(k))
  {
    BelowLess(heads, HeadsAfter(heads, cut), stored, StoredAfter(stored, sections, cut), size, hs);
    hide Below;
  }

  lemma {:induction false} StartedLess(stored: nat, heads: map<nat, Hash>, n: nat, less: map<nat, Hash>, worker: Worker, size: nat, hs: Headers)
    requires WorkerOk(stored, heads, worker, size, hs) && n <= stored
    requires forall k <- heads :: k < n ==> k in less && less[k] == heads[k]
    ensures WorkerOk(n, less, worker, size, hs)
  {
    hide Links;
  }

  lemma {:induction false} NoticeKeeps(s: State, p: Config, hs: Headers)
    requires Inv(s, p, hs) && s.note.Cutting?
    ensures Inv(NoticeStep(s, p), p, hs) <==> !Torn(s, Notice)
  {
    var t := NoticeStep(s, p);
    CutBelow(s.stored, s.heads, s.note.changed, s.note.cut, p.size, hs);
    assert WorkerOk(t.stored, t.heads, t.worker, p.size, hs) by {
      hide Below, Above, CutsOk;
      StartedLess(s.stored, s.heads, t.stored, t.heads, s.worker, p.size, hs);
    }
    hide Below, WorkerOk, SectionLinked;
    AboveNotice(s, p);
  }

  /** The rest of the invariant after an access of the notification. */
  lemma {:induction false} AboveNotice(s: State, p: Config)
    requires CutsOk(s.stored, s.worker, s.note) && Above(s.stored, s.heads, s.worker, s.note) && s.note.Cutting? && s.stored < U64
    ensures var t := NoticeStep(s, p);
            Above(t.stored, t.heads, t.worker, t.note) && CutsOk(t.stored, t.worker, t.note) <==> !Torn(s, Notice)
  {
  }

  lemma {:induction false} ClearKeeps(s: State, p: Config, hs: Headers)
    requires Inv(s, p, hs) && s.worker.Clearing?
    ensures Inv(ClearStep(s), p, hs) <==> !Torn(s, Clear)
  {
    CutBelow(s.stored, s.heads, 0, s.worker.cut, p.size, hs);
    hide Below, SectionLinked;
    AboveClear(s);
  }

  lemma {:induction false} AboveClear(s: State)
    requires CutsOk(s.stored, s.worker, s.note) && Above(s.stored, s.heads, s.worker, s.note) && s.worker.Clearing? && s.stored < U64
    ensures var t := ClearStep(s);
            Above(t.stored, t.heads, t.worker, t.note) && CutsOk(t.stored, t.worker, t.note) <==> !Torn(s, Clear)
  {
  }

  /** Every step keeps the invariant if and only if it does not take the count from under the other loop. */
  lemma {:induction false} StepKeeps(s: State, p: Config, hs: Headers, e: Event)
    requires Inv(s, p, hs)
    ensures Inv(Step(s, p, hs, e), p, hs) <==> !Torn(s, e)
  {
    hide NewHead, StartSection, FinishSection, ReadHeader, NoticeStep, ClearStep;
    match e
    case Head(head, reorg) => if s.note.Free? { HeadKeeps(s, p, hs, head, reorg); }
    case Notice => if s.note.Cutting? { NoticeKeeps(s, p, hs); }
    case Begin => if s.worker.Idle? && s.note.Free? { StartKeeps(s, p, hs); }
    case Read(hash, present) => if s.worker.Reading? { ReadKeeps(s, p, hs, hash, present); }
    case Clear => if s.worker.Clearing? { ClearKeeps(s, p, hs); }
    case Finish => if (s.worker.Done? || s.worker.Failed?) && s.note.Free? { FinishKeeps(s, p, hs); }
    case Reset(ok) => ResetKeeps(s, p, hs, ok);
    case Commit(ok) => CommitKeeps(s, p, hs, ok);
  }

  // ----- Whole runs -----

  /** Some step of the run tears. */
  ghost predicate Tears(s: State, p: Config, hs: Headers, es: seq<Event>)
    requires p.size > 0 && p.confirms < U64
    decreases |es|
  {
    var n := |es| - 1;
    es != [] && (Tears(s, p, hs, es[..n]) || Torn(Run(s, p, hs, es[..n]), es[n]))
  }

  /** A step that leaves the index exact and raises the count only by storing a section. */
  ghost predicate Honest(s: State, p: Config, hs: Headers, e: Event)
    requires p.size > 0 && p.confirms < U64
  {
    var t := Step(s, p, hs, e);
    Exact(t, p, hs) && (t.stored > s.stored ==> e == Finish && s.worker.Done?)
  }

  /** The index is exact at every moment of the run, and its count rises only by sections stored. */
  ghost predicate AllHonest(s: State, p: Config, hs: Headers, es: seq<Event>)
    requires p.size > 0 && p.confirms < U64
    decreases |es|
  {
    var n := |es| - 1;
    es != [] ==> AllHonest(s, p, hs, es[..n]) && Honest(Run(s, p, hs, es[..n]), p, hs, es[n])
  }

  /** In every interleaving that tears nothing, the invariant holds at the end, and so at every moment. */
  lemma {:induction false} RunKeeps(s: State, p: Config, hs: Headers, es: seq<Event>)
    requires Inv(s, p, hs) && !Tears(s, p, hs, es)
    ensures Inv(Run(s, p, hs, es), p, hs) && AllHonest(s, p, hs, es)
    decreases |es|
  {
    assert ConfigOk(p);
    hide Inv, Step, Torn, Honest;
    if es != [] {
      var n := |es| - 1;
      var t := Run(s, p, hs, es[..n]);
      RunKeeps(s, p, hs, es[..n]);
      StepKeeps(t, p, hs, es[n]);
      StepHonest(t, p, hs, es[n]);
    }
  }

  lemma {:induction false} StepHonest(s: State, p: Config, hs: Headers, e: Event)
    requires Inv(s, p, hs) && Inv(Step(s, p, hs, e), p, hs)
    ensures Honest(s, p, hs, e)
  {
    hide Below, Above, WorkerOk;
  }

  /** Without a failed reset nothing can be torn. */
  lemma {:induction false} NoResetFailureNoTear(s: State, p: Config, hs: Headers, es: seq<Event>)
    requires ConfigOk(p) && !s.worker.Clearing? && Reset(false) !in es
    ensures !Tears(s, p, hs, es)
    decreases |es|
  {
    if es != [] {
      NoResetFailureNoTear(s, p, hs, es[..|es| - 1]);
      NeverClearing(s, p, hs, es[..|es| - 1]);
    }
  }

  lemma {:induction false} NeverClearing(s: State, p: Config, hs: Headers, es: seq<Event>)
    requires ConfigOk(p) && !s.worker.Clearing? && Reset(false) !in es
    ensures !Run(s, p, hs, es).worker.Clearing?
    decreases |es|
  {
    if es != [] {
      NeverClearing(s, p, hs, es[..|es| - 1]);
    }
  }

  // ----- What a tear does -----

  /** A loop that will raise the count before it ends: the count is below where the loop stops; the loop has passed its
      test and will read a count for which the test fails, or has read such a count; or it has read a count from which
      more than one was taken since. */
  predicate DoomedCut(stored: nat, sections: nat, cut: Cut) {
    || stored < sections
    || (cut.Load? && stored <= sections)
    || (cut.Write? && (stored <= cut.seen <= sections || stored + 1 < cut.seen))
  }

  predicate Doomed(s: State) {
    || (s.worker.Clearing? && DoomedCut(s.stored, 0, s.worker.cut))
    || (s.note.Cutting? && DoomedCut(s.stored, s.note.changed, s.note.cut))
  }

  /** A torn index has a head above the count that nobody will remove, or one of the loops will raise the count. */
  lemma {:induction false} TornShows(s: State, p: Config, hs: Headers, e: Event)
    requires Inv(s, p, hs) && Torn(s, e)
    ensures Exact(Step(s, p, hs, e), p, hs) ==> Doomed(Step(s, p, hs, e))
  {
    hide Below, WorkerOk;
  }

  /** The count is raised at once, or it stays so. */
  lemma {:induction false} DoomedStep(s: State, p: Config, hs: Headers, e: Event)
    requires ConfigOk(p) && Doomed(s)
    ensures var t := Step(s, p, hs, e); if t.stored > s.stored then !(e == Finish && s.worker.Done?) else Doomed(t)
  {
    hide NewHead, StartSection, FinishSection, ReadHeader;
    if e.Head? && s.note.Free? {
      HeadStored(s, p, e.head, e.reorg);
    } else if e.Read? && s.worker.Reading? {
      ReadStored(s, p, hs, e.hash, e.present);
    }
  }

  lemma {:induction false} HeadStored(s: State, p: Config, head: nat, reorg: bool)
    requires ConfigOk(p) && s.note.Free?
    ensures var t := NewHead(s, p, head, reorg); t.stored == s.stored && t.worker == s.worker
  {
  }

  lemma {:induction false} ReadStored(s: State, p: Config, hs: Headers, hash: Hash, present: bool)
    requires s.worker.Reading?
    ensures var t := ReadHeader(s, p, hs, hash, present); t.stored == s.stored && t.note == s.note
  {
  }

  /** An honest run that has torn the index is not over: a loop is still to raise the count. */
  lemma {:induction false} AfterTear(s: State, p: Config, hs: Headers, es: seq<Event>)
    requires Inv(s, p, hs) && Tears(s, p, hs, es) && AllHonest(s, p, hs, es)
    ensures Doomed(Run(s, p, hs, es))
    decreases |es|
  {
    assert ConfigOk(p);
    hide Inv, Step, Torn, Doomed, Exact;
    var n := |es| - 1;
    var t := Run(s, p, hs, es[..n]);
    if Tears(s, p, hs, es[..n]) {
      AfterTear(s, p, hs, es[..n]);
      DoomedStep(t, p, hs, es[n]);
    } else {
      RunKeeps(s, p, hs, es[..n]);
      TornShows(t, p, hs, es[n]);
    }
  }

  /** Neither the worker nor a notification is cutting the index back. */
  predicate Quiet(s: State) {
    !s.worker.Clearing? && s.note.Free?
  }

  /** Over any run that does not stop in the middle of a loop, the index is exact at every moment and its count rises only
      by sections stored, if and only if no step takes the count from under the other loop. */
  lemma {:induction false} CleanUpExact(s: State, p: Config, hs: Headers, es: seq<Event>)
    requires Inv(s, p, hs) && Quiet(Run(s, p, hs, es))
    ensures AllHonest(s, p, hs, es) <==> !Tears(s, p, hs, es)
  {
    if Tears(s, p, hs, es) {
      if AllHonest(s, p, hs, es) {
        AfterTear(s, p, hs, es);
      }
    } else {
      RunKeeps(s, p, hs, es);
    }
  }

  // ----- A loop that nothing comes between -----

  lemma {:induction false} RunThen(s: State, p: Config, hs: Headers, a: seq<Event>, b: seq<Event>)
    requires p.size > 0 && p.confirms < U64
    ensures Run(s, p, hs, a + b) == Run(Run(s, p, hs, a), p, hs, b)
    decreases |b|
  {
    hide Step;
    if b == [] {
      assert a + b == a;
    } else {
      assert (a + b)[..|a + b| - 1] == a + b[..|b| - 1];
      RunThen(s, p, hs, a, b[..|b| - 1]);
    }
  }

  function Notices(n: nat): seq<Event> {
    seq(n, i => Notice)
  }

  lemma {:induction false} OneNotice(s: State, p: Config, hs: Headers, n: nat)
    requires p.size > 0 && p.confirms < U64 && s.note.Cutting?
    ensures Run(s, p, hs, Notices(n + 1)) == Run(NoticeStep(s, p), p, hs, Notices(n))
  {
    assert Notices(n + 1) == [Notice] + Notices(n);
    RunThen(s, p, hs, [Notice], Notices(n));
    hide NoticeStep;
    assert [Notice][..0] == [];
    assert Run(s, p, hs, []) == s;
    assert Run(s, p, hs, [Notice]) == Step(s, p, hs, Notice);
  }

  /** One round of the loop. */
  lemma {:induction false} OneRound(s: State, p: Config, hs: Headers, n: nat)
    requires ConfigOk(p) && s.note.Cutting? && s.note.cut == Test && s.note.changed < s.stored
    ensures Run(s, p, hs, Notices(n + 5)) == Run(s.(stored := s.stored - 1, heads := s.heads - {s.stored - 1}), p, hs, Notices(n))
  {
    hide Run;
    var c := s.note.changed;
    OneNotice(s, p, hs, n + 4);
    OneNotice(s.(note := Cutting(c, Load)), p, hs, n + 3);
    OneNotice(s.(note := Cutting(c, Write(s.stored))), p, hs, n + 2);
    OneNotice(s.(stored := s.stored - 1, note := Cutting(c, Pick)), p, hs, n + 1);
    OneNotice(s.(stored := s.stored - 1, note := Cutting(c, Drop(s.stored - 1))), p, hs, n);
  }

  /** A notification that nothing comes between does what `setValidSections` is for, and ends. */
  lemma {:induction false} CutAlone(s: State, p: Config, hs: Headers)
    requires ConfigOk(p) && s.note.Cutting? && s.note.cut == Test && s.note.changed <= s.stored
    ensures var c := s.note.changed;
            Run(s, p, hs, Notices(5 * (s.stored - c) + 2)) == Cascade(SetValid(s, c), c * p.size).(note := Free)
    decreases s.stored
  {
    var c := s.note.changed;
    hide Run;
    if c < s.stored {
      var t := s.(stored := s.stored - 1, heads := s.heads - {s.stored - 1});
      OneRound(s, p, hs, 5 * (t.stored - c) + 2);
      CutAlone(t, p, hs);
      assert SetValid(t, c) == SetValid(s, c);
    } else {
      OneNotice(s, p, hs, 1);
      var t := s.(note := Cutting(c, Close));
      OneNotice(t, p, hs, 0);
      assert SetValid(s, c) == s;
      NoNotice(NoticeStep(t, p), p, hs);
    }
  }

  lemma {:induction false} NoNotice(s: State, p: Config, hs: Headers)
    requires ConfigOk(p)
    ensures Run(s, p, hs, Notices(0)) == s
  {
  }

  lemma {:induction false} RunSnoc(s: State, p: Config, hs: Headers, es: seq<Event>, e: Event)
    requires p.size > 0 && p.confirms < U64
    ensures Run(s, p, hs, es + [e]) == Step(Run(s, p, hs, es), p, hs, e)
  {
    assert (es + [e])[..|es|] == es;
  }

  // ----- The indexer as the program runs it -----

  class Indexer {
    const config: Config
    /** All headers that were ever stored; what a read finds depends on the moment. */
    const headers: Headers
    var storedSections: nat
    var knownSections: nat
    var cascadedHead: nat
    var heads: map<nat, Hash>
    var worker: Worker
    var note: Note

    ghost function View(): State
      reads this
    {
      State(storedSections, knownSections, cascadedHead, heads, worker, note)
    }

    constructor (config: Config, headers: Headers)
      requires ConfigOk(config)
      ensures this.config == config && this.headers == headers && View() == State(0, 0, 0, map[], Idle, Free) && Inv(View(), config, headers)
    {
      this.config, this.headers := config, headers;
      storedSections, knownSections, cascadedHead, heads, worker, note := 0, 0, 0, map[], Idle, Free;
    }

    /** `setValidSections`, where nothing can come between. */
    method SetValidSections(sections: nat)
      modifies `storedSections, `heads
      ensures View() == SetValid(old(View()), sections)
    {
      while storedSections > sections
        invariant storedSections <= old(storedSections) && (storedSections < sections ==> storedSections == old(storedSections))
        invariant heads == map k | k in old(heads) && !(storedSections <= k < old(storedSections)) :: old(heads)[k]
      {
        storedSections := storedSections - 1;
        heads := heads - {storedSections};
      }
      storedSections := sections;
    }

    /** One access of `setValidSections`; `next` is the one that comes after it, if any. */
    method CutStep(sections: nat, cut: Cut) returns (next: Option<Cut>)
      modifies `storedSections, `heads
      ensures storedSections == StoredAfter(old(storedSections), sections, cut) && heads == HeadsAfter(old(heads), cut)
      ensures next == if cut.Close? then None else Some(CutAfter(old(storedSections), sections, cut))
    {
      match cut
      case Test => next := Some(if storedSections > sections then Load else Close);
      case Load => next := Some(Write(storedSections));
      case Write(seen) =>
        storedSections := if seen == 0 then U64 - 1 else seen - 1;
        next := Some(Pick);
      case Pick => next := Some(Drop(storedSections));
      case Drop(section) =>
        heads := heads - {section};
        next := Some(Test);
      case Close =>
        storedSections := sections;
        next := None;
    }

    /** The end of a reorg notification. */
    method CascadeDown(changed: nat)
      modifies `cascadedHead
      ensures cascadedHead == Cascade(old(View()), changed * config.size).cascaded
    {
      var cut := changed * config.size;
      if cut < cascadedHead {
        cascadedHead := cut;
      }
    }

    /** `newHead` with the lock taken, up to `setValidSections`. */
    method OnHead(head: nat, reorg: bool)
      requires ConfigOk(config)
      modifies this
      ensures View() == NewHead(old(View()), config, head, reorg)
    {
      if reorg {
        QuotientSmaller(head, config.size);
        var changed: nat := head / config.size;
        if changed < knownSections {
          knownSections := changed;
        }
        if changed < storedSections {
          note := Cutting(changed, Test);
          return;
        }
        CascadeDown(changed);
        return;
      }
      if head >= config.confirms {
        QuotientSmaller((head + 1 - config.confirms) % U64, config.size);
        var sections := (head + 1 - config.confirms) % U64 / config.size;
        if sections > knownSections {
          knownSections := sections;
        }
      }
    }

    /** The first locked part of `updateLoop`. */
    method BeginSection()
      requires worker.Idle?
      modifies this
      ensures View() == StartSection(old(View()))
    {
      if knownSections > storedSections {
        var section := storedSections;
        var oldHead := NO_HASH;
        if section > 0 {
          oldHead := SectionHead(heads, section - 1);
        }
        worker := Resetting(section, oldHead);
      }
    }

    /** One round of the loop in `processSection`. */
    method ReadNext(hash: Hash, present: bool)
      requires worker.Reading?
      modifies this
      ensures View() == ReadHeader(old(View()), config, headers, hash, present)
    {
      var w := worker;
      if w.number < w.section * config.size + config.size {
        if hash == NO_HASH {
          worker := Failed;
        } else if !present || hash !in headers {
          worker := Failed;
        } else if headers[hash].parent != w.last {
          worker := Failed;
        } else {
          worker := w.(last := hash, number := w.number + 1);
        }
      }
    }

    /** The second locked part of `updateLoop`. */
    method Conclude()
      requires ConfigOk(config) && (worker.Done? || worker.Failed?)
      modifies this
      ensures View() == FinishSection(old(View()), config)
    {
      if worker.Done? && worker.oldHead == SectionHead(heads, Before(worker.section)) {
        var section := worker.section;
        heads := heads[section := worker.newHead];
        SetValidSections(section + 1);
        cascadedHead := section * config.size + config.size - 1;
      } else {
        knownSections := storedSections;
      }
      worker := Idle;
    }

    /** One step of the undo loop that runs without the lock. */
    method OnClear()
      requires worker.Clearing?
      modifies this
      ensures View() == ClearStep(old(View()))
    {
      var next := CutStep(0, worker.cut);
      worker := if next.None? then Failed else Clearing(next.value);
    }

    /** One step of the loop of a notification. */
    method OnNotice()
      requires note.Cutting?
      modifies this
      ensures View() == NoticeStep(old(View()), config)
    {
      var changed := note.changed;
      var next := CutStep(changed, note.cut);
      if next.None? {
        CascadeDown(changed);
        note := Free;
      } else {
        note := Cutting(changed, next.value);
      }
    }

    /** Any interleaving of notifications and worker steps. */
    method Execute(events: seq<Event>)
      requires Inv(View(), config, headers)
      modifies this
      ensures View() == Run(old(View()), config, headers, events)
      ensures !Tears(old(View()), config, headers, events) ==> Inv(View(), config, headers) && AllHonest(old(View()), config, headers, events)
    {
      assert ConfigOk(config);
      if !Tears(View(), config, headers, events) {
        RunKeeps(View(), config, headers, events);
      }
      hide Inv, Tears, AllHonest;
      for i := 0 to |events|
        invariant View() == Run(old(View()), config, headers, events[..i])
      {
        Perform(events[i]);
        assert events[..i + 1] == events[..i] + [events[i]];
        RunSnoc(old(View()), config, headers, events[..i], events[i]);
      }
      assert events[..|events|] == events;
    }

    method Perform(e: Event)
      requires ConfigOk(config)
      modifies this
      ensures View() == Step(old(View()), config, headers, e)
    {
      hide NewHead, NoticeStep, ClearStep, StartSection, ReadHeader, FinishSection;
      match e
      case Head(head, reorg) => if note.Free? { OnHead(head, reorg); }
      case Notice => if note.Cutting? { OnNotice(); }
      case Begin => if worker.Idle? && note.Free? { BeginSection(); }
      case Reset(ok) =>
        if worker.Resetting? {
          if ok {
            worker := Reading(worker.section, worker.oldHead, worker.oldHead, worker.section * config.size);
          } else {
            worker := Clearing(Test);
          }
        }
      case Read(hash, present) => if worker.Reading? { ReadNext(hash, present); }
      case Commit(ok) =>
        if worker.Reading? && worker.number >= worker.section * config.size + config.size {
          worker := if ok then Done(worker.section, worker.oldHead, worker.last) else Failed;
        }
      case Clear => if worker.Clearing? { OnClear(); }
      case Finish => if (worker.Done? || worker.Failed?) && note.Free? { Conclude(); }
    }
  }
}
