/**
  Short runs of the section indexer in which the undo loop of the worker and a notification tear the
  index: an index of two one-block sections, and a backend that cannot be reset for the third.
 */
module IndexerTears {
  import opened Chain
  import opened ChainIndexer

  const ONES: Config := Config(1, 0)
  const TWO: State := State(2, 3, 1, map[0 := 1, 1 := 2], Idle, Free)

  function TwoHeaders(): Headers {
    map[1 := Header(1, NO_HASH, 0, 0, 0, 0, false), 2 := Header(2, 1, 1, 0, 0, 0, false)]
  }

  lemma {:induction false} TwoSections()
    ensures Inv(TWO, ONES, TwoHeaders())
  {
    var hs := TwoHeaders();
    assert Links(hs, NO_HASH, 1, 1) && Links(hs, 1, 2, 1);
    assert SectionLinked(TWO.heads, 0, 1, hs) && SectionLinked(TWO.heads, 1, 1, hs);
  }

  lemma {:induction false} First(s: State, hs: Headers, e: Event, es: seq<Event>)
    ensures Run(s, ONES, hs, [e] + es) == Run(Step(s, ONES, hs, e), ONES, hs, es)
  {
    RunThen(s, ONES, hs, [e], es);
    assert [e][..0] == [];
    assert Run(s, ONES, hs, []) == s;
  }

  lemma {:induction false} NoEvents(s: State, hs: Headers)
    ensures Run(s, ONES, hs, []) == s
  {
  }

  /** A section is started, and the backend cannot be reset. */
  lemma {:induction false} Undone(hs: Headers, es: seq<Event>)
    ensures Run(TWO, ONES, hs, [Begin] + ([Reset(false)] + es)) == Run(TWO.(worker := Clearing(Test)), ONES, hs, es)
  {
    First(TWO, hs, Begin, [Reset(false)] + es);
    First(TWO.(worker := Resetting(2, 2)), hs, Reset(false), es);
  }

  /** A notification that nothing comes between cuts off all that is counted. */
  lemma {:induction false} AllCut(s: State, left: map<nat, Hash>, hs: Headers, es: seq<Event>)
    requires s.note.Free? && s.stored > 0
    requires (forall k <- left :: k in s.heads && k >= s.stored && left[k] == s.heads[k]) && (forall k <- s.heads :: k < s.stored || k in left)
    ensures var t := State(0, 0, 0, left, s.worker, Free);
            Run(s, ONES, hs, [Head(0, true)] + (Notices(5 * s.stored + 2) + es)) == Run(t, ONES, hs, es)
  {
    var n := Notices(5 * s.stored + 2);
    var u := Step(s, ONES, hs, Head(0, true));
    assert u == s.(known := 0, note := Cutting(0, Test));
    var t := State(0, 0, 0, left, s.worker, Free);
    assert Cascade(SetValid(u, 0), 0).(note := Free) == t;
    hide Step, Notices, Run;
    First(s, hs, Head(0, true), n + es);
    RunThen(u, ONES, hs, n, es);
    CutAlone(u, ONES, hs);
  }

  // ----- The worker has passed its test -----

  const WRAPPING: seq<Event> :=
    [Begin] + ([Reset(false)] + ([Clear] + ([Head(0, true)] + (Notices(12) + ([Clear] + ([Clear] + []))))))

  /** The worker finds two sections, a notification removes both, and the worker decrements zero. */
  lemma {:induction false} CountWraps()
    ensures Inv(TWO, ONES, TwoHeaders())
    ensures var t := Run(TWO, ONES, TwoHeaders(), WRAPPING);
            t.stored == U64 - 1 && t.heads == map[] && t.note.Free? && !Exact(t, ONES, TwoHeaders())
  {
    TwoSections();
    var hs := TwoHeaders();
    var t := State(U64 - 1, 0, 0, map[], Clearing(Pick), Free);
    assert !Exact(t, ONES, hs) by {
      var k: nat := 0;
      assert !SectionLinked(t.heads, k, 1, hs);
    }
    hide Run, Notices, Exact, Inv, TwoHeaders;
    var rest := [Clear] + ([Clear] + []);
    Undone(hs, [Clear] + ([Head(0, true)] + (Notices(12) + rest)));
    First(TWO.(worker := Clearing(Test)), hs, Clear, [Head(0, true)] + (Notices(12) + rest));
    AllCut(TWO.(worker := Clearing(Load)), map[], hs, rest);
    var u := State(0, 0, 0, map[], Clearing(Load), Free);
    First(u, hs, Clear, [Clear] + []);
    First(u.(worker := Clearing(Write(0))), hs, Clear, []);
    NoEvents(t, hs);
  }

  // ----- The worker has lowered the count -----

  const LEAVING: seq<Event> :=
    [Begin] + ([Reset(false)] + ([Clear] + ([Clear] + ([Clear] + ([Head(0, true)] + (Notices(7) +
    ([Clear] + ([Clear] + ([Clear] + ([Clear] + ([Finish] + [])))))))))))

  /** The worker has lowered the count to one, a notification removes the other section, and the worker removes the head
      of that one again: the head it gave up stays. */
  lemma {:induction false} StaleHeadRun()
    ensures Inv(TWO, ONES, TwoHeaders())
    ensures var t := Run(TWO, ONES, TwoHeaders(), LEAVING);
            t == State(0, 0, 0, map[1 := 2], Idle, Free) && !Exact(t, ONES, TwoHeaders())
  {
    TwoSections();
    var hs := TwoHeaders();
    var heads: map<nat, Hash> := map[1 := 2];
    var t := State(0, 0, 0, heads, Idle, Free);
    assert !Exact(t, ONES, hs) by { assert 1 in t.heads; }
    hide Run, Notices, Exact, Inv, TwoHeaders;
    var last := [Clear] + ([Clear] + ([Clear] + ([Clear] + ([Finish] + []))));
    Lowered(hs, [Head(0, true)] + (Notices(7) + last));
    var u := TWO.(stored := 1, worker := Clearing(Pick));
    AllCut(u, heads, hs, last);
    hide Step;
    Leaving(State(0, 0, 0, heads, Clearing(Pick), Free), hs);
    NoEvents(t, hs);
  }

  lemma {:induction false} Lowered(hs: Headers, rest: seq<Event>)
    ensures Run(TWO, ONES, hs, [Begin] + ([Reset(false)] + ([Clear] + ([Clear] + ([Clear] + rest)))))
            == Run(TWO.(stored := 1, worker := Clearing(Pick)), ONES, hs, rest)
  {
    hide Run;
    Undone(hs, [Clear] + ([Clear] + ([Clear] + rest)));
    First(TWO.(worker := Clearing(Test)), hs, Clear, [Clear] + ([Clear] + rest));
    First(TWO.(worker := Clearing(Load)), hs, Clear, [Clear] + rest);
    First(TWO.(worker := Clearing(Write(2))), hs, Clear, rest);
  }

  lemma {:induction false} Leaving(u: State, hs: Headers)
    requires u.stored == 0 && u.known == 0 && u.worker == Clearing(Pick) && u.note.Free? && 0 !in u.heads
    ensures Run(u, ONES, hs, [Clear] + ([Clear] + ([Clear] + ([Clear] + ([Finish] + []))))) == Run(u.(worker := Idle), ONES, hs, [])
  {
    hide Run;
    assert u.heads - {0} == u.heads;
    First(u, hs, Clear, [Clear] + ([Clear] + ([Clear] + ([Finish] + []))));
    First(u.(worker := Clearing(Drop(0))), hs, Clear, [Clear] + ([Clear] + ([Finish] + [])));
    First(u.(worker := Clearing(Test)), hs, Clear, [Clear] + ([Finish] + []));
    First(u.(worker := Clearing(Close)), hs, Clear, [Finish] + []);
    First(u.(worker := Failed), hs, Finish, []);
  }

  // ----- The notification has left its loop -----

  const RAISING: seq<Event> :=
    [Begin] + ([Reset(false)] + ([Head(1, true)] + (Notices(6) +
    ([Clear] + ([Clear] + ([Clear] + ([Clear] + ([Clear] + ([Notice] + [])))))))))

  /** A notification has cut the index back to one section, the worker removes that one, and the last write of the
      notification counts it again. */
  lemma {:induction false} CountRaised()
    ensures Inv(TWO, ONES, TwoHeaders())
    ensures var t := Run(TWO, ONES, TwoHeaders(), RAISING);
            t.stored == 1 && t.heads == map[] && t.note.Free? && !Exact(t, ONES, TwoHeaders())
  {
    TwoSections();
    var hs := TwoHeaders();
    var t := State(1, 1, 1, map[], Clearing(Test), Free);
    assert !Exact(t, ONES, hs) by {
      var k: nat := 0;
      assert !SectionLinked(t.heads, k, 1, hs);
    }
    hide Run, Notices, Exact, Inv, TwoHeaders;
    var last := [Clear] + ([Clear] + ([Clear] + ([Clear] + ([Clear] + ([Notice] + [])))));
    var u := TWO.(worker := Clearing(Test));
    Undone(hs, [Head(1, true)] + (Notices(6) + last));
    First(u, hs, Head(1, true), Notices(6) + last);
    var v := u.(known := 1, note := Cutting(1, Test));
    RunThen(v, ONES, hs, Notices(6), last);
    OneRound(v, ONES, hs, 1);
    var heads: map<nat, Hash> := map[0 := 1];
    assert TWO.heads - {1} == heads;
    OneNotice(v.(stored := 1, heads := heads), ONES, hs, 0);
    var w := v.(stored := 1, heads := heads, note := Cutting(1, Close));
    NoNotice(w, ONES, hs);
    Raising(w, hs);
    NoEvents(t, hs);
  }

  lemma {:induction false} Raising(w: State, hs: Headers)
    requires w == State(1, 1, 1, map[0 := 1], Clearing(Test), Cutting(1, Close))
    ensures Run(w, ONES, hs, [Clear] + ([Clear] + ([Clear] + ([Clear] + ([Clear] + ([Notice] + []))))))
            == Run(State(1, 1, 1, map[], Clearing(Test), Free), ONES, hs, [])
  {
    hide Run;
    var heads: map<nat, Hash> := map[];
    assert w.heads - {0} == heads;
    First(w, hs, Clear, [Clear] + ([Clear] + ([Clear] + ([Clear] + ([Notice] + [])))));
    First(w.(worker := Clearing(Load)), hs, Clear, [Clear] + ([Clear] + ([Clear] + ([Notice] + []))));
    First(w.(worker := Clearing(Write(1))), hs, Clear, [Clear] + ([Clear] + ([Notice] + [])));
    First(w.(stored := 0, worker := Clearing(Pick)), hs, Clear, [Clear] + ([Notice] + []));
    First(w.(stored := 0, worker := Clearing(Drop(0))), hs, Clear, [Notice] + []);
    First(w.(stored := 0, heads := heads, worker := Clearing(Test)), hs, Notice, []);
  }
}
