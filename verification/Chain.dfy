/**
  Headers linked by parent hashes, the ancestor of a header at a given number, and what it means
  for a number-to-hash index to be exactly one header's ancestor chain.
 */
module Chain {

  /** A collision-free block hash; zero is the absent hash. */
  type Hash = nat

  const NO_HASH: Hash := 0

  /** The parts of a header that chain selection reads. `superSeq` is the super block sequence number in
      the state after this block. */
  datatype Header = Header(hash: Hash, parent: Hash, number: nat, difficulty: nat, time: nat, superSeq: nat, isSuper: bool)

  type Headers = map<Hash, Header>

  type Canon = map<nat, Hash>

  datatype Status = NonStat | CanonStat | SideStat

  /** Every stored header except the genesis has its parent stored, one number below. */
  ghost predicate Linked(hs: Headers, g: Hash) {
    g in hs && hs[g].number == 0 && forall h {:trigger LinkedAt(hs, g, h)} :: h in hs ==> LinkedAt(hs, g, h)
  }

  ghost predicate LinkedAt(hs: Headers, g: Hash, h: Hash)
    requires h in hs
  {
    && h != NO_HASH && hs[h].hash == h
    && (h != g ==> hs[h].parent in hs && hs[h].number == hs[hs[h].parent].number + 1)
  }

  /** A header that may be stored next. */
  ghost predicate Extends(hs: Headers, x: Header) {
    x.hash != NO_HASH && x.hash !in hs && x.parent in hs && x.number == hs[x.parent].number + 1
  }

  /** The ancestor of `h` at number `n`. */
  ghost function Ancestor(hs: Headers, g: Hash, h: Hash, n: nat): (a: Hash)
    requires Linked(hs, g) && h in hs && n <= hs[h].number
    ensures a in hs && hs[a].number == n
    decreases hs[h].number
  {
    assert LinkedAt(hs, g, h);
    if hs[h].number == n then h else Ancestor(hs, g, hs[h].parent, n)
  }

  lemma {:induction false} AncestorOfAncestor(hs: Headers, g: Hash, h: Hash, m: nat, n: nat)
    requires Linked(hs, g) && h in hs && n <= m <= hs[h].number
    ensures Ancestor(hs, g, Ancestor(hs, g, h, m), n) == Ancestor(hs, g, h, n)
    decreases hs[h].number
  {
    assert LinkedAt(hs, g, h);
    if m < hs[h].number {
      AncestorOfAncestor(hs, g, hs[h].parent, m, n);
    }
  }

  lemma {:induction false} GenesisIsZero(hs: Headers, g: Hash, h: Hash)
    requires Linked(hs, g) && h in hs
    ensures hs[h].number == 0 <==> h == g
    ensures Ancestor(hs, g, h, 0) == g
    decreases hs[h].number
  {
    assert LinkedAt(hs, g, h);
    if h != g {
      GenesisIsZero(hs, g, hs[h].parent);
    }
  }

  lemma {:induction false} LinkedMore(hs: Headers, g: Hash, x: Header)
    requires Linked(hs, g) && Extends(hs, x)
    ensures Linked(hs[x.hash := x], g)
  {
    var hs1 := hs[x.hash := x];
    forall h <- hs1 ensures LinkedAt(hs1, g, h) {
      assert h in hs ==> LinkedAt(hs, g, h);
    }
  }

  /** Storing one more header keeps the links and all ancestors. */
  lemma {:induction false} AncestorKept(hs: Headers, g: Hash, x: Header, h: Hash, n: nat)
    requires Linked(hs, g) && Extends(hs, x) && h in hs && n <= hs[h].number
    ensures Linked(hs[x.hash := x], g) && Ancestor(hs[x.hash := x], g, h, n) == Ancestor(hs, g, h, n)
    decreases hs[h].number
  {
    assert LinkedAt(hs, g, h);
    LinkedMore(hs, g, x);
    if n < hs[h].number {
      AncestorKept(hs, g, x, hs[h].parent, n);
    }
  }

  /** The index `canon` assigns exactly the ancestors of `h`, and nothing above. */
  ghost predicate Follows(canon: Canon, hs: Headers, g: Hash, h: Hash)
    requires Linked(hs, g) && h in hs
  {
    FollowsUpTo(canon, hs, g, h, hs[h].number) && forall n <- canon :: n <= hs[h].number
  }

  ghost predicate FollowsUpTo(canon: Canon, hs: Headers, g: Hash, h: Hash, m: nat)
    requires Linked(hs, g) && h in hs && m <= hs[h].number
  {
    forall n :: 0 <= n <= m ==> n in canon && canon[n] == Ancestor(hs, g, h, n)
  }

  /** Two chains that agree at a number agree everywhere below it. */
  lemma {:induction false} AgreeBelow(canon: Canon, hs: Headers, g: Hash, h: Hash, k: Hash, m: nat)
    requires Linked(hs, g) && h in hs && k in hs && m <= hs[h].number && m <= hs[k].number
    requires FollowsUpTo(canon, hs, g, h, m) && Ancestor(hs, g, h, m) == Ancestor(hs, g, k, m)
    ensures FollowsUpTo(canon, hs, g, k, m)
  {
    forall n | 0 <= n <= m ensures n in canon && canon[n] == Ancestor(hs, g, k, n) {
      AncestorOfAncestor(hs, g, h, m, n);
      AncestorOfAncestor(hs, g, k, m, n);
    }
  }

  function ReadCanonicalHash(canon: Canon, n: nat): Hash {
    if n in canon then canon[n] else NO_HASH
  }
}
