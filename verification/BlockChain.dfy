/**
  Choosing the head block. A block wins by super block sequence, then number, then time; the
  canonical index is then moved to the winner's chain, with a rewind when the winner is a super block.
 */
module BlockChain {
  import opened Chain
  import HC = HeaderChain

  /** The gamma rule's order on blocks. */
  predicate Beats(x: Header, c: Header) {
    || x.superSeq > c.superSeq
    || (x.superSeq == c.superSeq && (x.number > c.number || (x.number == c.number && x.time > c.time)))
  }

  ghost predicate Best(hs: Headers, c: Hash) {
    c in hs && forall h <- hs :: !Beats(hs[h], hs[c])
  }

  /** Only super blocks change the sequence number. */
  ghost predicate Inherits(hs: Headers, g: Hash) {
    forall h <- hs :: h != g && !hs[h].isSuper && hs[h].parent in hs ==> hs[h].superSeq == hs[hs[h].parent].superSeq
  }

  /** A winner that is not a super block stands no lower than the head it replaces. */
  lemma {:induction false} NormalWinnerIsHigh(hs: Headers, c: Hash, x: Header)
    requires Best(hs, c) && x.parent in hs && !x.isSuper && x.superSeq == hs[x.parent].superSeq && Beats(x, hs[c])
    ensures x.number >= hs[c].number && x.superSeq == hs[c].superSeq
  {
    assert !Beats(hs[x.parent], hs[c]);
  }

  /** Storing a block keeps the best one, or makes it the best. */
  lemma {:induction false} BestMore(hs: Headers, c: Hash, x: Header)
    requires Best(hs, c) && x.hash !in hs
    ensures Best(hs[x.hash := x], if Beats(x, hs[c]) then x.hash else c)
  {
  }

  lemma {:induction false} InheritsMore(hs: Headers, g: Hash, x: Header)
    requires Linked(hs, g) && Inherits(hs, g) && Extends(hs, x) && (!x.isSuper ==> x.superSeq == hs[x.parent].superSeq)
    ensures Inherits(hs[x.hash := x], g)
  {
    var hs1 := hs[x.hash := x];
    forall h <- hs1 | h != g && !hs1[h].isSuper && hs1[h].parent in hs1 ensures hs1[h].superSeq == hs1[hs1[h].parent].superSeq {
      assert h in hs ==> LinkedAt(hs, g, h);
    }
  }

  // ----- Moving the index -----

  /** The chains of `c` and `x` part above number `m`. */
  ghost predicate Parted(hs: Headers, g: Hash, c: Hash, x: Hash, m: nat)
    requires Linked(hs, g) && c in hs && x in hs
  {
    forall n :: m < n <= hs[c].number && n <= hs[x].number ==> Ancestor(hs, g, c, n) != Ancestor(hs, g, x, n)
  }

  /** The index while blocks of `x`'s chain are inserted: already that chain up to `m`, and above it
      still what `was` said. */
  ghost predicate Moving(canon: Canon, was: Canon, hs: Headers, g: Hash, x: Hash, m: nat)
    requires Linked(hs, g) && x in hs && m <= hs[x].number
  {
    FollowsUpTo(canon, hs, g, x, m) && forall n: nat :: m < n ==> (n in canon <==> n in was) && (n in canon ==> canon[n] == was[n])
  }

  lemma {:induction false} MoveStarts(canon: Canon, hs: Headers, g: Hash, c: Hash, x: Hash, m: nat)
    requires Linked(hs, g) && c in hs && x in hs && m <= hs[c].number && m <= hs[x].number && Follows(canon, hs, g, c)
    requires Ancestor(hs, g, c, m) == Ancestor(hs, g, x, m)
    ensures Moving(canon, canon, hs, g, x, m)
  {
    AgreeBelow(canon, hs, g, c, x, m);
  }

  lemma {:induction false} MoveStep(canon: Canon, was: Canon, hs: Headers, g: Hash, x: Hash, m: nat)
    requires Linked(hs, g) && x in hs && m < hs[x].number && Moving(canon, was, hs, g, x, m)
    ensures Moving(canon[m + 1 := Ancestor(hs, g, x, m + 1)], was, hs, g, x, m + 1)
  {
  }

  /** One step back from a block that is stored or about to be. */
  lemma {:induction false} StepBack(hs: Headers, g: Hash, x: Header, c: Hash, m: nat)
    requires Linked(hs, g) && Extends(hs, x) && Linked(hs[x.hash := x], g) && c in hs[x.hash := x] && 0 < m <= hs[x.hash := x][c].number
    ensures var all := hs[x.hash := x]; var a := Ancestor(all, g, c, m);
            && a != g && all[a].hash == a && all[a].number == m
            && all[a].parent in hs && all[all[a].parent] == hs[all[a].parent] && all[a].parent == Ancestor(all, g, c, m - 1)
            && all[all[a].parent].hash == all[a].parent
  {
    var all := hs[x.hash := x];
    var a := Ancestor(all, g, c, m);
    GenesisIsZero(all, g, a);
    assert LinkedAt(all, g, a);
    assert a != x.hash ==> LinkedAt(hs, g, a);
    assert LinkedAt(all, g, all[a].parent);
    AncestorOfAncestor(all, g, c, m, m - 1);
  }

  lemma {:induction false} FollowsKept(canon: Canon, hs: Headers, g: Hash, c: Hash, x: Header)
    requires Linked(hs, g) && Extends(hs, x) && c in hs && Follows(canon, hs, g, c)
    ensures Linked(hs[x.hash := x], g) && Follows(canon, hs[x.hash := x], g, c)
  {
    LinkedMore(hs, g, x);
    forall n | 0 <= n <= hs[c].number ensures Ancestor(hs[x.hash := x], g, c, n) == Ancestor(hs, g, c, n) {
      AncestorKept(hs, g, x, c, n);
    }
  }

  /** `chain` is the chain of `x` from `x` down to just above number `m`. */
  ghost predicate Segment(chain: seq<Header>, hs: Headers, g: Hash, x: Hash, m: nat)
    requires Linked(hs, g) && x in hs
  {
    m + |chain| == hs[x].number && forall k :: 0 <= k < |chain| ==> chain[k] == hs[Ancestor(hs, g, x, hs[x].number - k)]
  }

  lemma {:induction false} SegmentMore(chain: seq<Header>, hs: Headers, g: Hash, x: Hash, m: nat)
    requires Linked(hs, g) && x in hs && 0 < m <= hs[x].number && Segment(chain, hs, g, x, m)
    ensures Segment(chain + [hs[Ancestor(hs, g, x, m)]], hs, g, x, m - 1)
  {
  }

  predicate Rewinds(block: Header, old0: Header) {
    block.isSuper && old0.number >= block.number
  }

  /** The index without the numbers above `low` up to `high`. */
  ghost function Cut(canon: Canon, low: nat, high: nat): Canon {
    map n | n in canon && !(low < n <= high) :: canon[n]
  }

  /** Above the fork the index does not yet have the new chain. */
  lemma {:induction false} NotYet(canon: Canon, was: Canon, hs: Headers, g: Hash, c: Hash, x: Hash, m: nat, fork: nat)
    requires Linked(hs, g) && c in hs && x in hs && fork <= m < hs[x].number && Moving(canon, was, hs, g, x, m)
    requires Follows(was, hs, g, c) && Parted(hs, g, c, x, fork)
    ensures var a := Ancestor(hs, g, x, m + 1);
            ReadCanonicalHash(canon, m + 1) != a && hs[a].hash == a && hs[a].number == m + 1
  {
    var a := Ancestor(hs, g, x, m + 1);
    assert LinkedAt(hs, g, a);
  }

  lemma {:induction false} Landed(canon: Canon, was: Canon, hs: Headers, g: Hash, c: Hash, x: Header, now: Canon)
    requires Linked(hs, g) && c in hs && x.hash in hs && hs[x.hash] == x && Moving(canon, was, hs, g, x.hash, x.number)
    requires Follows(was, hs, g, c)
    requires now == (if Rewinds(x, hs[c]) then Cut(canon, x.number, hs[c].number) else canon)[x.number := x.hash]
    ensures FollowsUpTo(now, hs, g, x.hash, x.number)
    ensures Follows(now, hs, g, x.hash) <==> x.isSuper || x.number >= hs[c].number
  {
    if !x.isSuper && x.number < hs[c].number {
      assert hs[c].number in was;
      assert hs[c].number in now;
    }
  }

  class BlockChain {
    const hc: HC.HeaderChain
    var current: Header

    ghost predicate Valid()
      reads this, hc
    {
      && hc.Consistent()
      && current == hc.current
      && Follows(hc.canon, hc.headers, hc.genesis, hc.currentHash)
      && Best(hc.headers, hc.currentHash)
      && Inherits(hc.headers, hc.genesis)
    }

    constructor (genesis: Header)
      requires genesis.hash != NO_HASH && genesis.number == 0
      ensures Valid() && fresh(hc) && hc.headers == map[genesis.hash := genesis] && current == genesis
    {
      hc := new HC.HeaderChain(genesis);
      current := genesis;
    }

    /** Is `b` the ancestor of `c` at its own number, among the stored blocks and `x`? */
    ghost predicate At(x: Header, c: Hash, b: Header)
      requires Linked(hc.headers, hc.genesis) && Extends(hc.headers, x)
      requires Linked(hc.headers[x.hash := x], hc.genesis) && c in hc.headers[x.hash := x]
      reads hc
    {
      var all := hc.headers[x.hash := x];
      b.number <= all[c].number && b.hash == Ancestor(all, hc.genesis, c, b.number) && b == all[b.hash]
    }

    /** The first half of `reorg`: walk both chains back to their common ancestor and collect the new one. */
    method FindFork(oldBlock: Header, newBlock: Header) returns (newChain: seq<Header>, common: Header)
      requires Linked(hc.headers, hc.genesis) && Extends(hc.headers, newBlock)
      requires oldBlock.hash in hc.headers && hc.headers[oldBlock.hash] == oldBlock
      ensures var all := hc.headers[newBlock.hash := newBlock]; var g, m := hc.genesis, common.number;
              && Linked(all, g) && newChain != [] && Segment(newChain, all, g, newBlock.hash, m) && m <= oldBlock.number
              && common.hash == Ancestor(all, g, newBlock.hash, m) == Ancestor(all, g, oldBlock.hash, m)
              && Parted(all, g, oldBlock.hash, newBlock.hash, m)
    {
      ghost var hs, g, x, c := hc.headers, hc.genesis, newBlock, oldBlock.hash;
      LinkedMore(hs, g, x);
      ghost var all := hs[x.hash := x];
      assert Segment([], all, g, x.hash, x.number);
      hide Linked, LinkedAt, Segment;
      var o, n := oldBlock, newBlock;
      newChain := [];
      if o.number > n.number {
        while o.number != n.number
          invariant n.number <= o.number && At(x, c, o) && o.hash in hs
          decreases o.number
        {
          StepBack(hs, g, x, c, o.number);
          o := hc.headers[o.parent];
        }
      } else {
        while n.number != o.number
          invariant o.number <= n.number && At(x, x.hash, n) && Segment(newChain, all, g, x.hash, n.number)
          invariant n != x ==> newChain != []
          decreases n.number
        {
          SegmentMore(newChain, all, g, x.hash, n.number);
          StepBack(hs, g, x, x.hash, n.number);
          newChain := newChain + [n];
          n := hc.headers[n.parent];
        }
      }
      assert Parted(all, g, c, x.hash, o.number);
      while o.hash != n.hash
        invariant o.number == n.number && At(x, c, o) && At(x, x.hash, n) && Segment(newChain, all, g, x.hash, n.number)
        invariant o.hash in hs && (n != x ==> newChain != []) && Parted(all, g, c, x.hash, o.number)
        decreases n.number
      {
        GenesisIsZero(all, g, c);
        GenesisIsZero(all, g, x.hash);
        SegmentMore(newChain, all, g, x.hash, n.number);
        StepBack(hs, g, x, x.hash, n.number);
        StepBack(hs, g, x, c, n.number);
        newChain := newChain + [n];
        o, n := hc.headers[o.parent], hc.headers[n.parent];
      }
      common := o;
    }

    /** `insert`: a super block first rewinds the header chain if the old head is not below it. */
    method Insert(block: Header, old0: Header)
      requires Rewinds(block, old0) ==> hc.Consistent() && hc.current == block
      modifies this, hc
      ensures current == block
      ensures hc.headers == old(hc.headers) && hc.td == old(hc.td)
      ensures hc.canon == (if Rewinds(block, old0) then Cut(old(hc.canon), block.number, old0.number) else old(hc.canon))[block.number := block.hash]
      ensures if block.isSuper || ReadCanonicalHash(old(hc.canon), block.number) != block.hash
              then hc.current == block && hc.currentHash == block.hash
              else hc.current == old(hc.current) && hc.currentHash == old(hc.currentHash)
    {
      var updateHeads;
      if block.isSuper {
        SuperBlkRewind(block, old0);
        updateHeads := true;
      } else {
        updateHeads := ReadCanonicalHash(hc.canon, block.number) != block.hash;
      }
      hc.canon := hc.canon[block.number := block.hash];
      current := block;
      if updateHeads {
        hc.SetCurrentHeader(block);
      }
    }

    /** `superBlkRewind`. When it runs, the block is already the current header, so no header is lost. */
    method SuperBlkRewind(block: Header, old0: Header)
      requires block.isSuper && (Rewinds(block, old0) ==> hc.Consistent() && hc.current == block)
      modifies hc
      ensures hc.headers == old(hc.headers) && hc.td == old(hc.td)
      ensures hc.canon == if Rewinds(block, old0) then Cut(old(hc.canon), block.number, old0.number) else old(hc.canon)
    {
      if old0.number >= block.number {
        HC.WithoutNone(hc.headers, hc.genesis, hc.currentHash);
        hc.SetSBlkHead(old0, block.number);
        assert hc.td == old(hc.td);
      }
    }

    /** `reorg`: the blocks of the new chain are inserted from the common ancestor up. */
    method Reorg(oldBlock: Header, newBlock: Header)
      requires Linked(hc.headers, hc.genesis) && Extends(hc.headers, newBlock)
      requires hc.currentHash in hc.headers && oldBlock == hc.current == hc.headers[hc.currentHash]
      requires Follows(hc.canon, hc.headers, hc.genesis, hc.currentHash)
      modifies this, hc
      ensures hc.headers == old(hc.headers) && hc.td == old(hc.td)
      ensures current == hc.current == newBlock && hc.currentHash == newBlock.hash
      ensures var all := hc.headers[newBlock.hash := newBlock];
              Linked(all, hc.genesis) && Moving(hc.canon, old(hc.canon), all, hc.genesis, newBlock.hash, newBlock.number)
    {
      ghost var g, x, c := hc.genesis, newBlock, hc.currentHash;
      assert LinkedAt(hc.headers, g, c);
      FollowsKept(hc.canon, hc.headers, g, c, x);
      var newChain, common := FindFork(oldBlock, newBlock);
      MoveStarts(hc.canon, hc.headers[x.hash := x], g, c, x.hash, common.number);
      hide *;
      InsertSegment(newChain, common, hc.headers[x.hash := x], c, x);
    }

    /** The second half of `reorg`. */
    method InsertSegment(newChain: seq<Header>, common: Header, ghost all: Headers, ghost c: Hash, ghost x: Header)
      requires Linked(all, hc.genesis) && c in all && x.hash in all && all[x.hash] == x && Segment(newChain, all, hc.genesis, x.hash, common.number)
      requires newChain != [] && Follows(hc.canon, all, hc.genesis, c) && Parted(all, hc.genesis, c, x.hash, common.number)
      requires Moving(hc.canon, hc.canon, all, hc.genesis, x.hash, common.number)
      modifies this, hc
      ensures hc.headers == old(hc.headers) && hc.td == old(hc.td)
      ensures current == hc.current == x && hc.currentHash == x.hash
      ensures Moving(hc.canon, old(hc.canon), all, hc.genesis, x.hash, x.number)
    {
      ghost var g, was := hc.genesis, hc.canon;
      hide Linked, Follows, Moving, Parted;
      var i := |newChain|;
      while i > 0
        invariant 0 <= i <= |newChain| && hc.headers == old(hc.headers) && hc.td == old(hc.td)
        invariant Moving(hc.canon, was, all, g, x.hash, x.number - i)
        invariant i < |newChain| ==> current == hc.current == newChain[i] && hc.currentHash == newChain[i].hash
      {
        i := i - 1;
        NotYet(hc.canon, was, all, g, c, x.hash, x.number - i - 1, common.number);
        MoveStep(hc.canon, was, all, g, x.hash, x.number - i - 1);
        Insert(newChain[i], common);
      }
    }

    /** What `WriteBlockWithState` does with a winner. The index ends up exactly on the winner's chain
        if and only if the winner is a super block or stands no lower than the old head. */
    method Adopt(x: Header)
      requires Linked(hc.headers, hc.genesis) && Extends(hc.headers, x)
      requires hc.currentHash in hc.headers && current == hc.current == hc.headers[hc.currentHash]
      requires Follows(hc.canon, hc.headers, hc.genesis, hc.currentHash)
      requires Linked(hc.headers[x.hash := x], hc.genesis) && HC.Weighed(hc.td, hc.headers[x.hash := x], hc.genesis)
      modifies this, hc
      ensures hc.headers == old(hc.headers)[x.hash := x] && hc.td == old(hc.td)
      ensures hc.Consistent() && current == hc.current == x && hc.currentHash == x.hash
      ensures FollowsUpTo(hc.canon, hc.headers, hc.genesis, x.hash, x.number)
      ensures Follows(hc.canon, hc.headers, hc.genesis, x.hash) <==> x.isSuper || x.number >= old(current.number)
    {
      ghost var g, c, all, was := hc.genesis, hc.currentHash, hc.headers[x.hash := x], hc.canon;
      var old0 := current;
      assert LinkedAt(hc.headers, g, c) && LinkedAt(all, g, x.hash);
      FollowsKept(was, hc.headers, g, c, x);
      if x.parent != old0.hash {
        Reorg(old0, x);
      } else {
        MoveStarts(was, all, g, c, x.hash, old0.number);
        MoveStep(was, was, all, g, x.hash, old0.number);
        assert x.number !in was;
        ghost var more: Canon := was[x.number := x.hash];
        assert more[x.number := x.hash] == more;
      }
      ghost var canon: Canon := if x.parent != old0.hash then hc.canon else was[x.number := x.hash];
      hide Linked, LinkedAt, Follows, Moving, FollowsUpTo, HC.Weighed;
      hc.headers := hc.headers[x.hash := x];
      Insert(x, old0);
      Landed(canon, was, all, g, c, x, hc.canon);
    }

    /** `isGammaCanonicalChain`. */
    static function IsGammaCanonicalChain(x: Header, c: Header): (wins: bool)
      ensures wins <==> Beats(x, c)
    {
      if c.superSeq < x.superSeq then true
      else if c.superSeq > x.superSeq then false
      else if c.number < x.number then true
      else if c.number > x.number then false
      else if c.time < x.time then true
      else false
    }

    /** A block that a caller may offer. */
    ghost predicate Offered(x: Header)
      reads this, hc
    {
      x.hash != NO_HASH && (x.parent in hc.headers && !x.isSuper ==> x.superSeq == hc.headers[x.parent].superSeq)
    }

    /** The parent is stored under the number before. */
    predicate ParentKnown(x: Header)
      reads hc
    {
      x.parent in hc.headers && x.number == hc.headers[x.parent].number + 1
    }

    /** The head-selection part of `WriteBlockWithState`, under the gamma rule. */
    method WriteBlockWithState(x: Header) returns (status: Status)
      requires Valid() && Offered(x)
      modifies this, hc
      ensures Valid()
      ensures status == NonStat <==> !old(ParentKnown(x)) || x.hash in old(hc.headers)
      ensures status == NonStat ==> unchanged(this) && unchanged(hc)
      ensures status != NonStat ==> hc.headers == old(hc.headers)[x.hash := x] && (status == CanonStat <==> Beats(x, old(current)))
      ensures current == if status == CanonStat then x else old(current)
    {
      if x.parent !in hc.td || x.number != hc.headers[x.parent].number + 1 {
        return NonStat;
      }
      if x.hash in hc.headers {
        return NonStat;
      }
      ghost var hs, g, c := hc.headers, hc.genesis, hc.currentHash;
      assert LinkedAt(hs, g, c);
      BestMore(hs, c, x);
      InheritsMore(hs, g, x);
      HC.StoreKeeps(hs, hc.td, hc.canon, g, c, x);
      if Beats(x, hs[c]) && !x.isSuper {
        NormalWinnerIsHigh(hs, c, x);
      }
      hide Linked, LinkedAt, Follows, FollowsUpTo, HC.Weighed, Best, Inherits;
      hc.td := hc.td[x.hash := x.difficulty + hc.td[x.parent]];
      if IsGammaCanonicalChain(x, current) {
        Adopt(x);
        status := CanonStat;
      } else {
        hc.headers := hc.headers[x.hash := x];
        status := SideStat;
      }
    }
  }
}
