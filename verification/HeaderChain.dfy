/**
  The header chain: headers are stored with their total difficulty, and the canonical index is
  re-routed when a heavier header arrives.
 */
module HeaderChain {
  import opened Chain

  /** The sum of difficulties from the genesis to `h`. */
  ghost function TotalDifficulty(hs: Headers, g: Hash, h: Hash): nat
    requires Linked(hs, g) && h in hs
    decreases hs[h].number
  {
    assert LinkedAt(hs, g, h);
    hs[h].difficulty + if h == g then 0 else TotalDifficulty(hs, g, hs[h].parent)
  }

  lemma {:induction false} TotalKept(hs: Headers, g: Hash, x: Header, h: Hash)
    requires Linked(hs, g) && Extends(hs, x) && h in hs
    ensures Linked(hs[x.hash := x], g) && TotalDifficulty(hs[x.hash := x], g, h) == TotalDifficulty(hs, g, h)
    decreases hs[h].number
  {
    assert LinkedAt(hs, g, h);
    LinkedMore(hs, g, x);
    if h != g {
      TotalKept(hs, g, x, hs[h].parent);
    }
  }

  ghost predicate Weighed(td: map<Hash, nat>, hs: Headers, g: Hash)
    requires Linked(hs, g)
  {
    td.Keys == hs.Keys && forall h <- hs :: td[h] == TotalDifficulty(hs, g, h)
  }

  ghost predicate Heaviest(td: map<Hash, nat>, c: Hash) {
    c in td && forall h <- td :: td[h] <= td[c]
  }

  /** Storing a header with its total difficulty. */
  lemma {:induction false} WeighedMore(td: map<Hash, nat>, hs: Headers, g: Hash, x: Header)
    requires Linked(hs, g) && Weighed(td, hs, g) && Extends(hs, x)
    ensures x.parent in td
    ensures Linked(hs[x.hash := x], g) && Weighed(td[x.hash := x.difficulty + td[x.parent]], hs[x.hash := x], g)
  {
    var hs1, td1 := hs[x.hash := x], td[x.hash := x.difficulty + td[x.parent]];
    forall h <- hs ensures Linked(hs1, g) && TotalDifficulty(hs1, g, h) == TotalDifficulty(hs, g, h) {
      TotalKept(hs, g, x, h);
    }
    assert Linked(hs1, g) && TotalDifficulty(hs1, g, x.hash) == x.difficulty + TotalDifficulty(hs1, g, x.parent);
    hide TotalDifficulty, Linked;
  }

  lemma {:induction false} WeighedSame(td: map<Hash, nat>, hs: Headers, g: Hash, x: Header)
    requires Linked(hs, g) && Weighed(td, hs, g) && x.hash in hs && hs[x.hash] == x && x.hash != g
    ensures x.parent in td && hs[x.hash := x] == hs && td[x.hash := x.difficulty + td[x.parent]] == td
  {
    assert LinkedAt(hs, g, x.hash);
    assert x.parent in hs && td[x.hash] == x.difficulty + td[x.parent];
    hide *;
    assert hs[x.hash := x] == hs;
    assert td[x.hash := td[x.hash]] == td;
  }

  /** While the index is re-routed from `c` to `x`: still the chain of `c` up to `m`, already the
      chain of `x` above it. */
  ghost predicate Rerouting(canon: Canon, hs: Headers, g: Hash, c: Hash, x: Hash, m: nat)
    requires Linked(hs, g) && c in hs && x in hs && m < hs[x].number
  {
    && (forall n :: 0 <= n <= m && n <= hs[c].number ==> n in canon && canon[n] == Ancestor(hs, g, c, n))
    && (forall n <- canon :: n <= m ==> n <= hs[c].number)
    && (forall n :: m < n < hs[x].number ==> n in canon && canon[n] == Ancestor(hs, g, x, n))
    && (forall n <- canon :: n <= hs[x].number)
  }

  /** Where the index already has the chain of `x`, the rest below is right too. */
  lemma {:induction false} RerouteDone(canon: Canon, hs: Headers, g: Hash, c: Hash, x: Hash, m: nat)
    requires Linked(hs, g) && c in hs && x in hs && m < hs[x].number && Rerouting(canon, hs, g, c, x, m)
    requires m in canon && canon[m] == Ancestor(hs, g, x, m)
    ensures Follows(canon[hs[x].number := x], hs, g, x)
  {
    AgreeBelow(canon, hs, g, c, x, m);
  }

  lemma {:induction false} RerouteStep(canon: Canon, hs: Headers, g: Hash, c: Hash, x: Hash, m: nat)
    requires Linked(hs, g) && c in hs && x in hs && m < hs[x].number && Rerouting(canon, hs, g, c, x, m)
    requires m !in canon || canon[m] != Ancestor(hs, g, x, m)
    ensures var a := Ancestor(hs, g, x, m);
            && a != NO_HASH && m > 0 && hs[a].parent in hs && hs[a].number == m
            && hs[a].parent == Ancestor(hs, g, x, m - 1)
            && Rerouting(canon[m := a], hs, g, c, x, m - 1)
  {
    var a := Ancestor(hs, g, x, m);
    GenesisIsZero(hs, g, x);
    GenesisIsZero(hs, g, c);
    assert m > 0;
    GenesisIsZero(hs, g, a);
    assert LinkedAt(hs, g, a);
    AncestorOfAncestor(hs, g, x, m, m - 1);
  }

  /** A header is stored beside a chain that the index follows. */
  lemma {:induction false} StoreKeeps(hs: Headers, td: map<Hash, nat>, canon: Canon, g: Hash, c: Hash, x: Header)
    requires Linked(hs, g) && Weighed(td, hs, g) && c in hs && Follows(canon, hs, g, c)
    requires x.hash != NO_HASH && (x.hash in hs ==> hs[x.hash] == x) && x.parent in hs && x.number == hs[x.parent].number + 1
    ensures var hs1, td1 := hs[x.hash := x], td[x.hash := x.difficulty + td[x.parent]];
            && Linked(hs1, g) && Weighed(td1, hs1, g) && hs1[c] == hs[c] && Follows(canon, hs1, g, c) && td1[c] == td[c]
            && (forall h <- td :: td1[h] == td[h]) && x.hash != g
  {
    if x.hash in hs {
      WeighedSame(td, hs, g, x);
    } else {
      WeighedMore(td, hs, g, x);
      forall n | 0 <= n <= hs[c].number ensures Ancestor(hs[x.hash := x], g, c, n) == Ancestor(hs, g, c, n) {
        AncestorKept(hs, g, x, c, n);
      }
    }
  }

  lemma {:induction false} IndexHasNoZero(canon: Canon, hs: Headers, g: Hash, c: Hash)
    requires Linked(hs, g) && c in hs && Follows(canon, hs, g, c)
    ensures forall n <- canon :: canon[n] != NO_HASH
  {
    forall n <- canon ensures canon[n] != NO_HASH {
      assert LinkedAt(hs, g, Ancestor(hs, g, c, n));
    }
  }

  /** What `ValidateHeaderChain` checks, and that equal hashes mean equal headers. */
  ghost predicate Contiguous(chain: seq<Header>) {
    && (forall i :: 1 <= i < |chain| ==> chain[i].number == chain[i - 1].number + 1 && chain[i].parent == chain[i - 1].hash)
    && (forall i, j :: 0 <= i < j < |chain| ==> chain[i].hash == chain[j].hash ==> chain[i] == chain[j])
  }

  lemma {:induction false} Rising(chain: seq<Header>, i: nat, j: nat)
    requires Contiguous(chain) && i <= j < |chain|
    ensures chain[j].number == chain[i].number + (j - i)
  {
    if i < j {
      Rising(chain, i, j - 1);
    }
  }

  lemma {:induction false} Numbered(chain: seq<Header>, i: nat)
    requires Contiguous(chain) && i < |chain|
    ensures forall j :: 0 <= j < |chain| && j != i ==> chain[j].hash != chain[i].hash
  {
    forall j | 0 <= j < |chain| && j != i ensures chain[j].hash != chain[i].hash {
      Rising(chain, if i < j then i else j, if i < j then j else i);
    }
  }

  /** The headers left when those on the chain of `c` above number `m` are deleted. */
  ghost function Without(hs: Headers, g: Hash, c: Hash, m: nat): Headers
    requires Linked(hs, g) && c in hs
  {
    map h | h in hs && !(m < hs[h].number <= hs[c].number && Ancestor(hs, g, c, hs[h].number) == h) :: hs[h]
  }

  lemma {:induction false} WithoutNone(hs: Headers, g: Hash, c: Hash)
    requires Linked(hs, g) && c in hs
    ensures Without(hs, g, c, hs[c].number) == hs
  {
  }

  lemma {:induction false} WithoutTop(hs: Headers, g: Hash, c: Hash, m: nat)
    requires Linked(hs, g) && c in hs
    ensures m > hs[c].number ==> Without(hs, g, c, m) == hs == Without(hs, g, c, hs[c].number)
  {
  }

  lemma {:induction false} WithoutMore(hs: Headers, g: Hash, c: Hash, m: nat)
    requires Linked(hs, g) && c in hs && 0 < m <= hs[c].number
    ensures var a := Ancestor(hs, g, c, m);
            && hs[a].hash == a && hs[a].parent == Ancestor(hs, g, c, m - 1) && hs[hs[a].parent].hash == hs[a].parent
            && Without(hs, g, c, m) - {a} == Without(hs, g, c, m - 1)
            && hs[a].parent in Without(hs, g, c, m - 1) && hs[a].parent != a
  {
    var a := Ancestor(hs, g, c, m);
    GenesisIsZero(hs, g, a);
    assert LinkedAt(hs, g, a);
    AncestorOfAncestor(hs, g, c, m, m - 1);
    assert LinkedAt(hs, g, hs[a].parent);
    hide Linked, LinkedAt;
    forall h <- hs ensures h in Without(hs, g, c, m) && h != a <==> h in Without(hs, g, c, m - 1) {
    }
  }

  /** After a rewind the remaining headers are still linked exactly when no branch hung off a deleted one. */
  lemma {:induction false} RewindLinked(hs: Headers, g: Hash, c: Hash, m: nat)
    requires Linked(hs, g) && c in hs
    ensures var left := Without(hs, g, c, m);
            Linked(left, g) <==> forall h <- left :: h != g ==> hs[h].parent in left
  {
    var left := Without(hs, g, c, m);
    forall h <- left ensures LinkedAt(hs, g, h) {
    }
    if forall h <- left :: h != g ==> hs[h].parent in left {
      forall h <- left ensures LinkedAt(left, g, h) {
      }
    } else {
      var h :| h in left && h != g && hs[h].parent !in left;
      assert !LinkedAt(left, g, h);
    }
  }

  class HeaderChain {
    const genesis: Hash
    var headers: Headers
    var td: map<Hash, nat>
    var canon: Canon
    var currentHash: Hash
    var current: Header

    /** Headers are linked and weighed, and the current one is among them. */
    ghost predicate Consistent()
      reads this
    {
      && Linked(headers, genesis)
      && Weighed(td, headers, genesis)
      && currentHash in headers && current == headers[currentHash]
    }

    ghost predicate Valid()
      reads this
    {
      && Consistent()
      && Heaviest(td, currentHash)
      && Follows(canon, headers, genesis, currentHash)
    }

    constructor (g: Header)
      requires g.hash != NO_HASH && g.number == 0
      ensures Valid() && headers == map[g.hash := g] && currentHash == genesis == g.hash
    {
      genesis := g.hash;
      headers, td, canon := map[g.hash := g], map[g.hash := g.difficulty], map[0 := g.hash];
      currentHash, current := g.hash, g;
    }

    /** Delete every canonical number above `number`. */
    method DeleteAbove(number: nat, ghost top: nat)
      requires (forall n: nat :: n in canon <==> n <= top) && forall n <- canon :: canon[n] != NO_HASH
      modifies `canon
      ensures forall n: nat :: n in canon <==> n <= top && n <= number
      ensures forall n <- canon :: n in old(canon) && canon[n] == old(canon)[n]
    {
      var i := number + 1;
      while ReadCanonicalHash(canon, i) != NO_HASH
        invariant i > number && forall n: nat :: n in canon <==> n <= top && !(number < n < i)
        invariant forall n <- canon :: n in old(canon) && canon[n] == old(canon)[n]
        decreases top + 1 - i
      {
        canon := canon - {i};
        i := i + 1;
      }
    }

    /** Overwrite stale canonical numbers from the parent of `x` down to the common ancestor. */
    method OverwriteStale(x: Header, ghost c: Hash)
      requires Linked(headers, genesis) && c in headers && x.hash in headers && headers[x.hash] == x && x.hash != genesis
      requires x.number > 0 && Rerouting(canon, headers, genesis, c, x.hash, x.number - 1)
      modifies `canon
      ensures Follows(canon[x.number := x.hash], headers, genesis, x.hash)
    {
      assert LinkedAt(headers, genesis, x.hash);
      var headHash, headNumber := x.parent, x.number - 1;
      assert LinkedAt(headers, genesis, headHash);
      while ReadCanonicalHash(canon, headNumber) != headHash
        invariant 0 <= headNumber < x.number && headHash == Ancestor(headers, genesis, x.hash, headNumber) && headHash != NO_HASH
        invariant Rerouting(canon, headers, genesis, c, x.hash, headNumber)
        decreases headNumber
      {
        RerouteStep(canon, headers, genesis, c, x.hash, headNumber);
        canon := canon[headNumber := headHash];
        var headHeader := headers[headHash];
        headHash, headNumber := headHeader.parent, headHeader.number - 1;
        assert LinkedAt(headers, genesis, headHash);
      }
      RerouteDone(canon, headers, genesis, c, x.hash, headNumber);
    }

    /** Make a stored header the head of the canonical chain. */
    method Reroute(x: Header)
      requires Linked(headers, genesis) && currentHash in headers && x.hash in headers && headers[x.hash] == x && x.hash != genesis
      requires Follows(canon, headers, genesis, currentHash)
      modifies `canon, `currentHash, `current
      ensures currentHash == x.hash && current == x && Follows(canon, headers, genesis, x.hash)
    {
      ghost var c, top := currentHash, headers[currentHash].number;
      IndexHasNoZero(canon, headers, genesis, c);
      GenesisIsZero(headers, genesis, x.hash);
      assert forall n: nat :: n <= top ==> n in canon by {
        assert FollowsUpTo(canon, headers, genesis, c, top);
      }
      hide Linked;
      DeleteAbove(x.number, top);
      OverwriteStale(x, c);
      canon := canon[x.number := x.hash];
      currentHash, current := x.hash, x;
    }

    /** A header that a caller may write: its hash is its own, and it is numbered after its parent. */
    ghost predicate Offered(x: Header)
      reads this
    {
      && x.hash != NO_HASH && (x.hash in headers ==> headers[x.hash] == x)
      && (x.parent in headers ==> x.number == headers[x.parent].number + 1)
    }

    /** `WriteHeader`; `coin` is the random choice between equally heavy chains. */
    method WriteHeader(x: Header, coin: bool) returns (status: Status)
      requires Valid() && Offered(x)
      modifies this
      ensures Valid()
      ensures status == NonStat <==> x.parent !in old(headers)
      ensures status == NonStat ==> unchanged(this)
      ensures status != NonStat ==> headers == old(headers)[x.hash := x] && td[x.hash] == x.difficulty + old(td)[x.parent]
      ensures status == CanonStat <==>
              (x.parent in old(headers) && (td[x.hash] > old(td[currentHash]) || (td[x.hash] == old(td[currentHash]) && coin)))
      ensures currentHash == if status == CanonStat then x.hash else old(currentHash)
      ensures status != CanonStat ==> canon == old(canon)
    {
      if x.parent !in td {
        return NonStat;
      }
      var localTd, externTd := td[currentHash], x.difficulty + td[x.parent];
      StoreKeeps(headers, td, canon, genesis, currentHash, x);
      td := td[x.hash := externTd];
      headers := headers[x.hash := x];
      status := SideStat;
      if externTd > localTd || (externTd == localTd && coin) {
        Reroute(x);
        status := CanonStat;
      }
    }

    /** `InsertHeaderChain`: known headers are skipped. Of a contiguous run only the first header can
        have an unknown parent, so the run is stored whole or not at all. */
    method InsertHeaderChain(chain: seq<Header>, coins: seq<bool>) returns (index: nat, ok: bool)
      requires Valid() && |coins| == |chain| > 0 && Contiguous(chain) && Offered(chain[0])
      requires forall i :: 0 <= i < |chain| ==> chain[i].hash != NO_HASH && (chain[i].hash in headers ==> headers[chain[i].hash] == chain[i])
      modifies this
      ensures Valid() && index == 0
      ensures ok <==> chain[0].hash in old(headers) || chain[0].parent in old(headers)
      ensures !ok ==> unchanged(this)
      ensures ok ==> forall i :: 0 <= i < |chain| ==> chain[i].hash in headers && headers[chain[i].hash] == chain[i]
      ensures forall h <- old(headers) :: h in headers && headers[h] == old(headers)[h]
    {
      hide Consistent, Follows, Heaviest;
      index := 0;
      while index < |chain|
        invariant 0 <= index <= |chain| && Valid() && (index == 0 ==> unchanged(this))
        invariant index > 0 ==> chain[0].hash in old(headers) || chain[0].parent in old(headers)
        invariant forall i :: 0 <= i < index ==> chain[i].hash in headers && headers[chain[i].hash] == chain[i]
        invariant forall i :: index <= i < |chain| ==> chain[i].hash in headers ==> headers[chain[i].hash] == chain[i]
        invariant forall h <- old(headers) :: h in headers && headers[h] == old(headers)[h]
      {
        if chain[index].hash !in headers {
          Numbered(chain, index);
          assert index > 0 ==> chain[index].parent == chain[index - 1].hash;
          var status := WriteHeader(chain[index], coins[index]);
          if status == NonStat {
            return index, false;
          }
        }
        index := index + 1;
      }
      return 0, true;
    }

    /** `GetAncestorHash`; no result when the header is unknown or below the number asked for. */
    method GetAncestorHash(son: Hash, number: nat) returns (found: bool, hash: Hash)
      requires Linked(headers, genesis)
      ensures found <==> son in headers && number <= headers[son].number
      ensures hash == if found then Ancestor(headers, genesis, son, number) else NO_HASH
    {
      if son !in headers {
        return false, NO_HASH;
      }
      if headers[son].number == number {
        return true, son;
      } else if headers[son].number < number {
        return false, NO_HASH;
      }
      var cur := headers[son];
      assert LinkedAt(headers, genesis, son);
      hash := cur.parent;
      while cur.number - 1 != number
        invariant number < cur.number <= headers[son].number && hash in headers && headers[hash].number == cur.number - 1
        invariant hash == Ancestor(headers, genesis, son, cur.number - 1)
        decreases cur.number
      {
        assert LinkedAt(headers, genesis, hash);
        AncestorOfAncestor(headers, genesis, son, cur.number - 1, cur.number - 2);
        cur := headers[hash];
        hash := cur.parent;
      }
      found := true;
    }

    /** Delete the headers above `head` from the current one down. */
    method DropHeaders(head: nat)
      requires Consistent()
      modifies `headers, `td, `current
      ensures var top := if head < old(current.number) then head else old(current.number);
              current.hash == Ancestor(old(headers), genesis, old(currentHash), top) && current == old(headers)[current.hash]
      ensures headers == Without(old(headers), genesis, old(currentHash), head)
      ensures td.Keys == headers.Keys && forall h <- td :: td[h] == old(td)[h]
    {
      ghost var hs, c := headers, currentHash;
      assert LinkedAt(hs, genesis, c);
      WithoutNone(hs, genesis, c);
      hide Linked, LinkedAt, Without;
      while current.number > head
        invariant current.number <= hs[c].number && (current.number < hs[c].number ==> head <= current.number)
        invariant current.hash == Ancestor(hs, genesis, c, current.number) && current == hs[current.hash]
        invariant headers == Without(hs, genesis, c, current.number)
        invariant td.Keys == headers.Keys && forall h <- td :: td[h] == old(td)[h]
        decreases current.number
      {
        var hash := current.hash;
        WithoutMore(hs, genesis, c, current.number);
        headers, td := headers - {hash}, td - {hash};
        current := headers[current.parent];
      }
      WithoutTop(hs, genesis, c, head);
    }

    /** Delete the canonical numbers from `height` down to just above `head`. */
    method CutIndex(height: nat, head: nat)
      modifies `canon
      ensures forall n: nat :: n in canon <==> n in old(canon) && !(head < n <= height)
      ensures forall n <- canon :: canon[n] == old(canon)[n]
    {
      var i := height;
      while i > head
        invariant i <= height && (i < height ==> i >= head)
        invariant forall n: nat :: n in canon <==> n in old(canon) && !(i < n <= height)
        invariant forall n <- canon :: canon[n] == old(canon)[n]
      {
        canon := canon - {i};
        i := i - 1;
      }
    }

    method SetCurrentHeader(x: Header)
      modifies `current, `currentHash
      ensures current == x && currentHash == x.hash
    {
      current, currentHash := x, x.hash;
    }

    /** `SetSBlkHead`: as `SetHead`, but the index is cut from the number of `oldHead` down. */
    method SetSBlkHead(oldHead: Header, head: nat)
      requires Consistent()
      modifies this
      ensures var top := if head < old(current.number) then head else old(current.number);
              currentHash == Ancestor(old(headers), genesis, old(currentHash), top) && current == old(headers)[currentHash]
      ensures headers == Without(old(headers), genesis, old(currentHash), head)
      ensures td.Keys == headers.Keys && forall h <- td :: td[h] == old(td)[h]
      ensures forall n: nat :: n in canon <==> n in old(canon) && !(head < n <= oldHead.number)
      ensures forall n <- canon :: canon[n] == old(canon)[n]
    {
      DropHeaders(head);
      CutIndex(oldHead.number, head);
      currentHash := current.hash;
    }

    /** `SetHead`: the headers of the canonical chain above `head` are deleted and the index is cut there. */
    method SetHead(head: nat)
      requires Consistent() && Follows(canon, headers, genesis, currentHash)
      modifies this
      ensures var top := if head < old(current.number) then head else old(current.number);
              && currentHash == Ancestor(old(headers), genesis, old(currentHash), top) && current == old(headers)[currentHash]
              && FollowsUpTo(canon, old(headers), genesis, currentHash, top) && forall n <- canon :: n <= top
      ensures headers == Without(old(headers), genesis, old(currentHash), head)
      ensures td.Keys == headers.Keys && forall h <- td :: td[h] == old(td)[h]
    {
      var height := current.number;
      ghost var top := if head < height then head else height;
      DropHeaders(head);
      CutIndex(height, head);
      currentHash := current.hash;
      AgreeBelow(canon, old(headers), genesis, old(currentHash), currentHash, top);
    }
  }
}
