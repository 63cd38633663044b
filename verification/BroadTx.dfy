/**
  The broadcast transactions of a block: a slice kept sorted by (key, address) and searched by
  halving (`BroadTxSlice` in common/types.go). Keys are Go strings, that is, strings of bytes.
 */
module BroadTx {
  import opened Addresses
  import opened Options

  type Text = seq<Octet>

  datatype Key = Key(text: Text, address: Address)

  datatype Entry = Entry(key: Key, value: Text)

  // --- The order on keys. ---

  /** Byte by byte: negative, zero or positive as `bytes.Compare`. */
  function Lex(a: Text, b: Text): int {
    if a == [] then (if b == [] then 0 else -1)
    else if b == [] then 1
    else if a[0] < b[0] then -1
    else if a[0] > b[0] then 1
    else Lex(a[1..], b[1..])
  }

  lemma {:induction false} LexTotal(a: Text, b: Text)
    ensures Lex(a, b) == 0 - Lex(b, a)
    ensures Lex(a, b) == 0 <==> a == b
  {
    if a != [] && b != [] && a[0] == b[0] {
      LexTotal(a[1..], b[1..]);
      assert a == [a[0]] + a[1..] && b == [b[0]] + b[1..];
    }
  }

  lemma {:induction false} LexTransitive(a: Text, b: Text, c: Text)
    requires Lex(a, b) < 0 && Lex(b, c) < 0
    ensures Lex(a, c) < 0
  {
    if a != [] && a[0] == b[0] && b[0] == c[0] {
      LexTransitive(a[1..], b[1..], c[1..]);
    }
  }

  predicate Greater(a: Key, b: Key) {
    if Lex(a.text, b.text) > 0 then true
    else if a.text == b.text then Lex(a.address, b.address) > 0
    else false
  }

  predicate Less(a: Key, b: Key) {
    if Lex(a.text, b.text) < 0 then true
    else if a.text == b.text then Lex(a.address, b.address) < 0
    else false
  }

  /** The two comparisons are converse, and exactly one of less, equal, greater holds. */
  lemma {:induction false} OrderTotal(a: Key, b: Key)
    ensures Greater(a, b) == Less(b, a)
    ensures !Less(a, b) && !Greater(a, b) <==> a == b
    ensures !(Less(a, b) && Greater(a, b))
  {
    LexTotal(a.text, b.text);
    LexTotal(a.address, b.address);
  }

  lemma {:induction false} OrderTransitive(a: Key, b: Key, c: Key)
    requires Less(a, b) && Less(b, c)
    ensures Less(a, c)
  {
    LexTotal(a.text, b.text);
    LexTotal(b.text, c.text);
    if a.text == b.text && b.text == c.text {
      LexTransitive(a.address, b.address, c.address);
    } else if a.text != b.text && b.text != c.text {
      LexTransitive(a.text, b.text, c.text);
    }
  }

  function ZeroAddress(): Address {
    seq(LENGTH, i => 0)
  }

  function FullAddress(): Address {
    seq(LENGTH, i => 255)
  }

  lemma {:induction false} Lowest(n: nat, a: Text)
    requires |a| == n
    ensures Lex(seq(n, i => 0), a) <= 0
  {
    if n > 0 {
      assert seq<Octet>(n, i => 0)[1..] == seq<Octet>(n - 1, i => 0);
      Lowest(n - 1, a[1..]);
    }
  }

  lemma {:induction false} Highest(n: nat, a: Text)
    requires |a| == n
    ensures Lex(a, seq(n, i => 255)) <= 0
  {
    if n > 0 {
      assert seq<Octet>(n, i => 255)[1..] == seq<Octet>(n - 1, i => 255);
      Highest(n - 1, a[1..]);
    }
  }

  // --- Sorted slices. ---

  ghost predicate Sorted(info: seq<Entry>) {
    forall i, j | 0 <= i < j < |info| :: Less(info[i].key, info[j].key)
  }

  /** What the slice records: the value under each key. */
  ghost function Contents(info: seq<Entry>): map<Key, Text> {
    if info == [] then map[]
    else Contents(info[..|info| - 1])[info[|info| - 1].key := info[|info| - 1].value]
  }

  /** `index` separates the smaller keys from the others. */
  ghost predicate Cut(info: seq<Entry>, k: Key, index: int) {
    && 0 <= index <= |info|
    && (forall i | 0 <= i < index :: Less(info[i].key, k))
    && (forall i | index <= i < |info| :: !Less(info[i].key, k))
  }

  ghost predicate Holds(info: seq<Entry>, k: Key) {
    exists i | 0 <= i < |info| :: info[i].key == k
  }

  /** Searching by halving finds the key if it is there, and else the place where it belongs. */
  method Find(k: Key, info: seq<Entry>) returns (index: int, exist: bool)
    requires Sorted(info)
    ensures exist == Holds(info, k) && Cut(info, k, index)
    ensures exist ==> index < |info| && info[index].key == k
  {
    hide Less, Greater;
    var left, right, mid := 0, |info| - 1, 0;
    if right < 0 {
      return 0, false;
    }
    while true
      invariant 0 <= left <= right < |info|
      invariant forall i | 0 <= i < left :: Less(info[i].key, k)
      invariant forall i | right < i < |info| :: Greater(info[i].key, k)
      decreases right - left
    {
      mid := (left + right) / 2;
      OrderTotal(info[mid].key, k);
      if Greater(info[mid].key, k) {
        Beyond(info, mid, k);
        right := mid - 1;
      } else if Less(info[mid].key, k) {
        Before(info, mid, k);
        left := mid + 1;
      } else {
        Found(info, mid);
        return mid, true;
      }
      if left > right {
        NotFound(info, k, left);
        return left, false;
      }
    }
  }

  lemma {:induction false} Beyond(info: seq<Entry>, mid: int, k: Key)
    requires Sorted(info) && 0 <= mid < |info| && Greater(info[mid].key, k)
    ensures forall i | mid <= i < |info| :: Greater(info[i].key, k)
  {
    hide Less, Greater;
    forall i | mid < i < |info|
      ensures Greater(info[i].key, k)
    {
      OrderTotal(info[mid].key, k);
      OrderTotal(info[i].key, k);
      OrderTransitive(k, info[mid].key, info[i].key);
    }
  }

  lemma {:induction false} Before(info: seq<Entry>, mid: int, k: Key)
    requires Sorted(info) && 0 <= mid < |info| && Less(info[mid].key, k)
    ensures forall i | 0 <= i <= mid :: Less(info[i].key, k)
  {
    hide Less;
    forall i | 0 <= i < mid
      ensures Less(info[i].key, k)
    {
      OrderTransitive(info[i].key, info[mid].key, k);
    }
  }

  lemma {:induction false} Found(info: seq<Entry>, mid: int)
    requires Sorted(info) && 0 <= mid < |info|
    ensures Cut(info, info[mid].key, mid) && Holds(info, info[mid].key)
  {
    hide Less, Greater;
    forall i | mid <= i < |info|
      ensures !Less(info[i].key, info[mid].key)
    {
      OrderTotal(info[i].key, info[mid].key);
    }
  }

  lemma {:induction false} NotFound(info: seq<Entry>, k: Key, left: int)
    requires 0 <= left <= |info|
    requires forall i | 0 <= i < left :: Less(info[i].key, k)
    requires forall i | left <= i < |info| :: Greater(info[i].key, k)
    ensures Cut(info, k, left) && !Holds(info, k)
  {
    hide Less, Greater;
    forall i | 0 <= i < |info|
      ensures info[i].key != k && (left <= i ==> !Less(info[i].key, k))
    {
      OrderTotal(info[i].key, k);
    }
  }

  // --- Contents of a sorted slice. ---

  lemma {:induction false} SortedFront(info: seq<Entry>)
    requires Sorted(info) && info != []
    ensures Sorted(info[..|info| - 1])
    ensures forall i | 0 <= i < |info| - 1 :: info[i].key != info[|info| - 1].key
  {
    hide Less;
    forall i | 0 <= i < |info| - 1
      ensures info[i].key != info[|info| - 1].key
    {
      OrderTotal(info[i].key, info[|info| - 1].key);
    }
  }

  /** The contents are the entries: each with its value, and no other key. */
  lemma {:induction false} ContentsHold(info: seq<Entry>, k: Key)
    requires Sorted(info)
    ensures k in Contents(info) <==> Holds(info, k)
    ensures forall i | 0 <= i < |info| && info[i].key == k :: Contents(info)[k] == info[i].value
  {
    hide Less;
    if info != [] {
      var front, last := info[..|info| - 1], info[|info| - 1];
      SortedFront(info);
      ContentsHold(front, k);
      if Holds(front, k) {
        var i :| 0 <= i < |front| && front[i].key == k;
        assert info[i].key == k;
      }
      if Holds(info, k) && last.key != k {
        var i :| 0 <= i < |info| && info[i].key == k;
        assert front[i].key == k;
      }
    }
  }

  function Inserted(info: seq<Entry>, index: nat, e: Entry): seq<Entry>
    requires index <= |info|
  {
    info[..index] + [e] + info[index..]
  }

  lemma {:induction false} InsertedOk(info: seq<Entry>, index: nat, e: Entry)
    requires Sorted(info) && Cut(info, e.key, index) && !Holds(info, e.key)
    ensures Sorted(Inserted(info, index, e))
    ensures Contents(Inserted(info, index, e)) == Contents(info)[e.key := e.value]
  {
    hide Less, Contents;
    var now := Inserted(info, index, e);
    forall i | index <= i < |info|
      ensures Less(e.key, info[i].key)
    {
      OrderTotal(info[i].key, e.key);
    }
    assert forall i | 0 <= i < |now| ::
        now[i] == if i < index then info[i] else if i == index then e else info[i - 1];
    assert Sorted(now);
    forall k
      ensures k in Contents(now) <==> k in Contents(info) || k == e.key
      ensures k in Contents(now) ==> Contents(now)[k] == if k == e.key then e.value else Contents(info)[k]
    {
      InsertedAt(info, index, e, k);
    }
  }

  lemma {:induction false} InsertedAt(info: seq<Entry>, index: nat, e: Entry, k: Key)
    requires index <= |info| && Sorted(info) && Sorted(Inserted(info, index, e)) && !Holds(info, e.key)
    ensures var now := Inserted(info, index, e);
            && (k in Contents(now) <==> k in Contents(info) || k == e.key)
            && (k in Contents(now) ==> Contents(now)[k] == if k == e.key then e.value else Contents(info)[k])
  {
    hide Less, Contents, Sorted;
    var now := Inserted(info, index, e);
    ContentsHold(info, k);
    ContentsHold(now, k);
    assert now[index] == e;
    if Holds(info, k) {
      var i :| 0 <= i < |info| && info[i].key == k;
      assert now[if i < index then i else i + 1] == info[i];
    }
    if Holds(now, k) && k != e.key {
      var i :| 0 <= i < |now| && now[i].key == k;
      assert now[i] == info[if i < index then i else i - 1];
    }
  }

  lemma {:induction false} ReplacedOk(info: seq<Entry>, index: nat, e: Entry)
    requires Sorted(info) && index < |info| && info[index].key == e.key
    ensures Sorted(info[index := e])
    ensures Contents(info[index := e]) == Contents(info)[e.key := e.value]
  {
    hide Less, Contents;
    var now := info[index := e];
    forall k
      ensures k in Contents(now) <==> k in Contents(info) || k == e.key
      ensures k in Contents(now) ==> Contents(now)[k] == if k == e.key then e.value else Contents(info)[k]
    {
      ReplacedAt(info, index, e, k);
    }
  }

  lemma {:induction false} ReplacedAt(info: seq<Entry>, index: nat, e: Entry, k: Key)
    requires Sorted(info) && index < |info| && info[index].key == e.key && Sorted(info[index := e])
    ensures var now := info[index := e];
            && (k in Contents(now) <==> k in Contents(info) || k == e.key)
            && (k in Contents(now) ==> Contents(now)[k] == if k == e.key then e.value else Contents(info)[k])
  {
    hide Less, Contents, Sorted;
    var now := info[index := e];
    ContentsHold(info, k);
    ContentsHold(now, k);
    assert now[index] == e;
    if Holds(info, k) {
      var i :| 0 <= i < |info| && info[i].key == k;
      assert now[i].key == k;
    }
    if Holds(now, k) && k != e.key {
      var i :| 0 <= i < |now| && now[i].key == k;
      assert now[i] == info[i];
    }
  }

  // --- The entries of one key. ---

  /** What `FindKey` is to return: the value under each address of the key. */
  ghost function Under(info: seq<Entry>, text: Text): map<Address, Text> {
    map k | k in Contents(info) && k.text == text :: k.address := Contents(info)[k]
  }

  /** The entries from `lo` to `hi` as a map, later ones over earlier ones. */
  function Gather(info: seq<Entry>, lo: nat, hi: nat): map<Address, Text>
    requires lo <= hi <= |info|
  {
    if lo == hi then map[] else Gather(info, lo, hi - 1)[info[hi - 1].key.address := info[hi - 1].value]
  }

  lemma {:induction false} GatherFirst(info: seq<Entry>, lo: nat, hi: nat)
    requires lo < hi <= |info|
    ensures Gather(info, lo, hi) == map[info[lo].key.address := info[lo].value] + Gather(info, lo + 1, hi)
    decreases hi
  {
    if hi > lo + 1 {
      GatherFirst(info, lo, hi - 1);
    }
  }

  /** `lo` to `hi` are the places of the key. */
  ghost predicate Places(info: seq<Entry>, text: Text, lo: nat, hi: nat) {
    lo <= hi <= |info| && forall i | 0 <= i < |info| :: lo <= i < hi <==> info[i].key.text == text
  }

  lemma {:induction false} PlacesOk(info: seq<Entry>, text: Text, lo: nat, at: nat)
    requires Sorted(info)
    requires Cut(info, Key(text, ZeroAddress()), lo) && Cut(info, Key(text, FullAddress()), at)
    ensures var hi := if Holds(info, Key(text, FullAddress())) then at + 1 else at;
            Places(info, text, lo, hi)
  {
    var zero, full := Key(text, ZeroAddress()), Key(text, FullAddress());
    forall i | 0 <= i < |info|
      ensures Less(info[i].key, zero) ==> Lex(info[i].key.text, text) < 0
      ensures !Less(info[i].key, zero) ==> Lex(info[i].key.text, text) >= 0
      ensures Less(info[i].key, full) ==> Lex(info[i].key.text, text) <= 0
      ensures !Less(info[i].key, full) && info[i].key != full ==> Lex(info[i].key.text, text) > 0
    {
      EndsOf(info[i].key, text);
    }
    assert Lex(text, text) == 0 by { LexTotal(text, text); }
    FullAt(info, text, at);
    forall i | 0 <= i < |info|
      ensures Lex(info[i].key.text, text) == 0 <==> info[i].key.text == text
    {
      LexTotal(info[i].key.text, text);
    }
  }

  /** The full address, when it is there, stands at its cut. */
  lemma {:induction false} FullAt(info: seq<Entry>, text: Text, at: nat)
    requires Sorted(info) && Cut(info, Key(text, FullAddress()), at)
    ensures var full := Key(text, FullAddress());
            && (Holds(info, full) <==> at < |info| && info[at].key == full)
            && forall i | at < i < |info| :: info[i].key != full
  {
    hide Less;
    var full := Key(text, FullAddress());
    forall i | 0 <= i < |info| && info[i].key == full
      ensures i == at
    {
      OrderTotal(full, full);
      OrderTotal(info[at].key, info[i].key);
    }
  }

  lemma {:induction false} EndsOf(k: Key, text: Text)
    ensures Less(k, Key(text, ZeroAddress())) <==> Lex(k.text, text) < 0
    ensures Less(k, Key(text, FullAddress())) || k == Key(text, FullAddress()) <==> Lex(k.text, text) <= 0
  {
    LexTotal(k.text, text);
    Lowest(LENGTH, k.address);
    Highest(LENGTH, k.address);
    LexTotal(k.address, ZeroAddress());
    LexTotal(k.address, FullAddress());
  }

  lemma {:induction false} GatherHolds(info: seq<Entry>, text: Text, lo: nat, hi: nat, a: Address)
    requires Sorted(info) && lo <= hi <= |info| && forall i | lo <= i < hi :: info[i].key.text == text
    ensures a in Gather(info, lo, hi) <==> exists i | lo <= i < hi :: info[i].key == Key(text, a)
    ensures forall i | lo <= i < hi && info[i].key == Key(text, a) :: Gather(info, lo, hi)[a] == info[i].value
    decreases hi
  {
    hide Less;
    if lo < hi {
      GatherHolds(info, text, lo, hi - 1, a);
      var last := info[hi - 1];
      assert last.key == Key(text, last.key.address);
      forall i | lo <= i < hi - 1
        ensures info[i].key != last.key
      {
        OrderTotal(info[i].key, last.key);
      }
      if a == last.key.address {
        assert info[hi - 1].key == Key(text, a);
      }
    }
  }

  lemma {:induction false} GatherIsUnder(info: seq<Entry>, text: Text, lo: nat, hi: nat)
    requires Sorted(info) && Places(info, text, lo, hi)
    ensures Gather(info, lo, hi) == Under(info, text)
  {
    hide Less, Contents, Gather, Sorted;
    forall a: Address
      ensures a in Gather(info, lo, hi) <==> a in Under(info, text)
      ensures a in Gather(info, lo, hi) ==> Gather(info, lo, hi)[a] == Under(info, text)[a]
    {
      GatherHolds(info, text, lo, hi, a);
      ContentsHold(info, Key(text, a));
      UnderIs(info, text, a);
    }
  }

  lemma {:induction false} UnderIs(info: seq<Entry>, text: Text, a: Address)
    ensures a in Under(info, text) <==> Key(text, a) in Contents(info)
    ensures a in Under(info, text) ==> Under(info, text)[a] == Contents(info)[Key(text, a)]
  {
    hide Contents;
    assert Key(text, a).text == text && Key(text, a).address == a;
    if a in Under(info, text) {
      var k :| k in Contents(info) && k.text == text && k.address == a;
      assert k == Key(text, a);
    }
  }

  // --- The slice. ---

  /** The entry of the key's zero address has an entry before it, under an address the key also has. */
  ghost predicate Covered(info: seq<Entry>, text: Text) {
    exists i | 0 < i < |info| ::
      info[i].key == Key(text, ZeroAddress()) && info[i - 1].key.address in Under(info, text)
  }

  class BroadTxSlice {
    var info: seq<Entry>

    ghost predicate Valid()
      reads this
    {
      Sorted(info)
    }

    constructor ()
      ensures Valid() && Contents(info) == map[]
    {
      info := [];
    }

    method Insert(text: Text, address: Address, value: Text)
      requires Valid()
      modifies this
      ensures Valid() && Contents(info) == old(Contents(info))[Key(text, address) := value]
      ensures |info| == old(|info|) + if old(Holds(info, Key(text, address))) then 0 else 1
    {
      hide Less, Contents, Sorted;
      var insValue := Entry(Key(text, address), value);
      var index, exist := Find(insValue.key, info);
      if exist {
        ReplacedOk(info, index, insValue);
        info := info[index := insValue];
      } else {
        InsertedOk(info, index, insValue);
        InsertAt(index, insValue);
      }
    }

    method InsertAt(index: nat, e: Entry)
      requires index <= |info|
      modifies this
      ensures info == Inserted(old(info), index, e)
    {
      ghost var was := info;
      info := info + [e];
      var i := |info| - 1;
      while i > index
        invariant index <= i < |info| == |was| + 1
        invariant info == Inserted(was, i, e)
      {
        info := info[i := info[i - 1]][i - 1 := info[i]];
        i := i - 1;
      }
    }

    method FindValue(text: Text, address: Address) returns (value: Option<Text>)
      requires Valid()
      ensures var k := Key(text, address);
              value == if k in Contents(info) then Some(Contents(info)[k]) else None
    {
      hide Less, Contents, Sorted;
      var index, exist := Find(Key(text, address), info);
      ContentsHold(info, Key(text, address));
      value := if exist then Some(info[index].value) else None;
    }

    /**
      The entries of a key. With an entry under the zero address the range is taken one too far
      down: the entry before it is returned as well, and at the head of the slice there is none.
     */
    method FindKey(text: Text) returns (r: Option<map<Address, Text>>)
      requires Valid()
      ensures r == None <==> info != [] && info[0].key == Key(text, ZeroAddress())
      ensures forall i | 0 < i < |info| && info[i].key == Key(text, ZeroAddress()) ::
                r == Some(map[info[i - 1].key.address := info[i - 1].value] + Under(info, text))
      ensures r == Some(Under(info, text)) <==> !Holds(info, Key(text, ZeroAddress())) || Covered(info, text)
    {
      hide Less, Contents, Sorted, Under, Gather, Covered, Holds, ZeroAddress, FullAddress;
      var first, exist := Find(Key(text, ZeroAddress()), info);
      var last, exist1 := Find(Key(text, FullAddress()), info);
      ghost var lo := first;
      PlacesOk(info, text, first, last);
      if exist {
        first := first - 1;
      }
      if exist1 {
        last := last + 1;
      }
      if first < 0 {
        r := None;
      } else {
        var valueMap := Collect(first, last);
        r := Some(valueMap);
      }
      FindKeyOk(info, text, lo, last, r);
    }

    method Collect(lo: nat, hi: nat) returns (valueMap: map<Address, Text>)
      requires lo <= hi <= |info|
      ensures valueMap == Gather(info, lo, hi)
    {
      valueMap := map[];
      var first := lo;
      while first < hi
        invariant lo <= first <= hi && valueMap == Gather(info, lo, first)
      {
        valueMap := valueMap[info[first].key.address := info[first].value];
        first := first + 1;
      }
    }
  }

  lemma {:induction false} FindKeyOk(info: seq<Entry>, text: Text, lo: nat, hi: nat, r: Option<map<Address, Text>>)
    requires Sorted(info) && Places(info, text, lo, hi)
    requires var zero := Key(text, ZeroAddress());
             && (Holds(info, zero) ==> lo < |info| && info[lo].key == zero)
             && r == if !Holds(info, zero) then Some(Gather(info, lo, hi))
                     else if lo == 0 then None
                     else Some(Gather(info, lo - 1, hi))
    ensures r == None <==> info != [] && info[0].key == Key(text, ZeroAddress())
    ensures forall i | 0 < i < |info| && info[i].key == Key(text, ZeroAddress()) ::
              r == Some(map[info[i - 1].key.address := info[i - 1].value] + Under(info, text))
    ensures r == Some(Under(info, text)) <==> !Holds(info, Key(text, ZeroAddress())) || Covered(info, text)
  {
    hide Less, Contents, Sorted, Under;
    GatherIsUnder(info, text, lo, hi);
    KeyOnce(info);
    if Holds(info, Key(text, ZeroAddress())) {
      if lo > 0 {
        GatherFirst(info, lo - 1, hi);
        Uncovered(info, text, lo);
      }
    }
  }

  lemma {:induction false} KeyOnce(info: seq<Entry>)
    requires Sorted(info)
    ensures forall i, j | 0 <= i < |info| && 0 <= j < |info| && info[i].key == info[j].key :: i == j
  {
    hide Less;
    forall i, j | 0 <= i < |info| && 0 <= j < |info| && info[i].key == info[j].key
      ensures i == j
    {
      OrderTotal(info[i].key, info[j].key);
    }
  }

  lemma {:induction false} Uncovered(info: seq<Entry>, text: Text, i: nat)
    requires Sorted(info) && 0 < i < |info| && info[i].key == Key(text, ZeroAddress())
    requires info[i - 1].key.text != text
    ensures map[info[i - 1].key.address := info[i - 1].value] + Under(info, text) == Under(info, text)
       <==> Covered(info, text)
  {
    hide Less, Contents, Under, Sorted;
    KeyOnce(info);
    var before := info[i - 1];
    var sum := map[before.key.address := before.value] + Under(info, text);
    assert before.key.address in sum;
    if before.key.address in Under(info, text) {
      assert sum == Under(info, text);
    }
  }

  const STRANGER := Entry(Key([1], FullAddress()), [7])

  const AT_ZERO := Entry(Key([2], ZeroAddress()), [8])

  /** Two entries, the second under the zero address: `FindKey` of its key returns both. */
  lemma {:induction false} ReturnsStranger()
    ensures var info := [STRANGER, AT_ZERO];
            && Sorted(info) && Holds(info, Key([2], ZeroAddress())) && !Covered(info, [2])
            && FullAddress() !in Under(info, [2])
            && Gather(info, 0, 2) != Under(info, [2])
  {
    var info := [STRANGER, AT_ZERO];
    assert info[1].key == Key([2], ZeroAddress());
    assert FullAddress()[0] == 255 && ZeroAddress()[0] == 0;
    ContentsHold(info, Key([2], FullAddress()));
    UnderIs(info, [2], FullAddress());
    GatherFirst(info, 0, 2);
    assert Gather(info, 1, 2) == map[ZeroAddress() := [8]] by { assert Gather(info, 1, 1) == map[]; }
  }
}
