/**
  Saving a tree to a content-addressed store and restoring it. A saved node holds its entries'
  value maps as lists of one-entry maps in hash order, and the hashes of its children. The hash
  function is modelled as collision free: a hash is the record it was computed from.
 */
module BTreeSave {
  import opened BTreeSpec
  import opened BTreeStore
  import opened Listings
  import Runs = BTreeRuns
  import Forests = BTreeForest
  import opened Options

  /** One key of a saved node: its time and its value map cut into one-entry maps. */
  datatype Saved = Saved(time: nat, maps: seq<ValueMap>)

  datatype BnodeSave = BnodeSave(key: seq<Saved>, child: seq<Hash>)

  datatype Hash = Zero | Of(save: BnodeSave)

  /** The tree kinds that `BtreeSaveHash` and `RestoreBtree` know, and any other byte. */
  datatype TreeKind = Revocable | Timed | Other

  // ----- What a tree holds -----

  datatype Entry = Entry(time: nat, value: ValueMap)

  /** Shape, keys and value maps of a tree, without references. */
  datatype Image = Image(entries: seq<Entry>, kids: seq<Image>)

  ghost function EntriesOf(s: seq<Item>, vals: map<nat, ValueMap>): seq<Entry> {
    seq(|s|, i requires 0 <= i < |s| => Entry(s[i].key, ValueOf(vals, s[i].val)))
  }

  ghost function ImageOf(t: Tree, vals: map<nat, ValueMap>): Image {
    Image(EntriesOf(t.items, vals), seq(|t.children|, i requires 0 <= i < |t.children| => ImageOf(t.children[i], vals)))
  }

  // ----- The canonical form of a value map -----

  function Singles(m: ValueMap, keys: seq<nat>): seq<ValueMap>
    requires forall k <- keys :: k in m
  {
    seq(|keys|, i requires 0 <= i < |keys| => map[keys[i] := m[keys[i]]])
  }

  /** `maps` is the value map `m` in hash order. */
  ghost predicate Canonical(maps: seq<ValueMap>, m: ValueMap) {
    exists keys: seq<nat> :: Rising(keys) && Lists(keys, m.Keys) && maps == Singles(m, keys)
  }

  lemma {:induction false} OneCanonical(a: seq<ValueMap>, b: seq<ValueMap>, m: ValueMap)
    requires Canonical(a, m) && Canonical(b, m)
    ensures a == b
  {
    var ka: seq<nat> :| Rising(ka) && Lists(ka, m.Keys) && a == Singles(m, ka);
    var kb: seq<nat> :| Rising(kb) && Lists(kb, m.Keys) && b == Singles(m, kb);
    OneListing(ka, kb, m.Keys);
  }

  /** Restoring a value map: the one-entry maps in turn. */
  function Gather(maps: seq<ValueMap>): ValueMap {
    if maps == [] then map[] else Gather(maps[..|maps| - 1]) + maps[|maps| - 1]
  }

  lemma {:induction false} GatherSingles(m: ValueMap, keys: seq<nat>)
    requires forall k <- keys :: k in m
    ensures Gather(Singles(m, keys)) == map k | k in keys :: m[k]
  {
    if keys != [] {
      var n := |keys| - 1;
      GatherSingles(m, keys[..n]);
      assert Singles(m, keys)[..n] == Singles(m, keys[..n]);
      assert keys == keys[..n] + [keys[n]];
      hide Gather, Singles;
      assert (map k | k in keys :: m[k]) == (map k | k in keys[..n] :: m[k]) + map[keys[n] := m[keys[n]]];
    } else {
      assert Singles(m, keys) == [];
    }
  }

  lemma {:induction false} GatherCanonical(maps: seq<ValueMap>, m: ValueMap)
    requires Canonical(maps, m)
    ensures Gather(maps) == m
  {
    var keys: seq<nat> :| Rising(keys) && Lists(keys, m.Keys) && maps == Singles(m, keys);
    GatherSingles(m, keys);
  }

  ghost function Listing(keys: set<nat>): (s: seq<nat>)
    ensures Rising(s) && Lists(s, keys)
  {
    if keys == {} then []
    else
      HasMax(keys);
      var k :| k in keys && forall x <- keys :: x <= k;
      Listing(keys - {k}) + [k]
  }

  /** The saved form of an entry. */
  ghost function Canon(m: ValueMap): (maps: seq<ValueMap>)
    ensures Canonical(maps, m)
  {
    assert Lists(Listing(m.Keys), m.Keys);
    Singles(m, Listing(m.Keys))
  }

  // ----- Hashes of trees -----

  ghost function SavedOf(s: seq<Entry>, typ: TreeKind): seq<Saved> {
    if typ == Other then [] else seq(|s|, i requires 0 <= i < |s| => Saved(s[i].time, Canon(s[i].value)))
  }

  ghost function HashOf(im: Image, typ: TreeKind): Hash {
    Of(BnodeSave(SavedOf(im.entries, typ), seq(|im.kids|, i requires 0 <= i < |im.kids| => HashOf(im.kids[i], typ))))
  }

  type Data = map<Hash, BnodeSave>

  /** Everything in the store is filed under its own hash. */
  ghost predicate Faithful(data: Data) {
    forall h <- data :: h == Of(data[h])
  }

  /** A hash and everything below it is in the store. */
  ghost predicate Stored(data: Data, h: Hash) {
    h in data && h.Of? && data[h] == h.save && forall i :: 0 <= i < |h.save.child| ==> Stored(data, h.save.child[i])
  }

  lemma {:induction false} StoredMore(data: Data, more: Data, h: Hash)
    requires Stored(data, h) && Faithful(more) && data.Keys <= more.Keys
    ensures Stored(more, h)
    decreases h
  {
    forall i | 0 <= i < |h.save.child| ensures Stored(more, h.save.child[i]) {
      StoredMore(data, more, h.save.child[i]);
    }
  }

  /** What restoring `h` yields: a node for every link, empty where the link leads nowhere. */
  ghost function Revive(data: Data, h: Hash, typ: TreeKind): Image
    requires Faithful(data)
    decreases h
  {
    if h !in data then Image([], [])
    else
      Image(RevivedKeys(data[h].key, typ),
            seq(|data[h].child|, i requires 0 <= i < |data[h].child| => Revive(data, h.save.child[i], typ)))
  }

  ghost function RevivedKeys(s: seq<Saved>, typ: TreeKind): seq<Entry> {
    if typ == Other then [] else seq(|s|, i requires 0 <= i < |s| => Entry(s[i].time, Gather(s[i].maps)))
  }

  /** A tree without its entries. */
  ghost function Hollow(im: Image): Image {
    Image([], seq(|im.kids|, i requires 0 <= i < |im.kids| => Hollow(im.kids[i])))
  }

  /** Restoring what was saved yields the same shape, keys and value maps, for the two kinds that
      the code knows; for any other kind the entries are lost. */
  lemma {:induction false} RoundTrip(data: Data, im: Image, typ: TreeKind)
    requires Faithful(data) && Stored(data, HashOf(im, typ))
    ensures Revive(data, HashOf(im, typ), typ) == if typ == Other then Hollow(im) else im
    decreases im
  {
    var h := HashOf(im, typ);
    forall i | 0 <= i < |im.kids| ensures Revive(data, h.save.child[i], typ) == if typ == Other then Hollow(im.kids[i]) else im.kids[i] {
      assert Stored(data, h.save.child[i]);
      RoundTrip(data, im.kids[i], typ);
    }
    if typ != Other {
      forall i | 0 <= i < |im.entries| ensures Gather(Canon(im.entries[i].value)) == im.entries[i].value {
        GatherCanonical(Canon(im.entries[i].value), im.entries[i].value);
      }
      assert RevivedKeys(h.save.key, typ) == im.entries;
      assert Revive(data, h, typ).kids == im.kids;
    } else {
      assert Revive(data, h, typ).kids == Hollow(im).kids;
    }
  }

  ghost predicate Bare(im: Image) {
    im.entries == [] && forall i :: 0 <= i < |im.kids| ==> Bare(im.kids[i])
  }

  lemma {:induction false} HollowIs(im: Image)
    ensures Hollow(im) == im <==> Bare(im)
    decreases im
  {
    forall i | 0 <= i < |im.kids| ensures Hollow(im.kids[i]) == im.kids[i] <==> Bare(im.kids[i]) {
      HollowIs(im.kids[i]);
    }
    if Bare(im) {
      assert Hollow(im).kids == im.kids;
    } else if im.entries == [] {
      var i :| 0 <= i < |im.kids| && !Bare(im.kids[i]);
      assert Hollow(im).kids[i] != im.kids[i];
    }
  }

  /** The hash of a tree determines its shape and contents, and nothing else enters it. */
  lemma {:induction false} HashInjective(a: Image, b: Image, typ: TreeKind)
    requires typ != Other
    ensures HashOf(a, typ) == HashOf(b, typ) <==> a == b
    decreases a
  {
    if HashOf(a, typ) == HashOf(b, typ) {
      var s, t := HashOf(a, typ).save, HashOf(b, typ).save;
      assert |s.key| == |a.entries| && |t.key| == |b.entries| && |s.child| == |a.kids| && |t.child| == |b.kids|;
      forall i | 0 <= i < |a.entries| ensures a.entries[i] == b.entries[i] {
        assert s.key[i] == t.key[i];
        GatherCanonical(Canon(a.entries[i].value), a.entries[i].value);
        GatherCanonical(Canon(b.entries[i].value), b.entries[i].value);
      }
      forall i | 0 <= i < |a.kids| ensures a.kids[i] == b.kids[i] {
        assert s.child[i] == t.child[i];
        HashInjective(a.kids[i], b.kids[i], typ);
      }
      assert a.entries == b.entries && a.kids == b.kids;
    }
  }

  // ----- Saving -----

  /** An entry's value map: its keys are met in any order, then sorted. */
  method SaveMaps(m: ValueMap) returns (maps: seq<ValueMap>)
    ensures maps == Canon(m)
  {
    var order := AnyOrder(m.Keys);
    var keys := SortKeys(order);
    assert Lists(keys, m.Keys);
    maps := Singles(m, keys);
    OneCanonical(maps, Canon(m), m);
  }

  /** The state database's key-value store. */
  class Database {
    var data: Data

    method SetMatrixData(h: Hash, save: BnodeSave)
      modifies this
      ensures data == old(data)[h := save]
    {
      data := data[h := save];
    }
  }

  /** `BtreeSaveHash`. */
  method Save(db: Database, n: Nodes, vals: map<nat, ValueMap>, r: Ref, typ: TreeKind, ghost l: Loc) returns (h: Hash)
    requires Holds(n, l) && l.ref == r && Faithful(db.data)
    modifies db
    ensures h == HashOf(ImageOf(Erase(l), vals), typ)
    ensures Faithful(db.data) && old(db.data).Keys <= db.data.Keys && Stored(db.data, h)
    decreases l
  {
    var items, children := n[r].items, n[r].children;
    ghost var im := ImageOf(Erase(l), vals);
    var keys := SaveKeys(items, vals, typ);
    var child := [];
    for i := 0 to |children|
      invariant |child| == i && forall j :: 0 <= j < i ==> child[j] == HashOf(ImageOf(Erase(l.kids[j]), vals), typ)
      invariant Faithful(db.data) && old(db.data).Keys <= db.data.Keys
      invariant forall j :: 0 <= j < i ==> Stored(db.data, child[j])
    {
      ghost var data := db.data;
      assert Holds(n, l.kids[i]);
      var c := Save(db, n, vals, children[i], typ, l.kids[i]);
      forall j | 0 <= j < i ensures Stored(db.data, child[j]) {
        StoredMore(data, db.data, child[j]);
      }
      child := child + [c];
    }
    assert |im.kids| == |child| && forall j :: 0 <= j < |child| ==> im.kids[j] == ImageOf(Erase(l.kids[j]), vals);
    h := Of(BnodeSave(keys, child));
    ghost var data := db.data;
    db.SetMatrixData(h, h.save);
    assert h == HashOf(im, typ);
    forall j | 0 <= j < |child| ensures Stored(db.data, child[j]) {
      StoredMore(data, db.data, child[j]);
    }
  }

  method SaveKeys(items: seq<Item>, vals: map<nat, ValueMap>, typ: TreeKind) returns (keys: seq<Saved>)
    ensures keys == SavedOf(EntriesOf(items, vals), typ)
  {
    hide Canon, Canonical, ValueOf;
    keys := [];
    for i := 0 to |items|
      invariant |keys| == if typ == Other then 0 else i
      invariant forall j :: 0 <= j < |keys| ==> keys[j] == Saved(items[j].key, Canon(ValueOf(vals, items[j].val)))
    {
      match typ
      case Revocable =>
        var maps := SaveMaps(ValueOf(vals, items[i].val));
        keys := keys + [Saved(items[i].key, maps)];
      case Timed =>
        var maps := SaveMaps(ValueOf(vals, items[i].val));
        keys := keys + [Saved(items[i].key, maps)];
      case Other =>
    }
  }

  // ----- Restoring -----

  /** Every entry of the tree has a value map. */
  ghost predicate Backed(t: Tree, vals: map<nat, ValueMap>) {
    (forall x <- t.items :: x.val in vals) && forall i :: 0 <= i < |t.children| ==> Backed(t.children[i], vals)
  }

  ghost predicate Extends(more: map<nat, ValueMap>, vals: map<nat, ValueMap>) {
    forall a <- vals :: a in more && more[a] == vals[a]
  }

  lemma {:induction false} ImageKept(t: Tree, vals: map<nat, ValueMap>, more: map<nat, ValueMap>)
    requires Backed(t, vals) && Extends(more, vals)
    ensures Backed(t, more) && ImageOf(t, more) == ImageOf(t, vals)
    decreases t
  {
    forall i | 0 <= i < |t.children| ensures Backed(t.children[i], more) && ImageOf(t.children[i], more) == ImageOf(t.children[i], vals) {
      ImageKept(t.children[i], vals, more);
    }
    assert EntriesOf(t.items, more) == EntriesOf(t.items, vals);
    assert ImageOf(t, more).kids == ImageOf(t, vals).kids;
  }

  ghost predicate Bounded(vals: map<nat, ValueMap>, unused: nat) {
    forall a <- vals :: a < unused
  }

  /** A value map is rebuilt from its one-entry maps. */
  method GatherMaps(maps: seq<ValueMap>) returns (tm: ValueMap)
    ensures tm == Gather(maps)
  {
    tm := map[];
    for i := 0 to |maps|
      invariant tm == Gather(maps[..i])
    {
      assert maps[..i + 1][..i] == maps[..i];
      tm := tm + maps[i];
    }
    assert maps[..|maps|] == maps;
  }

  /** The items of a restored node; their value maps are new and get the references from `unused` on. */
  method RestoreItems(keys: seq<Saved>, typ: TreeKind, vals: map<nat, ValueMap>, unused: nat)
    returns (items: seq<Item>, vals1: map<nat, ValueMap>, unused1: nat)
    requires Bounded(vals, unused)
    ensures EntriesOf(items, vals1) == RevivedKeys(keys, typ) && (forall x <- items :: x.val in vals1)
    ensures Extends(vals1, vals) && Bounded(vals1, unused1)
  {
    hide Gather;
    items, vals1, unused1 := [], vals, unused;
    for i := 0 to |keys|
      invariant EntriesOf(items, vals1) == RevivedKeys(keys[..i], typ) && forall x <- items :: x.val in vals1
      invariant Extends(vals1, vals) && Bounded(vals1, unused1)
    {
      var tm := GatherMaps(keys[i].maps);
      if typ != Other {
        ghost var was := EntriesOf(items, vals1);
        var more := vals1[unused1 := tm];
        assert EntriesOf(items, more) == was;
        items, vals1, unused1 := items + [Item(keys[i].time, unused1)], more, unused1 + 1;
        assert EntriesOf(items, vals1) == was + [Entry(keys[i].time, tm)];
        assert RevivedKeys(keys[..i + 1], typ) == RevivedKeys(keys[..i], typ) + [Entry(keys[i].time, tm)];
      }
    }
    assert keys[..|keys|] == keys;
  }

  /** `RestoreBtree` below the root: fill the new record `r`. */
  method RestoreNode(store: Store, data: Data, r: Ref, h: Hash, typ: TreeKind, c: Ctx, unused: nat) returns (ok: bool, unused1: nat, ghost m: Loc)
    requires store.Valid() && Faithful(data) && Owned(store.nodes, store.Free(), At(r, [], []), c)
    requires Bounded(store.vals, unused)
    modifies store`nodes, store`free, store`next, store`vals
    ensures store.Valid() && ok == (h in data) && Zero !in data
    ensures m.ref == r && Owned(store.nodes, store.Free(), m, c)
    ensures Changed(old(store.nodes), old(store.Free()), store.nodes, store.Free(), {r}, Foot(m), c)
    ensures Extends(store.vals, old(store.vals)) && Bounded(store.vals, unused1)
    ensures Backed(Erase(m), store.vals) && ImageOf(Erase(m), store.vals) == Revive(data, h, typ)
    decreases h, 1
  {
    unused1 := unused;
    assert Zero !in data && (h in data ==> h == Of(data[h]));
    if h == Zero || h !in data {
      m := At(r, [], []);
      assert Revive(data, h, typ) == ImageOf(Erase(m), store.vals);
      EmptyNode(store.nodes, store.Free(), r, c);
      return false, unused1, m;
    }
    var save := data[h];
    hide *;
    unused1, m := FillItems(store, r, save.key, typ, c, unused);
    ghost var n1, f1, l, vals1 := store.nodes, store.Free(), m, store.vals;
    unused1, m := RestoreKids(store, data, r, l, h, typ, c, unused1);
    OneMore(old(store.nodes), old(store.Free()), n1, f1, store.nodes, store.Free(), r, Foot(l), Foot(m), c);
    ExtendsThen(old(store.vals), vals1, store.vals);
    Revived(m, data, h, typ, m.items, vals1, store.vals);
    ok := true;
  }

  /** The children of a saved node, one after the other. */
  method RestoreKids(store: Store, data: Data, r: Ref, ghost l: Loc, h: Hash, typ: TreeKind, c: Ctx, unused: nat) returns (unused1: nat, ghost m: Loc)
    requires store.Valid() && Faithful(data) && h in data && Owned(store.nodes, store.Free(), l, c) && l.ref == r && l.kids == []
    requires Bounded(store.vals, unused)
    modifies store`nodes, store`free, store`next, store`vals
    ensures store.Valid() && m.ref == r && m.items == l.items && Owned(store.nodes, store.Free(), m, c)
    ensures Changed(old(store.nodes), old(store.Free()), store.nodes, store.Free(), Foot(l), Foot(m), c)
    ensures Extends(store.vals, old(store.vals)) && Bounded(store.vals, unused1)
    ensures |m.kids| == |data[h].child| && KidsRevived(m.kids, data, data[h].child, typ, store.vals)
    decreases h, 0
  {
    var child := data[h].child;
    assert h == Of(data[h]);
    assert Settled(store.nodes, store.Free(), l);
    hide *;
    m, unused1 := l, unused;
    NoKids(data, child, typ, store.vals);
    ExtendsSelf(store.vals);
    Unchanged(store.nodes, store.Free(), l, c);
    ghost var n, f := store.nodes, store.Free();
    for i := 0 to |child|
      invariant store.Valid() && m.ref == r && m.items == l.items && Owned(store.nodes, store.Free(), m, c)
      invariant Changed(n, f, store.nodes, store.Free(), Foot(l), Foot(m), c)
      invariant Extends(store.vals, old(store.vals)) && Bounded(store.vals, unused1)
      invariant |m.kids| == i && KidsRevived(m.kids, data, child, typ, store.vals)
    {
      ghost var n1, f1, l1, v1 := store.nodes, store.Free(), m, store.vals;
      ghost var kid;
      unused1, m, kid := RestoreKid(store, data, r, l1, child[i], typ, c, unused1);
      AfterOwned(n, f, n1, f1, store.nodes, store.Free(), l, Foot(l1), Foot(m), c);
      KidsMore(l1.kids, kid, data, child, typ, v1, store.vals);
      ExtendsThen(old(store.vals), v1, store.vals);
    }
  }

  lemma {:induction false} AfterOwned(n: Nodes, f: set<Ref>, n1: Nodes, f1: set<Ref>, n2: Nodes, f2: set<Ref>, l: Loc, p1: set<Ref>, p2: set<Ref>, c: Ctx)
    requires Settled(n, f, l) && Changed(n, f, n1, f1, Foot(l), p1, c) && Changed(n1, f1, n2, f2, p1, p2, c)
    ensures Changed(n, f, n2, f2, Foot(l), p2, c)
  {
    FootHeld(n, l);
    ChangedThen(n, f, n1, f1, n2, f2, Foot(l), p1, p2, c);
  }

  lemma {:induction false} FilledNode(n: Nodes, f: set<Ref>, r: Ref, items: seq<Item>, c: Ctx)
    requires Owned(n, f, At(r, [], []), c)
    ensures r in n && r !in f
    ensures var m, n1 := At(r, items, []), n[r := n[r].(items := items)];
            Owned(n1, f, m, c) && Changed(n, f, n1, f, {r}, Foot(m), c)
  {
    var l := At(r, [], []);
    assert Foot(l) == {r} && Foot(At(r, items, [])) == {r};
    hide Changed;
    EditItems(n, f, l, items, c);
  }

  lemma {:induction false} EmptyNode(n: Nodes, f: set<Ref>, r: Ref, c: Ctx)
    requires Owned(n, f, At(r, [], []), c)
    ensures Changed(n, f, n, f, {r}, Foot(At(r, [], [])), c)
  {
    FilledNode(n, f, r, [], c);
    assert n[r := n[r].(items := [])] == n;
  }

  method FillItems(store: Store, r: Ref, keys: seq<Saved>, typ: TreeKind, ghost c: Ctx, unused: nat) returns (unused1: nat, ghost m: Loc)
    requires store.Valid() && Owned(store.nodes, store.Free(), At(r, [], []), c)
    requires Bounded(store.vals, unused)
    modifies store`nodes, store`vals
    ensures store.Valid() && m == At(r, m.items, []) && Owned(store.nodes, store.Free(), m, c) && old(r in store.nodes && r !in store.Free())
    ensures Changed(old(store.nodes), old(store.Free()), store.nodes, store.Free(), {r}, Foot(m), c)
    ensures EntriesOf(m.items, store.vals) == RevivedKeys(keys, typ) && (forall x <- m.items :: x.val in store.vals)
    ensures Extends(store.vals, old(store.vals)) && Bounded(store.vals, unused1)
  {
    hide Changed, Foot, Distinct, EntriesOf, RevivedKeys, Extends;
    var items, vals;
    items, vals, unused1 := RestoreItems(keys, typ, store.vals, unused);
    m := At(r, items, []);
    FilledNode(store.nodes, store.Free(), r, items, c);
    store.nodes := store.nodes[r := store.nodes[r].(items := items)];
    store.vals := vals;
  }

  lemma {:induction false} NoKids(data: Data, hs: seq<Hash>, typ: TreeKind, vals: map<nat, ValueMap>)
    requires Faithful(data)
    ensures KidsRevived([], data, hs, typ, vals)
  {
  }

  lemma {:induction false} ExtendsSelf(vals: map<nat, ValueMap>)
    ensures Extends(vals, vals)
  {
  }

  lemma {:induction false} ExtendsThen(a: map<nat, ValueMap>, b: map<nat, ValueMap>, c: map<nat, ValueMap>)
    requires Extends(b, a) && Extends(c, b)
    ensures Extends(c, a)
  {
  }

  lemma {:induction false} OneMore(n: Nodes, f: set<Ref>, n1: Nodes, f1: set<Ref>, n2: Nodes, f2: set<Ref>, r: Ref, p1: set<Ref>, p2: set<Ref>, c: Ctx)
    requires r in n && r !in f && Changed(n, f, n1, f1, {r}, p1, c) && Changed(n1, f1, n2, f2, p1, p2, c)
    ensures Changed(n, f, n2, f2, {r}, p2, c)
  {
    ChangedThen(n, f, n1, f1, n2, f2, {r}, p1, p2, c);
  }

  /** The children restored so far. */
  ghost predicate KidsRevived(ks: seq<Loc>, data: Data, hs: seq<Hash>, typ: TreeKind, vals: map<nat, ValueMap>)
    requires Faithful(data)
  {
    && |ks| <= |hs|
    && forall j :: 0 <= j < |ks| ==> Backed(Erase(ks[j]), vals) && ImageOf(Erase(ks[j]), vals) == Revive(data, hs[j], typ)
  }

  lemma {:induction false} KidsMore(ks: seq<Loc>, k: Loc, data: Data, hs: seq<Hash>, typ: TreeKind, vals: map<nat, ValueMap>, vals1: map<nat, ValueMap>)
    requires Faithful(data) && KidsRevived(ks, data, hs, typ, vals) && Extends(vals1, vals)
    requires |ks| < |hs| && Backed(Erase(k), vals1) && ImageOf(Erase(k), vals1) == Revive(data, hs[|ks|], typ)
    ensures KidsRevived(ks + [k], data, hs, typ, vals1)
  {
    hide Backed, Erase, ImageOf, Revive;
    forall j | 0 <= j < |ks| ensures Backed(Erase(ks[j]), vals1) && ImageOf(Erase(ks[j]), vals1) == Revive(data, hs[j], typ) {
      ImageKept(Erase(ks[j]), vals, vals1);
    }
  }

  lemma {:induction false} Revived(m: Loc, data: Data, h: Hash, typ: TreeKind, items: seq<Item>, vals: map<nat, ValueMap>, vals1: map<nat, ValueMap>)
    requires Faithful(data) && h in data && m.items == items && |m.kids| == |data[h].child| && KidsRevived(m.kids, data, data[h].child, typ, vals1)
    requires Extends(vals1, vals) && (forall x <- items :: x.val in vals) && EntriesOf(items, vals) == RevivedKeys(data[h].key, typ)
    ensures Backed(Erase(m), vals1) && ImageOf(Erase(m), vals1) == Revive(data, h, typ)
  {
    assert EntriesOf(items, vals1) == EntriesOf(items, vals);
    assert ImageOf(Erase(m), vals1).kids == Revive(data, h, typ).kids;
  }

  /** One child of a restored node: a new record, filled and then linked in. */
  method RestoreKid(store: Store, data: Data, r: Ref, ghost l: Loc, x: Hash, typ: TreeKind, c: Ctx, unused: nat)
    returns (unused1: nat, ghost m: Loc, ghost kid: Loc)
    requires store.Valid() && Faithful(data) && Owned(store.nodes, store.Free(), l, c) && l.ref == r
    requires Bounded(store.vals, unused)
    modifies store`nodes, store`free, store`next, store`vals
    ensures store.Valid() && m == l.(kids := l.kids + [kid])
    ensures Owned(store.nodes, store.Free(), m, c)
    ensures Changed(old(store.nodes), old(store.Free()), store.nodes, store.Free(), Foot(l), Foot(m), c)
    ensures Extends(store.vals, old(store.vals)) && Bounded(store.vals, unused1)
    ensures Backed(Erase(kid), store.vals) && ImageOf(Erase(kid), store.vals) == Revive(data, x, typ)
    decreases x, 2
  {
    var k := store.NewNode(c);
    ghost var n1, f1 := store.nodes, store.Free();
    NewApart(old(store.nodes), old(store.Free()), n1, f1, k, c);
    hide *;
    var ok;
    ok, unused1, kid := RestoreNode(store, data, k, x, typ, c, unused);
    m := LinkKid(store, r, k, l, kid, c, old(store.nodes), old(store.Free()), n1, f1);
  }

  method LinkKid(store: Store, r: Ref, k: Ref, ghost l: Loc, ghost kid: Loc, ghost c: Ctx, ghost n: Nodes, ghost f: set<Ref>, ghost n1: Nodes, ghost f1: set<Ref>)
    returns (ghost m: Loc)
    requires store.Valid() && Owned(n, f, l, c) && l.ref == r && Owned(store.nodes, store.Free(), kid, c) && kid.ref == k
    requires Changed(n, f, n1, f1, {}, {k}, c) && Changed(n1, f1, store.nodes, store.Free(), {k}, Foot(kid), c)
    modifies store`nodes
    ensures store.Valid() && m == l.(kids := l.kids + [kid]) && Owned(store.nodes, store.Free(), m, c)
    ensures Changed(n, f, store.nodes, store.Free(), Foot(l), Foot(m), c)
  {
    m := l.(kids := l.kids + [kid]);
    KidLinked(n, f, n1, f1, store.nodes, store.Free(), l, k, kid, c);
    hide Changed, Distinct;
    store.nodes := store.nodes[r := store.nodes[r].(children := store.nodes[r].children + [k])];
    assert Owned(store.nodes, store.Free(), m, c) && m.ref in Foot(m);
  }

  lemma {:induction false} NewApart(n: Nodes, f: set<Ref>, n1: Nodes, f1: set<Ref>, k: Ref, c: Ctx)
    requires n1 == n[k := Rec([], [], Some(c))] && (k in n ==> k in f) && f1 == f - {k}
    ensures Owned(n1, f1, At(k, [], []), c) && Changed(n, f, n1, f1, {}, {k}, c)
  {
    assert Foot(At(k, [], [])) == {k};
  }

  lemma {:induction false} KidLinked(n: Nodes, f: set<Ref>, n1: Nodes, f1: set<Ref>, n2: Nodes, f2: set<Ref>, l: Loc, k: Ref, kid: Loc, c: Ctx)
    requires Owned(n, f, l, c) && Changed(n, f, n1, f1, {}, {k}, c) && Changed(n1, f1, n2, f2, {k}, Foot(kid), c)
    requires Owned(n2, f2, kid, c) && kid.ref == k
    ensures l.ref in n2
    ensures var m, n3 := l.(kids := l.kids + [kid]), n2[l.ref := n2[l.ref].(children := n2[l.ref].children + [k])];
            Owned(n3, f2, m, c) && Changed(n, f, n3, f2, Foot(l), Foot(m), c)
  {
    ChangedThen(n, f, n1, f1, n2, f2, {}, {k}, Foot(kid), c);
    hide Changed;
    var e := |l.kids|;
    One(kid);
    assert l.kids[e..e] == [];
    assert FootAll([]) == {};
    RangeChanged(n, f, n2, f2, l, e, e, l.items, [kid], c);
    var m := l.(kids := l.kids + [kid]);
    assert Respliced(l, e, e, l.items, [kid]) == m;
    assert Refs(m.kids) == n[l.ref].children + [k];
  }

  /** `RestoreBtree` on a tree without a root. The tree's length is not touched. */
  method RestoreTree(store: Store, data: Data, t: Forests.Handle, h: Hash, typ: TreeKind, unused: nat)
    returns (t1: Forests.Handle, ok: bool, ghost m: Loc)
    requires store.Valid() && Faithful(data) && t.root == None && Bounded(store.vals, unused)
    modifies store`nodes, store`free, store`next, store`vals
    ensures store.Valid() && ok == (h in data) && t1.length == t.length && t1.cow == t.cow
    ensures h == Zero ==> t1 == t && store.nodes == old(store.nodes) && store.free == old(store.free) && store.vals == old(store.vals)
    ensures h != Zero ==>
              && t1.root == Some(m.ref) && Owned(store.nodes, store.Free(), m, t.cow)
              && Changed(old(store.nodes), old(store.Free()), store.nodes, store.Free(), {}, Foot(m), t.cow)
              && Extends(store.vals, old(store.vals))
              && ImageOf(Erase(m), store.vals) == Revive(data, h, typ)
  {
    if h == Zero {
      return t, false, At(0, [], []);
    }
    var r := store.NewNode(t.cow);
    ghost var n1, f1 := store.nodes, store.Free();
    NewApart(old(store.nodes), old(store.Free()), n1, f1, r, t.cow);
    hide *;
    t1 := t.(root := Some(r));
    var unused1;
    ok, unused1, m := RestoreNode(store, data, r, h, typ, t.cow, unused);
    ChangedThen(old(store.nodes), old(store.Free()), n1, f1, store.nodes, store.Free(), {}, {r}, Foot(m), t.cow);
  }

  /** Saving a tree and restoring from the hash returned: the same shape, keys and value maps on nodes of its own,
      for the two kinds that are known, and the bare shape for any other. */
  method SaveThenRestore(db: Database, n: Nodes, vals: map<nat, ValueMap>, r: Ref, typ: TreeKind, ghost l: Loc, store: Store, t: Forests.Handle, unused: nat)
    returns (t1: Forests.Handle, ghost m: Loc)
    requires Holds(n, l) && l.ref == r && Faithful(db.data)
    requires store.Valid() && t.root == None && Bounded(store.vals, unused)
    modifies db, store`nodes, store`free, store`next, store`vals
    ensures store.Valid() && t1.root == Some(m.ref) && Owned(store.nodes, store.Free(), m, t.cow)
    ensures Changed(old(store.nodes), old(store.Free()), store.nodes, store.Free(), {}, Foot(m), t.cow) && Extends(store.vals, old(store.vals))
    ensures var saved, restored := ImageOf(Erase(l), vals), ImageOf(Erase(m), store.vals);
            restored == if typ == Other then Hollow(saved) else saved
  {
    hide *;
    var h := Save(db, n, vals, r, typ, l);
    HashExists(ImageOf(Erase(l), vals), typ);
    var ok;
    t1, ok, m := RestoreTree(store, db.data, t, h, typ, unused);
    RoundTrip(db.data, ImageOf(Erase(l), vals), typ);
  }

  lemma {:induction false} HashExists(im: Image, typ: TreeKind)
    ensures HashOf(im, typ) != Zero
  {
  }

  /** Trees with the same image have the same shape and the same keys in order. */
  lemma {:induction false} SameShape(a: Tree, va: map<nat, ValueMap>, b: Tree, vb: map<nat, ValueMap>)
    requires ImageOf(a, va) == ImageOf(b, vb)
    ensures |a.items| == |b.items| && |a.children| == |b.children|
    ensures SameKeys(InOrder(a), InOrder(b)) && Depth(a) == Depth(b)
    decreases a, 1
  {
    var x, y := ImageOf(a, va), ImageOf(b, vb);
    assert |a.items| == |x.entries| == |b.items| && |a.children| == |x.kids| == |b.children|;
    assert SameKeys(a.items, b.items) by {
      assert forall i :: 0 <= i < |a.items| ==> x.entries[i].time == a.items[i].key && y.entries[i].time == b.items[i].key;
    }
    forall i | 0 <= i < |a.children| ensures ImageOf(a.children[i], va) == ImageOf(b.children[i], vb) {
      assert x.kids[i] == y.kids[i];
    }
    if a.children != [] {
      hide ImageOf;
      SameShape(a.children[0], va, b.children[0], vb);
      SameTail(a.items, a.children[1..], va, b.items, b.children[1..], vb);
    }
  }

  lemma {:induction false} SameWf(a: Tree, va: map<nat, ValueMap>, b: Tree, vb: map<nat, ValueMap>, h: nat, d: nat)
    requires ImageOf(a, va) == ImageOf(b, vb) && Wf(a, h, d)
    ensures Wf(b, h, d) && |a.items| == |b.items|
    decreases h
  {
    var x, y := ImageOf(a, va), ImageOf(b, vb);
    assert |a.items| == |x.entries| == |b.items| && |a.children| == |x.kids| == |b.children|;
    forall i | 0 <= i < |a.children| ensures Wf(b.children[i], h - 1, d) && |b.children[i].items| == |a.children[i].items| {
      assert x.kids[i] == y.kids[i];
      SameWf(a.children[i], va, b.children[i], vb, h - 1, d);
    }
  }

  ghost predicate SameKeys(a: seq<Item>, b: seq<Item>) {
    |a| == |b| && forall i :: 0 <= i < |a| ==> a[i].key == b[i].key
  }

  lemma {:induction false} SameTail(a: seq<Item>, ka: seq<Tree>, va: map<nat, ValueMap>, b: seq<Item>, kb: seq<Tree>, vb: map<nat, ValueMap>)
    requires SameKeys(a, b) && |ka| == |kb| && forall i :: 0 <= i < |ka| ==> ImageOf(ka[i], va) == ImageOf(kb[i], vb)
    ensures SameKeys(Tail(a, ka), Tail(b, kb))
    decreases ka, 0
  {
    hide ImageOf;
    if a != [] && ka != [] {
      SameShape(ka[0], va, kb[0], vb);
      SameTail(a[1..], ka[1..], va, b[1..], kb[1..], vb);
    }
  }

  /** A tree restored from a saved one is a valid index exactly when its length happens to be right:
      the length is not part of what is saved. */
  lemma {:induction false} LengthIsLost(t: Tree, vals: map<nat, ValueMap>, length: int, u: Tree, vals1: map<nat, ValueMap>, length1: int, d: nat)
    requires Runs.IndexOk(Runs.Index(Some(t), length), d) && ImageOf(t, vals) == ImageOf(u, vals1)
    ensures Runs.TreeOk(u, d)
    ensures Runs.IndexOk(Runs.Index(Some(u), length1), d) <==> length1 == length
  {
    SameShape(t, vals, u, vals1);
    SameWf(t, vals, u, vals1, Depth(t), d);
  }
}
