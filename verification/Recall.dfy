/** The bookkeeping of KvServer/RecallEngine.cpp around an index that is an oracle: which labels a
    search finds, and how the index stores vectors, is left open. */
module Recall {
  import opened Bytes

  type Int64 = x: int | -0x8000_0000_0000_0000 <= x < 0x8000_0000_0000_0000

  type Labels = map<Int64, Bytes>

  /** m_labelToItemId, m_deletedItems, m_activeLabels */
  datatype Engine = Engine(labels: Labels, deleted: set<Bytes>, active: set<Int64>)

  const FRESH := Engine(map[], {}, {})

  /** hashItemId, a parameter of the model. */
  type Hash = Bytes -> Int64

  /** These items have different labels. */
  predicate Apart(hash: Hash, items: set<Bytes>) {
    forall a, b :: a in items && b in items && hash(a) == hash(b) ==> a == b
  }

  function Add(hash: Hash, e: Engine, item: Bytes): Engine {
    if hash(item) in e.active then e
    else Engine(e.labels[hash(item) := item], e.deleted - {item}, e.active + {hash(item)})
  }

  function Upsert(hash: Hash, e: Engine, item: Bytes): Engine {
    Engine(e.labels[hash(item) := item], e.deleted - {item}, e.active + {hash(item)})
  }

  function Delete(hash: Hash, e: Engine, item: Bytes): Engine {
    if hash(item) !in e.active then e
    else e.(deleted := e.deleted + {item}, active := e.active - {hash(item)})
  }

  /** loadIndex into an engine that has just been created: every label of the file counts as
      active, those of deleted items included. */
  function Reload(e: Engine): Engine {
    Engine(e.labels, e.deleted, e.labels.Keys)
  }

  /** Is the item returned when the index finds its label? */
  predicate Visible(hash: Hash, e: Engine, item: Bytes) {
    hash(item) in e.labels && e.labels[hash(item)] == item && item !in e.deleted
  }

  datatype Hit = Hit(score: real, tag: Int64)

  datatype Found = Found(item: Bytes, score: real)

  /** searchTopK: what it makes of the hits the index reports. */
  function Filter(e: Engine, hits: seq<Hit>): seq<Found>
    decreases |hits|
  {
    if |hits| == 0 then []
    else
      var h := hits[|hits| - 1];
      Filter(e, hits[..|hits| - 1]) +
      if h.tag in e.labels && e.labels[h.tag] !in e.deleted then [Found(e.labels[h.tag], h.score)] else []
  }

  // ---------------------------------------------------------------- runs

  datatype Act = AddPoint(item: Bytes) | UpsertPoint(item: Bytes) | DeletePoint(item: Bytes) | SaveAndLoad

  function Next(hash: Hash, e: Engine, a: Act): Engine {
    match a
    case AddPoint(item) => Add(hash, e, item)
    case UpsertPoint(item) => Upsert(hash, e, item)
    case DeletePoint(item) => Delete(hash, e, item)
    case SaveAndLoad => Reload(e)
  }

  function After(hash: Hash, acts: seq<Act>): Engine
    decreases |acts|
  {
    if |acts| == 0 then FRESH else Next(hash, After(hash, acts[..|acts| - 1]), acts[|acts| - 1])
  }

  /** The latest operation on the item adds or updates it. */
  predicate Present(acts: seq<Act>, item: Bytes)
    decreases |acts|
  {
    if |acts| == 0 then false
    else
      match acts[|acts| - 1]
      case SaveAndLoad => Present(acts[..|acts| - 1], item)
      case DeletePoint(x) => x != item && Present(acts[..|acts| - 1], item)
      case AddPoint(x) => x == item || Present(acts[..|acts| - 1], item)
      case UpsertPoint(x) => x == item || Present(acts[..|acts| - 1], item)
  }

  /** One item by itself: never seen; found by searches; deleted; or deleted and then reloaded, when
      its label counts as active again. */
  datatype Standing = Unknown | Shown | Gone | Stuck

  /** What an operation does to the standing of an item: an add does not show a stuck one. */
  function Moves(st: Standing, a: Act, item: Bytes): Standing {
    match a
    case SaveAndLoad => if st.Gone? then Stuck else st
    case AddPoint(x) => if x != item || st.Stuck? then st else Shown
    case UpsertPoint(x) => if x != item then st else Shown
    case DeletePoint(x) => if x != item || st.Unknown? then st else Gone
  }

  function StandingOf(acts: seq<Act>, item: Bytes): Standing
    decreases |acts|
  {
    if |acts| == 0 then Unknown else Moves(StandingOf(acts[..|acts| - 1], item), acts[|acts| - 1], item)
  }

  /** The items that the operations name. */
  function Named(acts: seq<Act>): set<Bytes>
    decreases |acts|
  {
    if |acts| == 0 then {}
    else
      var init, a := acts[..|acts| - 1], acts[|acts| - 1];
      if a.SaveAndLoad? then Named(init) else Named(init) + {a.item}
  }

  predicate Ok(hash: Hash, e: Engine) {
    && (forall l :: l in e.labels ==> hash(e.labels[l]) == l)
    && e.active <= e.labels.Keys
    && (forall l :: l in e.labels && l !in e.active ==> e.labels[l] in e.deleted)
    && (forall x :: x in e.deleted ==> hash(x) in e.labels && e.labels[hash(x)] == x)
  }

  /** The engine knows no other items. */
  predicate Within(e: Engine, items: set<Bytes>) {
    (forall l :: l in e.labels ==> e.labels[l] in items) && e.deleted <= items
  }

  lemma NextOk(hash: Hash, e: Engine, a: Act, items: set<Bytes>)
    requires Apart(hash, items) && Ok(hash, e) && Within(e, items) && (a.SaveAndLoad? || a.item in items)
    ensures Ok(hash, Next(hash, e, a)) && Within(Next(hash, e, a), items)
  {
  }

  lemma {:induction false} Always(hash: Hash, acts: seq<Act>, items: set<Bytes>)
    requires Apart(hash, items) && Named(acts) <= items
    ensures Ok(hash, After(hash, acts)) && Within(After(hash, acts), items)
    decreases |acts|
  {
    if |acts| > 0 {
      Always(hash, acts[..|acts| - 1], items);
      NextOk(hash, After(hash, acts[..|acts| - 1]), acts[|acts| - 1], items);
    }
  }

  /** How the engine's tables hold the standing of an item. */
  predicate Stands(hash: Hash, e: Engine, item: Bytes, st: Standing) {
    var l := hash(item);
    match st
    case Unknown => !(l in e.labels && e.labels[l] == item) && item !in e.deleted
    case Shown => l in e.labels && e.labels[l] == item && l in e.active && item !in e.deleted
    case Gone => l in e.labels && e.labels[l] == item && l !in e.active && item in e.deleted
    case Stuck => l in e.labels && e.labels[l] == item && l in e.active && item in e.deleted
  }

  /** What one operation does to any item, its own and the others'. */
  lemma NextStands(hash: Hash, e: Engine, a: Act, item: Bytes, items: set<Bytes>, st: Standing)
    requires Apart(hash, items) && Ok(hash, e) && Within(e, items) && Stands(hash, e, item, st)
    requires item in items && (a.SaveAndLoad? || a.item in items)
    ensures Stands(hash, Next(hash, e, a), item, Moves(st, a, item))
  {
    if !a.SaveAndLoad? {
      assert hash(a.item) == hash(item) ==> a.item == item;
      assert hash(item) in e.labels ==> e.labels[hash(item)] == item by {
        assert hash(item) in e.labels ==> hash(e.labels[hash(item)]) == hash(item);
      }
    }
  }

  /** While the items of the run have different labels, the shared tables hold the standing of each item
      by itself; and an item is visible exactly if it is shown. */
  lemma {:induction false} VisibleExactly(hash: Hash, acts: seq<Act>, item: Bytes, items: set<Bytes>)
    requires Apart(hash, items) && Named(acts) <= items && item in items
    ensures Stands(hash, After(hash, acts), item, StandingOf(acts, item))
    ensures Visible(hash, After(hash, acts), item) <==> StandingOf(acts, item) == Shown
    decreases |acts|
  {
    if |acts| > 0 {
      var init := acts[..|acts| - 1];
      VisibleExactly(hash, init, item, items);
      Always(hash, init, items);
      NextStands(hash, After(hash, init), acts[|acts| - 1], item, items, StandingOf(init, item));
    }
  }

  /** A shown item has been added or updated since it was last deleted. */
  lemma {:induction false} ShownIsPresent(acts: seq<Act>, item: Bytes)
    ensures StandingOf(acts, item) == Shown ==> Present(acts, item)
    decreases |acts|
  {
    if |acts| > 0 {
      ShownIsPresent(acts[..|acts| - 1], item);
    }
  }

  /** Whatever the index reports, a search returns visible items only, each for a hit on its label. */
  lemma {:induction false} FilterVisible(hash: Hash, e: Engine, hits: seq<Hit>, k: nat)
    requires Ok(hash, e) && k < |Filter(e, hits)|
    ensures
      var f := Filter(e, hits)[k];
      Visible(hash, e, f.item) && Hit(f.score, hash(f.item)) in hits
    decreases |hits|
  {
    if |hits| > 0 {
      var init := hits[..|hits| - 1];
      if k < |Filter(e, init)| {
        FilterVisible(hash, e, init, k);
        var f := Filter(e, hits)[k];
        assert f == Filter(e, init)[k] && Hit(f.score, hash(f.item)) in init;
      }
    }
  }

  /** And every hit on a visible item's label is returned. */
  lemma {:induction false} FilterComplete(hash: Hash, e: Engine, hits: seq<Hit>, item: Bytes, score: real)
    requires Visible(hash, e, item) && Hit(score, hash(item)) in hits
    ensures Found(item, score) in Filter(e, hits)
    decreases |hits|
  {
    if hits[|hits| - 1] != Hit(score, hash(item)) {
      var init := hits[..|hits| - 1];
      assert Hit(score, hash(item)) in init;
      FilterComplete(hash, e, init, item, score);
    }
  }

  /** The hit is on the label of an item that is not deleted. */
  predicate Live(e: Engine, h: Hit) {
    h.tag in e.labels && e.labels[h.tag] !in e.deleted
  }

  /** How many of the hits are live. */
  function LiveHits(e: Engine, hits: seq<Hit>): nat
    decreases |hits|
  {
    if |hits| == 0 then 0
    else LiveHits(e, hits[..|hits| - 1]) + if Live(e, hits[|hits| - 1]) then 1 else 0
  }

  /** The results are the live hits in their order: as many, and each at the place it has among them. */
  lemma {:induction false} FilterInOrder(e: Engine, hits: seq<Hit>)
    ensures |Filter(e, hits)| == LiveHits(e, hits)
    ensures forall k :: 0 <= k < |hits| && Live(e, hits[k]) ==>
              var place := LiveHits(e, hits[..k]);
              place < |Filter(e, hits)| && Filter(e, hits)[place] == Found(e.labels[hits[k].tag], hits[k].score)
    decreases |hits|
  {
    if |hits| > 0 {
      var init := hits[..|hits| - 1];
      FilterInOrder(e, init);
      forall k | 0 <= k < |hits| && Live(e, hits[k])
        ensures
          var place := LiveHits(e, hits[..k]);
          place < |Filter(e, hits)| && Filter(e, hits)[place] == Found(e.labels[hits[k].tag], hits[k].score)
      {
        if k < |init| {
          assert init[k] == hits[k] && init[..k] == hits[..k];
        }
      }
    }
  }

  /** The recall view: after any sequence of adds, upserts, deletes and restarts of items with
      different labels, and whatever the index reports, a search returns only items whose latest
      operation is not a delete. */
  lemma SearchReturnsPresent(hash: Hash, acts: seq<Act>, hits: seq<Hit>, k: nat)
    requires Apart(hash, Named(acts)) && k < |Filter(After(hash, acts), hits)|
    ensures Present(acts, Filter(After(hash, acts), hits)[k].item)
  {
    var item := Filter(After(hash, acts), hits)[k].item;
    Always(hash, acts, Named(acts));
    FilterVisible(hash, After(hash, acts), hits, k);
    VisibleExactly(hash, acts, item, Named(acts));
    ShownIsPresent(acts, item);
  }

  const LABELS := 0x1_0000_0000_0000_0000

  /** Any items that are not more than there are labels can be apart. */
  lemma {:induction false} SomeHashKeepsApart(items: set<Bytes>) returns (hash: Hash)
    requires |items| <= LABELS
    ensures Apart(hash, items)
    ensures forall a :: a in items ==> hash(a) < |items| - LABELS / 2
    decreases |items|
  {
    if items == {} {
      hash := _ => 0;
    } else {
      var x :| x in items;
      var rest := SomeHashKeepsApart(items - {x});
      var next: Int64 := |items| - 1 - LABELS / 2;
      hash := y => if y == x then next else rest(y);
    }
  }

  /** Two items with one label: a deleted item stays visible. */
  lemma SharedLabelShows(hash: Hash, a: Bytes, b: Bytes)
    requires a != b && hash(a) == hash(b)
    ensures
      var acts := [UpsertPoint(a), UpsertPoint(b), DeletePoint(a), DeletePoint(b)];
      && !Apart(hash, Named(acts))
      && !Present(acts, b) && Visible(hash, After(hash, acts), b)
      && Filter(After(hash, acts), [Hit(1.0, hash(b))]) == [Found(b, 1.0)]
  {
    var acts := [UpsertPoint(a), UpsertPoint(b), DeletePoint(a), DeletePoint(b)];
    assert acts[..3] == [UpsertPoint(a), UpsertPoint(b), DeletePoint(a)];
    assert acts[..3][..2] == [UpsertPoint(a), UpsertPoint(b)];
    assert acts[..3][..2][..1] == [UpsertPoint(a)];
    assert After(hash, [UpsertPoint(a)]) == Upsert(hash, FRESH, a);
    assert After(hash, acts[..3][..2]) == Upsert(hash, Upsert(hash, FRESH, a), b);
    assert Named([UpsertPoint(a)]) == {a} && Named(acts[..3][..2]) == {a, b};
    assert a in Named(acts) && b in Named(acts);
    var hits := [Hit(1.0, hash(b))];
    assert hits[..0] == [];
  }

  /** The converse fails, whatever the hash: after a delete and a restart an add is ignored, and the
      item stays hidden although its latest operation adds it. */
  lemma AddAfterRestartIsLost(hash: Hash, item: Bytes)
    ensures
      var acts := [AddPoint(item), DeletePoint(item), SaveAndLoad, AddPoint(item)];
      Present(acts, item) && !Visible(hash, After(hash, acts), item)
  {
    var acts := [AddPoint(item), DeletePoint(item), SaveAndLoad, AddPoint(item)];
    assert acts[..3][..2] == [AddPoint(item), DeletePoint(item)];
    assert acts[..3][..2][..1] == [AddPoint(item)];
    assert After(hash, [AddPoint(item)]) == Add(hash, FRESH, item);
    assert After(hash, acts[..3][..2]) == Delete(hash, Add(hash, FRESH, item), item);
  }

  // ---------------------------------------------------------------- the label file

  const MAX32 := 0x7FFF_FFFF

  /** A size cast to a signed integer of 32 bits. */
  function Cast32(n: nat): (r: int)
    ensures -MAX32 - 1 <= r <= MAX32
    ensures 0 <= r ==> r <= n
    ensures r == n <==> n <= MAX32
  {
    var m := n % 0x1_0000_0000;
    if m <= MAX32 then m else m - 0x1_0000_0000
  }

  /** The length that is handed to write is not negative. */
  predicate Writable(s: Bytes) {
    0 <= Cast32(|s|)
  }

  function SaveString(s: Bytes): Bytes
    requires Writable(s)
  {
    FourBytes();
    ToSigned(Cast32(|s|), 4) + s[..Cast32(|s|)]
  }

  /** Unspecified: a negative length reaches std::ostream::write, which does not allow for one. */
  datatype Written = File(bytes: Bytes) | Unspecified

  datatype LabelEntry = LabelEntry(tag: Int64, item: Bytes)

  function SaveLabel(tag: Int64): (r: Bytes)
    ensures |r| == 8
  {
    EightBytes();
    ToSigned(tag, 8)
  }

  function LoadLabel(b: Bytes): Int64
    requires |b| == 8
  {
    EightBytes();
    FromSigned(b)
  }

  lemma LabelRoundTrip(tag: Int64)
    ensures LoadLabel(SaveLabel(tag)) == tag
  {
    EightBytes();
    SignedRoundTrip(tag, 8);
  }

  function SaveEntries(xs: seq<LabelEntry>): Bytes
    requires forall k :: 0 <= k < |xs| ==> Writable(xs[k].item)
  {
    if |xs| == 0 then []
    else
      assert Writable(xs[0].item);
      SaveLabel(xs[0].tag) + SaveString(xs[0].item) + SaveEntries(xs[1..])
  }

  function SaveStrings(xs: seq<Bytes>): Bytes
    requires forall k :: 0 <= k < |xs| ==> Writable(xs[k])
  {
    if |xs| == 0 then [] else SaveString(xs[0]) + SaveStrings(xs[1..])
  }

  /** saveIndex, for the order in which the two hash tables happen to be walked. */
  function SaveFile(entries: seq<LabelEntry>, deleted: seq<Bytes>): Bytes
    requires forall k :: 0 <= k < |entries| ==> Writable(entries[k].item)
    requires forall k :: 0 <= k < |deleted| ==> Writable(deleted[k])
  {
    FourBytes();
    ToSigned(Cast32(|entries|), 4) + SaveEntries(entries) + ToSigned(Cast32(|deleted|), 4) + SaveStrings(deleted)
  }

  datatype Got = Got(bytes: Bytes, rest: Bytes)

  /** istream::read into a zeroed buffer: a short read fills what there is. */
  function Get(data: Bytes, n: nat): (g: Got)
    ensures |g.bytes| == n
    ensures n <= |data| ==> g == Got(data[..n], data[n..])
  {
    if n <= |data| then Got(data[..n], data[n..]) else Got(data + Zeros(n - |data|), [])
  }

  lemma GetFrom(a: Bytes, b: Bytes)
    ensures Get(a + b, |a|) == Got(a, b)
  {
    assert (a + b)[..|a|] == a && (a + b)[|a|..] == b;
  }

  /** Failed: a negative length, for which std::string throws. */
  datatype Loaded<T> = Loaded(value: T, rest: Bytes) | Failed

  function LoadString(data: Bytes): Loaded<Bytes> {
    var n := Get(data, 4);
    var len := FromSigned(n.bytes);
    if len < 0 then Failed
    else
      var s := Get(n.rest, len);
      Loaded(s.bytes, s.rest)
  }

  function LoadEntriesInto(data: Bytes, count: nat, labels: Labels): Loaded<Labels>
    decreases count
  {
    if count == 0 then Loaded(labels, data)
    else
      var l := Get(data, 8);
      match LoadString(l.rest)
      case Failed => Failed
      case Loaded(item, rest) => LoadEntriesInto(rest, count - 1, labels[LoadLabel(l.bytes) := item])
  }

  function LoadStringsInto(data: Bytes, count: nat, items: set<Bytes>): Loaded<set<Bytes>>
    decreases count
  {
    if count == 0 then Loaded(items, data)
    else
      match LoadString(data)
      case Failed => Failed
      case Loaded(item, rest) => LoadStringsInto(rest, count - 1, items + {item})
  }

  function Count(data: Bytes): nat
    requires |data| == 4
  {
    var n := FromSigned(data);
    if n < 0 then 0 else n
  }

  /** The label-file half of loadIndex. It clears the labels, but the items that the engine has
      deleted before stay deleted. */
  function LoadFile(data: Bytes, deletedBefore: set<Bytes>): Loaded<Engine> {
    var c := Get(data, 4);
    match LoadEntriesInto(c.rest, Count(c.bytes), map[])
    case Failed => Failed
    case Loaded(labels, rest) =>
      var d := Get(rest, 4);
      match LoadStringsInto(d.rest, Count(d.bytes), deletedBefore)
      case Failed => Failed
      case Loaded(deleted, rest') => Loaded(Engine(labels, deleted, labels.Keys), rest')
  }

  lemma StringRoundTrip(s: Bytes, rest: Bytes)
    requires |s| <= MAX32
    ensures LoadString(SaveString(s) + rest) == Loaded(s, rest)
  {
    FourBytes();
    SignedRoundTrip(|s|, 4);
    assert SaveString(s) + rest == ToSigned(|s|, 4) + (s + rest);
    GetFrom(ToSigned(|s|, 4), s + rest);
    GetFrom(s, rest);
  }

  /** The table that a list of entries spells out. */
  function TableOf(xs: seq<LabelEntry>, labels: Labels): Labels {
    if |xs| == 0 then labels else TableOf(xs[1..], labels[xs[0].tag := xs[0].item])
  }

  lemma EntryRoundTrip(x: LabelEntry, rest: Bytes, count: nat, labels: Labels)
    requires |x.item| <= MAX32 && count > 0
    ensures LoadEntriesInto(SaveLabel(x.tag) + SaveString(x.item) + rest, count, labels)
            == LoadEntriesInto(rest, count - 1, labels[x.tag := x.item])
  {
    var tag, s := SaveLabel(x.tag), SaveString(x.item);
    assert tag + s + rest == tag + (s + rest);
    GetFrom(tag, s + rest);
    LabelRoundTrip(x.tag);
    StringRoundTrip(x.item, rest);
    hide Get, LoadString, SaveString, SaveLabel, LoadLabel, ToSigned, FromSigned;
  }

  lemma {:induction false} EntriesRoundTrip(xs: seq<LabelEntry>, labels: Labels, rest: Bytes)
    requires forall k :: 0 <= k < |xs| ==> |xs[k].item| <= MAX32
    ensures LoadEntriesInto(SaveEntries(xs) + rest, |xs|, labels) == Loaded(TableOf(xs, labels), rest)
    decreases |xs|
  {
    if |xs| == 0 {
      assert SaveEntries(xs) + rest == rest;
    } else {
      var tag, s, more := SaveLabel(xs[0].tag), SaveString(xs[0].item), SaveEntries(xs[1..]);
      assert SaveEntries(xs) + rest == tag + s + (more + rest);
      EntryRoundTrip(xs[0], more + rest, |xs|, labels);
      EntriesRoundTrip(xs[1..], labels[xs[0].tag := xs[0].item], rest);
      hide Get, LoadString, SaveString, SaveLabel, LoadLabel, ToSigned, FromSigned, LoadEntriesInto;
    }
  }

  function ItemsOf(xs: seq<Bytes>): (r: set<Bytes>)
    ensures forall x :: x in r <==> x in xs
  {
    set x | x in xs
  }

  lemma UnionOf(xs: seq<Bytes>, items: set<Bytes>)
    requires |xs| > 0
    ensures items + {xs[0]} + ItemsOf(xs[1..]) == items + ItemsOf(xs)
  {
    forall x | x in xs ensures x == xs[0] || x in xs[1..] {
      var k :| 0 <= k < |xs| && xs[k] == x;
      assert k > 0 ==> xs[1..][k - 1] == x;
    }
  }

  lemma {:induction false} StringsRoundTrip(xs: seq<Bytes>, items: set<Bytes>, rest: Bytes)
    requires forall k :: 0 <= k < |xs| ==> |xs[k]| <= MAX32
    ensures LoadStringsInto(SaveStrings(xs) + rest, |xs|, items) == Loaded(items + ItemsOf(xs), rest)
    decreases |xs|
  {
    if |xs| == 0 {
      assert SaveStrings(xs) + rest == rest && items + ItemsOf(xs) == items;
    } else {
      hide SaveString, LoadString, ItemsOf;
      assert SaveStrings(xs) + rest == SaveString(xs[0]) + (SaveStrings(xs[1..]) + rest);
      StringRoundTrip(xs[0], SaveStrings(xs[1..]) + rest);
      UnionOf(xs, items);
      hide SaveStrings;
      StringsRoundTrip(xs[1..], items + {xs[0]}, rest);
    }
  }

  /** The entries list the table, each label once. */
  ghost predicate Lists(xs: seq<LabelEntry>, labels: Labels) {
    && (forall k :: 0 <= k < |xs| ==> xs[k].tag in labels && labels[xs[k].tag] == xs[k].item)
    && (forall l :: l in labels ==> exists k :: 0 <= k < |xs| && xs[k].tag == l)
  }

  lemma {:induction false} TableOfLists(xs: seq<LabelEntry>, sofar: Labels, labels: Labels)
    requires forall k :: 0 <= k < |xs| ==> xs[k].tag in labels && labels[xs[k].tag] == xs[k].item
    requires forall l :: l in sofar ==> l in labels && labels[l] == sofar[l]
    requires forall l :: l in labels ==> l in sofar || exists k :: 0 <= k < |xs| && xs[k].tag == l
    ensures TableOf(xs, sofar) == labels
    decreases |xs|
  {
    if |xs| > 0 {
      var next := sofar[xs[0].tag := xs[0].item];
      forall l | l in labels ensures l in next || exists k :: 0 <= k < |xs[1..]| && xs[1..][k].tag == l {
        if l !in next {
          var k :| 0 <= k < |xs| && xs[k].tag == l;
          assert xs[1..][k - 1].tag == l;
        }
      }
      TableOfLists(xs[1..], next, labels);
    } else {
      forall l ensures (l in sofar <==> l in labels) && (l in sofar ==> sofar[l] == labels[l]) {
      }
      assert sofar == labels;
    }
  }

  /** Counts and lengths that a signed integer of 32 bits can hold. */
  predicate Fits32(e: Engine) {
    && |e.labels| <= MAX32 && |e.deleted| <= MAX32
    && (forall l :: l in e.labels ==> |e.labels[l]| <= MAX32)
    && (forall x :: x in e.deleted ==> |x| <= MAX32)
  }

  lemma LabelsRoundTrip(entries: seq<LabelEntry>, labels: Labels, tail: Bytes)
    requires |entries| <= MAX32 && forall k :: 0 <= k < |entries| ==> |entries[k].item| <= MAX32
    requires Lists(entries, labels) && FitsSigned(|entries|, 4)
    ensures
      var c := Get(ToSigned(|entries|, 4) + (SaveEntries(entries) + tail), 4);
      LoadEntriesInto(c.rest, Count(c.bytes), map[]) == Loaded(labels, tail)
  {
    SignedRoundTrip(|entries|, 4);
    GetFrom(ToSigned(|entries|, 4), SaveEntries(entries) + tail);
    hide Get, LoadEntriesInto, SaveEntries, ToSigned, FromSigned;
    EntriesRoundTrip(entries, map[], tail);
    TableOfLists(entries, map[], labels);
  }

  lemma DeletedRoundTrip(deleted: seq<Bytes>, deletedBefore: set<Bytes>)
    requires |deleted| <= MAX32 && forall k :: 0 <= k < |deleted| ==> |deleted[k]| <= MAX32
    requires FitsSigned(|deleted|, 4)
    ensures
      var d := Get(ToSigned(|deleted|, 4) + SaveStrings(deleted), 4);
      LoadStringsInto(d.rest, Count(d.bytes), deletedBefore) == Loaded(deletedBefore + ItemsOf(deleted), [])
  {
    SignedRoundTrip(|deleted|, 4);
    GetFrom(ToSigned(|deleted|, 4), SaveStrings(deleted));
    assert SaveStrings(deleted) + [] == SaveStrings(deleted);
    StringsRoundTrip(deleted, deletedBefore, []);
    hide Get, LoadStringsInto, SaveStrings, ToSigned, FromSigned;
  }

  /** The label file restores the label map exactly and adds exactly the deleted set, in whatever
      order they were written; every label comes back active. */
  lemma FileRoundTrip(e: Engine, entries: seq<LabelEntry>, deleted: seq<Bytes>, deletedBefore: set<Bytes>)
    requires |entries| <= MAX32 && |deleted| <= MAX32
    requires forall k :: 0 <= k < |entries| ==> |entries[k].item| <= MAX32
    requires forall k :: 0 <= k < |deleted| ==> |deleted[k]| <= MAX32
    requires Lists(entries, e.labels) && ItemsOf(deleted) == e.deleted
    ensures LoadFile(SaveFile(entries, deleted), deletedBefore)
            == Loaded(Engine(e.labels, deletedBefore + e.deleted, e.labels.Keys), [])
  {
    FourBytes();
    hide Pow256, ToSigned;
    var tail := ToSigned(|deleted|, 4) + SaveStrings(deleted);
    SaveFileParts(entries, deleted);
    hide SaveFile, Get, LoadEntriesInto, LoadStringsInto, SaveEntries, SaveStrings, Count, Lists;
    LabelsRoundTrip(entries, e.labels, tail);
    DeletedRoundTrip(deleted, deletedBefore);
  }

  lemma SaveFileParts(entries: seq<LabelEntry>, deleted: seq<Bytes>)
    requires |entries| <= MAX32 && |deleted| <= MAX32 && Pow256(4) == 0x1_0000_0000
    requires forall k :: 0 <= k < |entries| ==> |entries[k].item| <= MAX32
    requires forall k :: 0 <= k < |deleted| ==> |deleted[k]| <= MAX32
    ensures SaveFile(entries, deleted)
            == ToSigned(|entries|, 4) + (SaveEntries(entries) + (ToSigned(|deleted|, 4) + SaveStrings(deleted)))
  {
    hide SaveEntries, SaveStrings, ToSigned, Pow256;
  }

  /** The file is what saveIndex writes for e, in some order of its two tables. */
  ghost predicate IsSaved(e: Engine, file: Bytes) {
    exists entries, deleted :: SavedAs(e, entries, deleted, file)
  }

  ghost predicate SavedAs(e: Engine, entries: seq<LabelEntry>, deleted: seq<Bytes>, file: Bytes) {
    && |entries| == |e.labels| && |deleted| == |e.deleted|
    && (forall k :: 0 <= k < |entries| ==> Writable(entries[k].item))
    && (forall k :: 0 <= k < |deleted| ==> Writable(deleted[k]))
    && Lists(entries, e.labels) && ItemsOf(deleted) == e.deleted
    && file == SaveFile(entries, deleted)
  }

  /** All labels but those left have been written, each once. */
  ghost predicate LabelsSaved(labels: Labels, left: set<Int64>, entries: seq<LabelEntry>, body: Bytes) {
    && left <= labels.Keys && |entries| + |left| == |labels|
    && (forall k :: 0 <= k < |entries| ==> Writable(entries[k].item))
    && (forall k :: 0 <= k < |entries| ==> entries[k].tag in labels && labels[entries[k].tag] == entries[k].item)
    && (forall l :: l in labels && l !in left ==> exists k :: 0 <= k < |entries| && entries[k].tag == l)
    && body == SaveEntries(entries)
  }

  lemma LabelSaved(labels: Labels, left: set<Int64>, entries: seq<LabelEntry>, body: Bytes, l: Int64)
    requires LabelsSaved(labels, left, entries, body) && l in left && Writable(labels[l])
    ensures LabelsSaved(labels, left - {l}, entries + [LabelEntry(l, labels[l])],
                        body + SaveLabel(l) + SaveString(labels[l]))
  {
    var x := LabelEntry(l, labels[l]);
    SaveEntriesSnoc(entries, x);
    ListedMore(entries, x, labels, left);
    hide SaveEntries, SaveString, SaveLabel, Writable;
  }

  ghost predicate DeletedSaved(items: set<Bytes>, left: set<Bytes>, deleted: seq<Bytes>, tail: Bytes) {
    && left <= items && |deleted| + |left| == |items|
    && (forall k :: 0 <= k < |deleted| ==> Writable(deleted[k]))
    && left + ItemsOf(deleted) == items
    && tail == SaveStrings(deleted)
  }

  lemma ItemSaved(items: set<Bytes>, left: set<Bytes>, deleted: seq<Bytes>, tail: Bytes, item: Bytes)
    requires DeletedSaved(items, left, deleted, tail) && item in left && Writable(item)
    ensures DeletedSaved(items, left - {item}, deleted + [item], tail + SaveString(item))
  {
    SaveStringsSnoc(deleted, item);
    assert left - {item} + ItemsOf(deleted + [item]) == left + ItemsOf(deleted);
    hide SaveStrings, SaveString;
  }

  lemma SavedParts(e: Engine, entries: seq<LabelEntry>, deleted: seq<Bytes>, body: Bytes, tail: Bytes)
    requires Pow256(4) == 0x1_0000_0000
    requires LabelsSaved(e.labels, {}, entries, body) && DeletedSaved(e.deleted, {}, deleted, tail)
    ensures IsSaved(e, ToSigned(Cast32(|e.labels|), 4) + body + ToSigned(Cast32(|e.deleted|), 4) + tail)
  {
    hide Cast32;
    var file := ToSigned(Cast32(|e.labels|), 4) + body + ToSigned(Cast32(|e.deleted|), 4) + tail;
    assert SavedAs(e, entries, deleted, file);
  }

  lemma {:induction false} SaveEntriesSnoc(xs: seq<LabelEntry>, x: LabelEntry)
    requires Writable(x.item) && forall k :: 0 <= k < |xs| ==> Writable(xs[k].item)
    ensures forall k :: 0 <= k < |xs + [x]| ==> Writable((xs + [x])[k].item)
    ensures SaveEntries(xs + [x]) == SaveEntries(xs) + SaveLabel(x.tag) + SaveString(x.item)
    decreases |xs|
  {
    if |xs| > 0 {
      hide SaveString, SaveLabel, Writable;
      assert Writable(xs[0].item) && (xs + [x])[1..] == xs[1..] + [x];
      SaveEntriesSnoc(xs[1..], x);
    }
  }

  lemma {:induction false} SaveStringsSnoc(xs: seq<Bytes>, x: Bytes)
    requires Writable(x) && forall k :: 0 <= k < |xs| ==> Writable(xs[k])
    ensures SaveStrings(xs + [x]) == SaveStrings(xs) + SaveString(x)
    decreases |xs|
  {
    if |xs| > 0 {
      hide SaveString, Writable;
      assert (xs + [x])[1..] == xs[1..] + [x];
      SaveStringsSnoc(xs[1..], x);
    }
  }

  lemma ListedMore(xs: seq<LabelEntry>, x: LabelEntry, labels: Labels, left: set<Int64>)
    requires forall l :: l in labels && l !in left ==> exists k :: 0 <= k < |xs| && xs[k].tag == l
    ensures forall l :: l in labels && l !in left - {x.tag} ==>
              exists k :: 0 <= k < |xs + [x]| && (xs + [x])[k].tag == l
  {
    forall l | l in labels && l !in left - {x.tag}
      ensures exists k :: 0 <= k < |xs + [x]| && (xs + [x])[k].tag == l
    {
      if l == x.tag {
        assert (xs + [x])[|xs|].tag == l;
      } else {
        var k :| 0 <= k < |xs| && xs[k].tag == l;
        assert (xs + [x])[k].tag == l;
      }
    }
  }

  // ---------------------------------------------------------------- when the file loads back

  lemma CountFits(data: Bytes)
    requires |data| == 4
    ensures FromSigned(data) <= MAX32 && Count(data) <= MAX32
  {
    FourBytes();
  }

  lemma LoadedStringFits(data: Bytes)
    ensures LoadString(data).Loaded? ==> |LoadString(data).value| <= MAX32
  {
    CountFits(Get(data, 4).bytes);
  }

  ghost predicate LabelsFit(labels: Labels, size: nat) {
    |labels| <= size && forall l :: l in labels ==> |labels[l]| <= MAX32
  }

  lemma OneMoreFits(labels: Labels, size: nat, tag: Int64, item: Bytes)
    requires LabelsFit(labels, size) && |item| <= MAX32
    ensures LabelsFit(labels[tag := item], size + 1)
  {
    assert labels[tag := item].Keys == labels.Keys + {tag};
  }

  lemma {:induction false} LoadedLabelsFit(data: Bytes, count: nat, labels: Labels, size: nat)
    requires LabelsFit(labels, size)
    ensures
      var r := LoadEntriesInto(data, count, labels);
      r.Loaded? ==> LabelsFit(r.value, size + count)
    decreases count
  {
    hide LabelsFit, Get, LoadString, LoadLabel;
    if count > 0 {
      var l := Get(data, 8);
      var s := LoadString(l.rest);
      LoadedStringFits(l.rest);
      if s.Loaded? {
        OneMoreFits(labels, size, LoadLabel(l.bytes), s.value);
        LoadedLabelsFit(s.rest, count - 1, labels[LoadLabel(l.bytes) := s.value], size + 1);
      }
    }
  }

  lemma {:induction false} LoadedItemsFit(data: Bytes, count: nat, items: set<Bytes>)
    requires forall x :: x in items ==> |x| <= MAX32
    ensures
      var r := LoadStringsInto(data, count, items);
      r.Loaded? ==> |r.value| <= |items| + count && forall x :: x in r.value ==> |x| <= MAX32
    decreases count
  {
    if count > 0 {
      var s := LoadString(data);
      LoadedStringFits(data);
      if s.Loaded? {
        hide LoadString;
        LoadedItemsFit(s.rest, count - 1, items + {s.value});
      }
    }
  }

  /** Whatever a fresh engine loads has counts and lengths that fit 32 bits. */
  lemma LoadedFits(file: Bytes)
    ensures LoadFile(file, {}).Loaded? ==> Fits32(LoadFile(file, {}).value)
  {
    var c := Get(file, 4);
    CountFits(c.bytes);
    LoadedLabelsFit(c.rest, Count(c.bytes), map[], 0);
    var r := LoadEntriesInto(c.rest, Count(c.bytes), map[]);
    if r.Loaded? {
      var d := Get(r.rest, 4);
      CountFits(d.bytes);
      LoadedItemsFit(d.rest, Count(d.bytes), {});
    }
    hide Get, Count, LoadEntriesInto, LoadStringsInto;
  }

  /** A fresh engine that loads what another saved has its tables exactly if counts and lengths fit
      32 bits; and then a used engine has them too, with its own deleted items besides. */
  lemma SavedFileLoadsExactly(e: Engine, file: Bytes, deletedBefore: set<Bytes>)
    requires IsSaved(e, file)
    ensures LoadFile(file, {}) == Loaded(Reload(e), []) <==> Fits32(e)
    ensures Fits32(e) ==>
              LoadFile(file, deletedBefore) == Loaded(Reload(e).(deleted := deletedBefore + e.deleted), [])
  {
    hide IsSaved, LoadFile, Fits32;
    LoadedFits(file);
    if Fits32(e) {
      SavedFileLoads(e, file, deletedBefore);
      SavedFileLoads(e, file, {});
      assert {} + e.deleted == e.deleted;
    } else {
      ReloadFits(e);
    }
  }

  lemma ReloadFits(e: Engine)
    ensures Fits32(Reload(e)) <==> Fits32(e)
  {
  }

  lemma SavedFileLoads(e: Engine, file: Bytes, deletedBefore: set<Bytes>)
    requires IsSaved(e, file) && Fits32(e)
    ensures LoadFile(file, deletedBefore) == Loaded(Reload(e).(deleted := deletedBefore + e.deleted), [])
  {
    var entries, deleted :| SavedAs(e, entries, deleted, file);
    hide LoadFile, SaveFile;
    assert forall k :: 0 <= k < |deleted| ==> deleted[k] in e.deleted;
    FileRoundTrip(e, entries, deleted, deletedBefore);
  }

  // ---------------------------------------------------------------- the class

  class RecallEngine {
    const hash: Hash
    var labelToItemId: Labels
    var deletedItems: set<Bytes>
    var activeLabels: set<Int64>

    function View(): Engine
      reads this
    {
      Engine(labelToItemId, deletedItems, activeLabels)
    }

    constructor (hash: Hash)
      ensures View() == FRESH && this.hash == hash
    {
      this.hash := hash;
      labelToItemId, deletedItems, activeLabels := map[], {}, {};
    }

    method AddPoint(itemId: Bytes)
      modifies this
      ensures View() == Add(hash, old(View()), itemId)
    {
      var tag := hash(itemId);
      if tag in activeLabels {
        return;
      }
      deletedItems := deletedItems - {itemId};
      labelToItemId := labelToItemId[tag := itemId];
      activeLabels := activeLabels + {tag};
    }

    method UpsertPoint(itemId: Bytes)
      modifies this
      ensures View() == Upsert(hash, old(View()), itemId)
    {
      var tag := hash(itemId);
      var existed := tag in activeLabels;
      deletedItems := deletedItems - {itemId};
      if existed {
        labelToItemId := labelToItemId[tag := itemId];
      } else {
        activeLabels := activeLabels + {tag};
        labelToItemId := labelToItemId[tag := itemId];
      }
      assert activeLabels == old(activeLabels) + {tag};
    }

    method DeletePoint(itemId: Bytes)
      modifies this
      ensures View() == Delete(hash, old(View()), itemId)
    {
      var tag := hash(itemId);
      var existed := tag in activeLabels;
      if !existed {
        return;
      }
      deletedItems := deletedItems + {itemId};
      activeLabels := activeLabels - {tag};
    }

    /** searchTopK, given what the index reports. */
    method SearchTopK(knn: seq<Hit>) returns (result: seq<Found>)
      ensures result == Filter(View(), knn)
    {
      result := [];
      var delSet := deletedItems;
      for i := 0 to |knn|
        invariant result == Filter(View(), knn[..i])
      {
        assert knn[..i + 1][..i] == knn[..i];
        if knn[i].tag in labelToItemId {
          var item := labelToItemId[knn[i].tag];
          if item in delSet {
            continue;
          }
          result := result + [Found(item, knn[i].score)];
        }
      }
      assert knn[..|knn|] == knn;
    }

    /** The label-file half of saveIndex; the hash tables are walked in some order. */
    method SaveIndex() returns (file: Written)
      ensures file.Unspecified? <==>
                !((forall l :: l in labelToItemId ==> Writable(labelToItemId[l]))
                  && forall x :: x in deletedItems ==> Writable(x))
      ensures file.File? ==> IsSaved(View(), file.bytes)
    {
      FourBytes();
      var body := SaveLabels();
      if body.Unspecified? {
        return Unspecified;
      }
      var tail := SaveDeleted();
      if tail.Unspecified? {
        return Unspecified;
      }
      file := File(ToSigned(Cast32(|labelToItemId|), 4) + body.bytes
                   + ToSigned(Cast32(|deletedItems|), 4) + tail.bytes);
      ghost var entries :| LabelsSaved(labelToItemId, {}, entries, body.bytes);
      ghost var deleted :| DeletedSaved(deletedItems, {}, deleted, tail.bytes);
      SavedParts(View(), entries, deleted, body.bytes, tail.bytes);
    }

    /** The first loop of saveIndex. */
    method SaveLabels() returns (body: Written)
      ensures body.Unspecified? <==> exists l :: l in labelToItemId && !Writable(labelToItemId[l])
      ensures body.File? ==> exists entries :: LabelsSaved(labelToItemId, {}, entries, body.bytes)
    {
      var written: Bytes := [];
      var left := labelToItemId.Keys;
      ghost var entries: seq<LabelEntry> := [];
      while left != {}
        invariant LabelsSaved(labelToItemId, left, entries, written)
        decreases |left|
      {
        var l :| l in left;
        if !Writable(labelToItemId[l]) {
          return Unspecified;
        }
        LabelSaved(labelToItemId, left, entries, written, l);
        written := written + SaveLabel(l) + SaveString(labelToItemId[l]);
        entries := entries + [LabelEntry(l, labelToItemId[l])];
        left := left - {l};
      }
      forall l | l in labelToItemId ensures Writable(labelToItemId[l]) {
        var k :| 0 <= k < |entries| && entries[k].tag == l;
        assert Writable(entries[k].item);
      }
      return File(written);
    }

    /** The second loop of saveIndex. */
    method SaveDeleted() returns (tail: Written)
      ensures tail.Unspecified? <==> exists x :: x in deletedItems && !Writable(x)
      ensures tail.File? ==> exists deleted :: DeletedSaved(deletedItems, {}, deleted, tail.bytes)
    {
      var written: Bytes := [];
      var left := deletedItems;
      ghost var deleted: seq<Bytes> := [];
      while left != {}
        invariant DeletedSaved(deletedItems, left, deleted, written)
        decreases |left|
      {
        var item :| item in left;
        if !Writable(item) {
          return Unspecified;
        }
        ItemSaved(deletedItems, left, deleted, written, item);
        written := written + SaveString(item);
        deleted := deleted + [item];
        left := left - {item};
      }
      forall x | x in deletedItems ensures Writable(x) {
        assert x in ItemsOf(deleted);
      }
      return File(written);
    }

    /** The label-file half of loadIndex. */
    method LoadIndex(file: Bytes) returns (ok: bool)
      modifies this
      ensures ok == LoadFile(file, old(deletedItems)).Loaded?
      ensures ok ==> View() == LoadFile(file, old(deletedItems)).value
    {
      var c := Get(file, 4);
      var rest;
      ok, rest := LoadLabels(c.rest, FromSigned(c.bytes));
      if ok {
        var d := Get(rest, 4);
        ok := LoadDeleted(d.rest, FromSigned(d.bytes));
      }
    }

    /** One pass of the first loop of loadIndex. */
    method LoadOneLabel(file: Bytes) returns (ok: bool, data: Bytes)
      modifies this`labelToItemId, this`activeLabels
      ensures
        var l := Get(file, 8);
        var s := LoadString(l.rest);
        && ok == s.Loaded?
        && (ok ==> && labelToItemId == old(labelToItemId)[LoadLabel(l.bytes) := s.value]
                   && activeLabels == old(activeLabels) + {LoadLabel(l.bytes)} && data == s.rest)
    {
      var l := Get(file, 8);
      var s := LoadString(l.rest);
      if s.Failed? {
        return false, [];
      }
      labelToItemId := labelToItemId[LoadLabel(l.bytes) := s.value];
      activeLabels := activeLabels + {LoadLabel(l.bytes)};
      return true, s.rest;
    }

    method LoadLabels(file: Bytes, count: int) returns (ok: bool, data: Bytes)
      modifies this`labelToItemId, this`activeLabels
      ensures
        var r := LoadEntriesInto(file, if count < 0 then 0 else count, map[]);
        ok == r.Loaded? && (ok ==> r == Loaded(labelToItemId, data) && activeLabels == labelToItemId.Keys)
    {
      hide Get, LoadString, LoadLabel, FromSigned;
      labelToItemId, activeLabels, data := map[], {}, file;
      ghost var want := LoadEntriesInto(file, if count < 0 then 0 else count, map[]);
      var left: nat := if count < 0 then 0 else count;
      ok := true;
      while left > 0 && ok
        invariant ok ==> LoadEntriesInto(data, left, labelToItemId) == want && activeLabels == labelToItemId.Keys
        invariant !ok ==> want.Failed?
      {
        ok, data := LoadOneLabel(data);
        left := left - 1;
      }
    }

    method LoadDeleted(file: Bytes, count: int) returns (ok: bool)
      modifies this`deletedItems
      ensures
        var r := LoadStringsInto(file, if count < 0 then 0 else count, old(deletedItems));
        ok == r.Loaded? && (ok ==> deletedItems == r.value)
    {
      hide Get, FromSigned, LoadString;
      var data := file;
      ghost var want := LoadStringsInto(file, if count < 0 then 0 else count, deletedItems);
      var i := 0;
      while i < count
        invariant 0 <= i && (count >= 0 ==> i <= count)
        invariant LoadStringsInto(data, if count < 0 then 0 else count - i, deletedItems) == want
      {
        var s := LoadString(data);
        if s.Failed? {
          return false;
        }
        deletedItems := deletedItems + {s.value};
        data := s.rest;
        i := i + 1;
      }
      ok := true;
    }
  }
}
