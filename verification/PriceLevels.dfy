/** Price levels keyed by price, and the flat priority sequence they stand for. */
module PriceLevels {
  import opened FlatBook
  import opened Options
  import opened Sequences

  /** FIFO queue at a single price, with its cached total size. */
  datatype PriceLevel = PriceLevel(totalSize: nat, queue: seq<RestingOrder>)

  const NEW_LEVEL := PriceLevel(0, [])

  /** One side of the book: the ordered map of its levels. */
  type Levels = map<int, PriceLevel>

  function SumRemaining(q: seq<RestingOrder>): nat {
    if q == [] then 0 else q[0].remaining + SumRemaining(q[1..])
  }

  lemma {:induction false} SumAppend(p: seq<RestingOrder>, q: seq<RestingOrder>)
    ensures SumRemaining(p + q) == SumRemaining(p) + SumRemaining(q)
  {
    if p == [] {
      assert p + q == q;
    } else {
      SumAppend(p[1..], q);
      assert (p + q)[1..] == p[1..] + q;
    }
  }

  /** No level is empty and every cached size is the true one. */
  ghost predicate LevelsValid(m: Levels) {
    forall p :: p in m ==> m[p].queue != [] && m[p].totalSize == SumRemaining(m[p].queue)
  }

  // ------------------------------------------------------------ the best price

  predicate IsBest(side: Side, m: Levels, p: int) {
    p in m && forall q :: q in m.Keys ==> !Better(side, q, p)
  }

  lemma {:induction false} BestExists(side: Side, m: Levels)
    requires m != map[]
    ensures exists p :: IsBest(side, m, p)
    decreases |m|
  {
    var item :| item in m.Items;
    var p := item.0;
    var n := m - {p};
    if n == map[] {
      assert forall q :: q in m ==> q == p || q in n;
      assert IsBest(side, m, p);
    } else {
      assert n.Keys == m.Keys - {p};
      assert |n.Keys| == |m.Keys| - 1;
      BestExists(side, n);
      var q :| IsBest(side, n, q);
      assert forall r :: r in m ==> r == p || r in n;
      assert IsBest(side, m, if Better(side, p, q) then p else q);
    }
  }

  /** The greatest bid or least ask price, if the side has any. */
  function Best(side: Side, m: Levels): (r: Option<int>)
    ensures r.None? <==> m == map[]
    ensures r.Some? ==> IsBest(side, m, r.value)
  {
    if m == map[] then None
    else
      assert exists p :: IsBest(side, m, p) by { BestExists(side, m); }
      var p :| IsBest(side, m, p);
      Some(p)
  }

  // ------------------------------------------------------------ flattening

  function Tag(px: int, q: seq<RestingOrder>): seq<Entry> {
    if q == [] then [] else [Entry(px, q[0])] + Tag(px, q[1..])
  }

  /** The side as one sequence in price-time priority. */
  ghost function Flatten(side: Side, m: Levels): seq<Entry>
    decreases |m|
  {
    if m == map[] then []
    else
      var p := Best(side, m).value;
      assert (m - {p}).Keys == m.Keys - {p};
      Tag(p, m[p].queue) + Flatten(side, m - {p})
  }

  lemma {:induction false} TagAppend(px: int, p: seq<RestingOrder>, q: seq<RestingOrder>)
    ensures Tag(px, p + q) == Tag(px, p) + Tag(px, q)
  {
    if p == [] {
      assert p + q == q;
    } else {
      TagAppend(px, p[1..], q);
      assert (p + q)[1..] == p[1..] + q;
      Assoc([Entry(px, p[0])], Tag(px, p[1..]), Tag(px, q));
    }
  }

  /** The front of the flat sequence rests at the best price. */
  lemma {:induction false} FlattenFront(side: Side, m: Levels)
    requires LevelsValid(m)
    ensures Flatten(side, m) == [] <==> m == map[]
    ensures m != map[] ==> Flatten(side, m)[0].px == Best(side, m).value
  {
  }

  /** Splits off the best level after it was replaced by another with the same price. */
  lemma {:induction false} FlattenBest(side: Side, m: Levels, px: int, l: PriceLevel)
    requires IsBest(side, m, px)
    ensures Flatten(side, m[px := l]) == Tag(px, l.queue) + Flatten(side, m - {px})
  {
    var n := m[px := l];
    assert n.Keys == m.Keys;
    assert IsBest(side, n, px);
    assert Best(side, n).value == px;
    assert n - {px} == m - {px};
  }

  lemma {:induction false} InsertPast(side: Side, px: int, q: seq<RestingOrder>, t: seq<Entry>, e: Entry)
    requires !Better(side, e.px, px)
    ensures Insert(side, Tag(px, q) + t, e) == Tag(px, q) + Insert(side, t, e)
  {
    if q == [] {
      assert Tag(px, q) + t == t;
    } else {
      InsertPast(side, px, q[1..], t, e);
      assert (Tag(px, q) + t)[1..] == Tag(px, q[1..]) + t;
      Assoc([Entry(px, q[0])], Tag(px, q[1..]), Insert(side, t, e));
    }
  }

  /** A level at a new best price goes in front. */
  lemma {:induction false} FlattenNewBest(side: Side, m: Levels, px: int, l: PriceLevel)
    requires px !in m && forall q :: q in m.Keys ==> Better(side, px, q)
    ensures Flatten(side, m[px := l]) == Tag(px, l.queue) + Flatten(side, m)
  {
    var m' := m[px := l];
    assert IsBest(side, m', px);
    FlattenBest(side, m', px, l);
    assert m'[px := l] == m' && m' - {px} == m;
  }

  lemma {:induction false} InsertInFront(side: Side, m: Levels, e: Entry)
    requires LevelsValid(m) && forall q :: q in m.Keys ==> Better(side, e.px, q)
    ensures Insert(side, Flatten(side, m), e) == [e] + Flatten(side, m)
  {
    FlattenFront(side, m);
  }

  lemma {:induction false} InsertAtBest(side: Side, m: Levels, px: int, o: RestingOrder, size: nat)
    requires LevelsValid(m) && IsBest(side, m, px)
    ensures Flatten(side, m[px := PriceLevel(size, m[px].queue + [o])]) == Insert(side, Flatten(side, m), Entry(px, o))
  {
    var q, n, e := m[px].queue, m - {px}, Entry(px, o);
    FlattenBest(side, m, px, m[px]);
    assert m[px := m[px]] == m;
    FlattenBest(side, m, px, PriceLevel(size, q + [o]));
    InsertPast(side, px, q, Flatten(side, n), e);
    InsertInFront(side, n, e);
    TagAppend(px, q, [o]);
    assert Tag(px, [o]) == [e];
    assert (Tag(px, q) + [e]) + Flatten(side, n) == Tag(px, q) + ([e] + Flatten(side, n));
  }

  lemma {:induction false} InsertBehindBest(side: Side, m: Levels, p: int, px: int, l: PriceLevel, e: Entry)
    requires p in m && IsBest(side, m, p) && p != px && !Better(side, e.px, p)
    requires Flatten(side, (m - {p})[px := l]) == Insert(side, Flatten(side, m - {p}), e)
    requires IsBest(side, m[px := l], p)
    ensures Flatten(side, m[px := l]) == Insert(side, Flatten(side, m), e)
  {
    hide Flatten, Insert, Tag, Better, IsBest;
    var n := m - {p};
    FlattenBest(side, m, p, m[p]);
    FlattenBest(side, m[px := l], p, m[p]);
    InsertPast(side, p, m[p].queue, Flatten(side, n), e);
    assert m[p := m[p]] == m;
    assert m[px := l][p := m[p]] == m[px := l];
    assert m[px := l] - {p} == n[px := l];
  }

  lemma {:induction false} TagOne(px: int, o: RestingOrder)
    ensures Tag(px, [o]) == [Entry(px, o)]
  {
  }

  /** Pushing an order on the back of its level's queue is a priority insertion. */
  lemma {:induction false} FlattenInsert(side: Side, m: Levels, px: int, o: RestingOrder, size: nat)
    requires LevelsValid(m)
    ensures var q := if px in m then m[px].queue else [];
      Flatten(side, m[px := PriceLevel(size, q + [o])]) == Insert(side, Flatten(side, m), Entry(px, o))
    decreases |m|
  {
    hide Insert, Tag;
    var q := if px in m then m[px].queue else [];
    var l := PriceLevel(size, q + [o]);
    if m == map[] || Better(side, px, Best(side, m).value) {
      FlattenNewBest(side, m, px, l);
      InsertInFront(side, m, Entry(px, o));
      assert q + [o] == [o];
      TagOne(px, o);
    } else if px == Best(side, m).value {
      InsertAtBest(side, m, px, o, size);
    } else {
      var p := Best(side, m).value;
      var n := m - {p};
      assert n.Keys == m.Keys - {p};
      FlattenInsert(side, n, px, o, size);
      InsertBehindBest(side, m, p, px, l, Entry(px, o));
    }
  }

  lemma {:induction false} SizeAtAppend(s: seq<Entry>, t: seq<Entry>, px: int)
    ensures SizeAt(s + t, px) == SizeAt(s, px) + SizeAt(t, px)
  {
    if s == [] {
      assert s + t == t;
    } else {
      SizeAtAppend(s[1..], t, px);
      assert (s + t)[1..] == s[1..] + t;
    }
  }

  lemma {:induction false} SizeAtTag(p: int, q: seq<RestingOrder>, px: int)
    ensures SizeAt(Tag(p, q), px) == if p == px then SumRemaining(q) else 0
  {
    if q != [] { SizeAtTag(p, q[1..], px); }
  }

  /** The cached size of a level is what really rests at its price. */
  lemma {:induction false} FlattenSizeAt(side: Side, m: Levels, px: int)
    requires LevelsValid(m)
    ensures SizeAt(Flatten(side, m), px) == if px in m then m[px].totalSize else 0
    decreases |m|
  {
    if m != map[] {
      var p := Best(side, m).value;
      var n := m - {p};
      assert n.Keys == m.Keys - {p};
      FlattenSizeAt(side, n, px);
      SizeAtAppend(Tag(p, m[p].queue), Flatten(side, n), px);
      SizeAtTag(p, m[p].queue, px);
    }
  }

  // ------------------------------------------------------------ the locate index

  /** Where each resting id is: the index as a function of the flat side. */
  function Located(side: Side, s: seq<Entry>): map<nat, (Side, int)> {
    if s == [] then map[] else Located(side, s[1..])[s[0].order.orderId := (side, s[0].px)]
  }

  function Index(b: Ladder): map<nat, (Side, int)> {
    Located(Buy, b.bids) + Located(Sell, b.asks)
  }

  lemma {:induction false} LocatedKeys(side: Side, s: seq<Entry>)
    ensures Located(side, s).Keys == IdsOf(s)
  {
    if s != [] { LocatedKeys(side, s[1..]); }
  }

  /** Every resting order is in the index at its true side and price. */
  lemma {:induction false} LocatedAt(side: Side, s: seq<Entry>, i: nat)
    requires SideValid(side, s) && i < |s|
    ensures s[i].order.orderId in Located(side, s)
    ensures Located(side, s)[s[i].order.orderId] == (side, s[i].px)
  {
    if i > 0 {
      LocatedAt(side, s[1..], i - 1);
      LocatedKeys(side, s[1..]);
    }
  }

  lemma {:induction false} LocatedInsert(side: Side, s: seq<Entry>, e: Entry)
    requires e.order.orderId !in IdsOf(s)
    ensures Located(side, Insert(side, s, e)) == Located(side, s)[e.order.orderId := (side, e.px)]
  {
    if s == [] || Better(side, e.px, s[0].px) {
      assert ([e] + s)[1..] == s;
    } else {
      LocatedInsert(side, s[1..], e);
      var t := Insert(side, s[1..], e);
      assert ([s[0]] + t)[1..] == t;
    }
  }

  lemma {:induction false} LocatedRemove(side: Side, s: seq<Entry>, id: nat)
    ensures Located(side, Remove(s, id)) == Located(side, s) - {id}
  {
    if s != [] {
      LocatedRemove(side, s[1..], id);
      var t := Remove(s[1..], id);
      assert ([s[0]] + t)[1..] == t;
    }
  }

  // ------------------------------------------------------------ removal from the middle of a queue

  lemma {:induction false} IdsAppend(s: seq<Entry>, t: seq<Entry>)
    ensures IdsOf(s + t) == IdsOf(s) + IdsOf(t)
  {
    if s == [] {
      assert s + t == t;
    } else {
      IdsAppend(s[1..], t);
      assert (s + t)[1..] == s[1..] + t;
    }
  }

  lemma {:induction false} RemoveAppend(s: seq<Entry>, t: seq<Entry>, id: nat)
    ensures Remove(s + t, id) == Remove(s, id) + Remove(t, id)
  {
    if s == [] {
      assert s + t == t;
    } else {
      RemoveAppend(s[1..], t, id);
      assert (s + t)[1..] == s[1..] + t;
      Assoc([s[0]], Remove(s[1..], id), Remove(t, id));
    }
  }

  predicate Queued(q: seq<RestingOrder>, id: nat) {
    exists i :: 0 <= i < |q| && q[i].orderId == id
  }

  lemma {:induction false} TagIds(px: int, q: seq<RestingOrder>, id: nat)
    ensures id in IdsOf(Tag(px, q)) <==> Queued(q, id)
  {
    if q != [] {
      TagIds(px, q[1..], id);
      if Queued(q, id) {
        var i :| 0 <= i < |q| && q[i].orderId == id;
        assert i > 0 ==> q[1..][i - 1].orderId == id;
      }
      if Queued(q[1..], id) {
        var i :| 0 <= i < |q[1..]| && q[1..][i].orderId == id;
        assert q[i + 1].orderId == id;
      }
    }
  }

  /** An id rests on the side exactly when it is in the queue of some level. */
  lemma {:induction false} FlattenIds(side: Side, m: Levels, id: nat)
    ensures id in IdsOf(Flatten(side, m)) <==> exists p :: p in m && Queued(m[p].queue, id)
    decreases |m|
  {
    if m != map[] {
      var p := Best(side, m).value;
      var n := m - {p};
      assert n.Keys == m.Keys - {p};
      FlattenIds(side, n, id);
      IdsAppend(Tag(p, m[p].queue), Flatten(side, n));
      TagIds(p, m[p].queue, id);
      assert forall r :: r in m ==> r == p || (r in n && n[r] == m[r]);
    }
  }

  lemma {:induction false} RemoveTag(px: int, q: seq<RestingOrder>, pos: nat, id: nat)
    requires pos < |q| && q[pos].orderId == id
    requires forall i :: 0 <= i < |q| && i != pos ==> q[i].orderId != id
    ensures Remove(Tag(px, q), id) == Tag(px, q[..pos] + q[pos + 1..])
  {
    if pos > 0 {
      RemoveTag(px, q[1..], pos - 1, id);
      assert q[..pos] + q[pos + 1..] == [q[0]] + (q[1..][..pos - 1] + q[1..][pos..]);
    } else {
      assert q[..0] + q[1..] == q[1..];
      TagIds(px, q[1..], id);
      RemoveValid(Buy, Tag(px, q[1..]), id);
    }
  }

  /** The side after the order at `pos` of level `px` is cut out, the level going with it
      when that was its last order. */
  function CutLevel(m: Levels, px: int, pos: nat): Levels
    requires px in m && pos < |m[px].queue| && m[px].queue[pos].remaining <= m[px].totalSize
  {
    var q := m[px].queue;
    var left := q[..pos] + q[pos + 1..];
    if left == [] then m - {px} else m[px := PriceLevel(m[px].totalSize - q[pos].remaining, left)]
  }

  lemma {:induction false} FlattenRemoveBest(side: Side, m: Levels, p: int, pos: nat, id: nat)
    requires IsBest(side, m, p) && pos < |m[p].queue| && m[p].queue[pos].remaining <= m[p].totalSize
    requires m[p].queue[pos].orderId == id && SideValid(side, Flatten(side, m))
    ensures Flatten(side, CutLevel(m, p, pos)) == Remove(Flatten(side, m), id)
  {
    var q, tail := m[p].queue, Flatten(side, m - {p});
    var m' := CutLevel(m, p, pos);
    FlattenBest(side, m, p, m[p]);
    assert m[p := m[p]] == m;
    RemoveAppend(Tag(p, q), tail, id);
    ValidSplit(side, p, q, tail);
    TagIds(p, q, id);
    RemoveTag(p, q, pos, id);
    RemoveValid(side, tail, id);
    if q[..pos] + q[pos + 1..] != [] {
      FlattenBest(side, m, p, m'[p]);
    }
  }

  lemma {:induction false} CutBehindBest(side: Side, m: Levels, p: int, px: int, pos: nat)
    requires IsBest(side, m, p) && p != px
    requires px in m && pos < |m[px].queue| && m[px].queue[pos].remaining <= m[px].totalSize
    ensures Flatten(side, CutLevel(m, px, pos)) == Tag(p, m[p].queue) + Flatten(side, CutLevel(m - {p}, px, pos))
  {
    var m' := CutLevel(m, px, pos);
    assert IsBest(side, m', p);
    FlattenBest(side, m', p, m'[p]);
    assert m'[p := m'[p]] == m';
    assert m' - {p} == CutLevel(m - {p}, px, pos);
  }

  lemma {:induction false} FlattenRemove(side: Side, m: Levels, px: int, pos: nat, id: nat)
    requires px in m && pos < |m[px].queue| && m[px].queue[pos].remaining <= m[px].totalSize
    requires m[px].queue[pos].orderId == id && SideValid(side, Flatten(side, m))
    ensures Flatten(side, CutLevel(m, px, pos)) == Remove(Flatten(side, m), id)
    decreases |m|
  {
    var p := Best(side, m).value;
    if p == px {
      FlattenRemoveBest(side, m, p, pos, id);
    } else {
      var q, n, m' := m[p].queue, m - {p}, CutLevel(m, px, pos);
      assert n.Keys == m.Keys - {p};
      var tail := Flatten(side, n);
      assert Remove(Flatten(side, m), id) == Tag(p, q) + Remove(tail, id) by {
        RemoveAppend(Tag(p, q), tail, id);
        ValidSplit(side, p, q, tail);
        FlattenIds(side, n, id);
        assert px in n && Queued(n[px].queue, id);
        RemoveValid(side, Tag(p, q), id);
      }
      assert SideValid(side, tail) by { ValidSplit(side, p, q, tail); }
      FlattenRemove(side, n, px, pos, id);
      CutBehindBest(side, m, p, px, pos);
    }
  }

  /** A valid side splits into its best level, with distinct ids, and the rest. */
  lemma {:induction false} ValidSplit(side: Side, px: int, q: seq<RestingOrder>, t: seq<Entry>)
    requires SideValid(side, Tag(px, q) + t)
    ensures SideValid(side, t)
    ensures IdsOf(Tag(px, q)) !! IdsOf(t)
    ensures forall i, j :: 0 <= i < j < |q| ==> q[i].orderId != q[j].orderId
  {
    if q == [] {
      assert Tag(px, q) + t == t;
    } else {
      assert (Tag(px, q) + t)[1..] == Tag(px, q[1..]) + t;
      ValidSplit(side, px, q[1..], t);
      IdsAppend(Tag(px, q[1..]), t);
      TagIds(px, q[1..], q[0].orderId);
      forall i, j | 0 <= i < j < |q| ensures q[i].orderId != q[j].orderId {
        assert q[j] == q[1..][j - 1];
        if i > 0 { assert q[i] == q[1..][i - 1]; }
      }
    }
  }

  lemma {:induction false} LocatedAppend(side: Side, s: seq<Entry>, t: seq<Entry>)
    ensures Located(side, s + t) == Located(side, t) + Located(side, s)
  {
    if s == [] {
      assert s + t == t;
    } else {
      LocatedAppend(side, s[1..], t);
      assert (s + t)[1..] == s[1..] + t;
    }
  }

  lemma {:induction false} LocatedTag(side: Side, px: int, q: seq<RestingOrder>, id: nat)
    requires id in IdsOf(Tag(px, q))
    ensures id in Located(side, Tag(px, q)) && Located(side, Tag(px, q))[id] == (side, px)
  {
    if q[0].orderId != id {
      LocatedTag(side, px, q[1..], id);
    }
  }

  /** The index leads to a level that holds the order. */
  lemma {:induction false} LocatedLevel(side: Side, m: Levels, id: nat)
    requires id in IdsOf(Flatten(side, m))
    ensures id in Located(side, Flatten(side, m))
    ensures var at := Located(side, Flatten(side, m))[id];
      at.0 == side && at.1 in m && Queued(m[at.1].queue, id)
    decreases |m|
  {
    var p := Best(side, m).value;
    var n := m - {p};
    assert n.Keys == m.Keys - {p};
    var t, tail := Tag(p, m[p].queue), Flatten(side, n);
    IdsAppend(t, tail);
    LocatedAppend(side, t, tail);
    LocatedKeys(side, t);
    if id in IdsOf(t) {
      LocatedTag(side, p, m[p].queue, id);
      TagIds(p, m[p].queue, id);
    } else {
      LocatedLevel(side, n, id);
    }
  }

  lemma {:induction false} SumCut(q: seq<RestingOrder>, pos: nat)
    requires pos < |q|
    ensures SumRemaining(q[..pos] + q[pos + 1..]) == SumRemaining(q) - q[pos].remaining
  {
    assert q == q[..pos] + ([q[pos]] + q[pos + 1..]);
    SumAppend(q[..pos], [q[pos]] + q[pos + 1..]);
    SumAppend(q[..pos], q[pos + 1..]);
  }
}
