// How BACnet objects are read in slices that keep to the device's request budget.
module ObjectIteration {

  type Property = string

  // What is asked of an object: a single property as text, or a set or a list of them.
  // One of them may stand for all its properties.
  datatype Wish = Text(name: Property) | InSet(names: set<Property>) | InList(list: seq<Property>)
  datatype Item = Item(id: int, wish: Wish)

  const ALL: Property := "all"
  const ALL_PROPERTIES := 6

  function Weight(p: Property): nat { if p == ALL then ALL_PROPERTIES else 1 }

  function Weights(ps: seq<Property>): nat {
    if ps == [] then 0 else Weights(ps[..|ps| - 1]) + Weight(ps[|ps| - 1])
  }

  // What an object costs in a request, which asks for each property of a set or a list.
  function Cost(item: Item): nat {
    match item.wish
    case Text(p) => Weight(p)
    case InSet(ps) => if ALL in ps then |ps| - 1 + ALL_PROPERTIES else |ps|
    case InList(ps) => Weights(ps)
  }

  // What the limit counts for it.
  function Counted(item: Item): nat { if item.wish.InSet? then |item.wish.names| else 1 }

  predicate HasAll(items: seq<Item>) { exists i :: 0 <= i < |items| && items[i].wish == Text(ALL) }

  function Largest(items: seq<Item>): nat {
    if items == [] then 0
    else if Counted(items[|items| - 1]) > Largest(items[..|items| - 1]) then Counted(items[|items| - 1])
    else Largest(items[..|items| - 1])
  }

  // The largest property count; an object that asks for all as a text decides it alone.
  function MaxCount(items: seq<Item>): nat { if HasAll(items) then ALL_PROPERTIES else Largest(items) }

  function Limit(items: seq<Item>, budget: nat): nat {
    if MaxCount(items) > 0 then budget / MaxCount(items) else 1
  }

  function Min(a: int, b: int): int { if a <= b then a else b }

  function Slice(items: seq<Item>, index: nat, limit: nat): seq<Item> {
    if index >= |items| then [] else items[index..Min(index + limit, |items|)]
  }

  function Advance(items: seq<Item>, index: nat, limit: nat): nat { if index >= |items| then index else index + limit }

  // A request for the object, if its type is known, puts a single property into a set.
  function Requested(item: Item, known: Item -> bool): Item {
    if item.wish.Text? && known(item) then item.(wish := InSet({item.wish.name})) else item
  }

  function RequestedAll(items: seq<Item>, known: Item -> bool): (r: seq<Item>)
    ensures |r| == |items| && forall i | 0 <= i < |items| :: r[i] == Requested(items[i], known)
  {
    seq(|items|, i requires 0 <= i < |items| => Requested(items[i], known))
  }

  // The list after the requests for its objects from `index` to before `end`.
  function After(items: seq<Item>, index: nat, end: nat, known: Item -> bool): (r: seq<Item>)
    ensures |r| == |items|
    ensures forall i | 0 <= i < |items| :: r[i] == if index <= i < end then Requested(items[i], known) else items[i]
  {
    seq(|items|, i requires 0 <= i < |items| => if index <= i < end then Requested(items[i], known) else items[i])
  }

  class ObjectIterator {
    var items: seq<Item>
    const limit: nat
    var index: nat

    constructor (items: seq<Item>, budget: nat)
      ensures this.items == items && limit == Limit(items, budget) && index == 0
    {
      this.items := items;
      index := 0;
      var max, i := 0, 0;
      while i < |items|
        invariant 0 <= i <= |items| && !HasAll(items[..i]) && max == Largest(items[..i])
      {
        assert items[..i + 1][..i] == items[..i];
        if items[i].wish == Text(ALL) {
          max := ALL_PROPERTIES;
          assert HasAll(items);
          break;
        }
        if Counted(items[i]) > max { max := Counted(items[i]); }
        i := i + 1;
      }
      assert i == |items| ==> items[..i] == items;
      limit := if max > 0 then budget / max else 1;
    }

    // The next slice to request, and whether it is the last.
    method GetNext(known: Item -> bool) returns (slice: seq<Item>, finished: bool)
      modifies this`index, this`items
      ensures slice == Slice(old(items), old(index), limit) && index == Advance(old(items), old(index), limit)
      ensures items == if old(index) >= |old(items)| then old(items)
                       else After(old(items), old(index), Min(old(index) + limit, |old(items)|), known)
      ensures finished <==> index >= |items|
    {
      if index >= |items| { return [], true; }
      var end := index + limit;
      slice := items[index..Min(end, |items|)];
      items := After(items, index, Min(end, |items|), known);
      index := end;
      finished := index >= |items|;
    }
  }

  // The reading loop: every object is requested once, in order.
  method ReadAll(it: ObjectIterator, known: Item -> bool) returns (requested: seq<Item>, calls: nat)
    requires it.index == 0 && (it.limit >= 1 || it.items == [])
    modifies it
    ensures requested == old(it.items) && it.items == RequestedAll(old(it.items), known)
    ensures it.items != [] ==> (calls - 1) * it.limit < |it.items| <= calls * it.limit
  {
    requested, calls := [], 0;
    ghost var all := it.items;
    var finished := false;
    while !finished
      invariant it.index == (if all == [] then 0 else calls * it.limit) && |it.items| == |all|
      invariant requested == all[..Min(it.index, |all|)]
      invariant it.items == After(all, 0, Min(it.index, |all|), known)
      invariant finished ==> it.index >= |all|
      invariant calls > 0 && all != [] ==> (calls - 1) * it.limit < |all|
      invariant !finished && all != [] ==> it.index < |all|
      decreases !finished, |all| - it.index
    {
      ghost var before := it.index;
      if all != [] { OneMoreSlice(all, before, Min(before + it.limit, |all|), known); }
      var slice;
      slice, finished := it.GetNext(known);
      requested := requested + slice;
      calls := calls + 1;
      if all != [] { assert calls * it.limit == before + it.limit; }
    }
    assert all[..|all|] == all;
  }

  lemma OneMoreSlice(all: seq<Item>, index: nat, end: nat, known: Item -> bool)
    requires index <= end <= |all|
    ensures After(all, 0, index, known)[index..end] == all[index..end]
    ensures After(After(all, 0, index, known), index, end, known) == After(all, 0, end, known)
  {}

  // ---------- The limit ----------

  // The largest count is that of some object, and no object counts more; all properties of an
  // object are taken for six, and decide alone if they are asked for by a text.
  lemma MaxCountExactly(items: seq<Item>)
    requires items != []
    ensures if exists i :: 0 <= i < |items| && items[i].wish == Text("all") then MaxCount(items) == 6
            else (forall i | 0 <= i < |items| :: Counted(items[i]) <= MaxCount(items))
                 && exists i :: 0 <= i < |items| && Counted(items[i]) == MaxCount(items)
  {
    if !HasAll(items) {
      forall i | 0 <= i < |items| ensures Counted(items[i]) <= Largest(items) { LargestBounds(items, i); }
      LargestIsTaken(items);
    }
  }

  lemma {:induction false} LargestIsTaken(items: seq<Item>)
    requires items != []
    ensures exists i :: 0 <= i < |items| && Counted(items[i]) == Largest(items)
  {
    var n := |items| - 1;
    if Largest(items) == Counted(items[n]) {
      assert Counted(items[n]) == Largest(items);
    } else {
      LargestIsTaken(items[..n]);
      var i :| 0 <= i < n && Counted(items[..n][i]) == Largest(items[..n]);
      assert Counted(items[i]) == Largest(items);
    }
  }

  // The limit is the largest number of objects with that count that the budget covers.
  lemma LimitIsLargest(items: seq<Item>, budget: nat)
    requires MaxCount(items) > 0
    ensures Limit(items, budget) * MaxCount(items) <= budget < (Limit(items, budget) + 1) * MaxCount(items)
  {
    var max := MaxCount(items);
    assert budget == (budget / max) * max + budget % max;
  }

  // A request slice holds an object at least exactly if the budget covers the largest count.
  lemma LimitIsUsableExactly(items: seq<Item>, budget: nat)
    ensures Limit(items, budget) >= 1 <==> budget >= MaxCount(items)
  {
    var max := MaxCount(items);
    if max > 0 {
      assert budget == (budget / max) * max + budget % max;
      if budget / max >= 1 { assert (budget / max) * max >= max; } else { assert budget / max == 0; }
    }
  }

  function Index(items: seq<Item>, limit: nat, k: nat): nat {
    if k == 0 then 0 else Advance(items, Index(items, limit, k - 1), limit)
  }

  // The k-th call reports the end.
  predicate EndsAt(items: seq<Item>, limit: nat, k: nat) { Index(items, limit, k) >= |items| }

  lemma {:induction false} IndexGrows(items: seq<Item>, limit: nat, k: nat)
    ensures limit >= 1 ==> Index(items, limit, k) >= Min(k, |items|)
    ensures limit == 0 ==> Index(items, limit, k) == 0
  {
    if k > 0 { IndexGrows(items, limit, k - 1); }
  }

  // The iteration comes to an end exactly if the budget covers the largest count.
  lemma IterationEndsExactly(items: seq<Item>, budget: nat)
    requires items != []
    ensures (exists k :: EndsAt(items, Limit(items, budget), k)) <==> budget >= MaxCount(items)
  {
    var limit := Limit(items, budget);
    LimitIsUsableExactly(items, budget);
    if limit >= 1 {
      IndexGrows(items, limit, |items|);
      assert EndsAt(items, limit, |items|);
    } else {
      forall k ensures !EndsAt(items, limit, k) { IndexGrows(items, limit, k); }
    }
  }

  // ---------- The budget ----------

  function Total(items: seq<Item>): nat {
    if items == [] then 0 else Total(items[..|items| - 1]) + Cost(items[|items| - 1])
  }

  ghost predicate Bounded(items: seq<Item>) { forall i | 0 <= i < |items| :: Cost(items[i]) <= MaxCount(items) }

  lemma {:induction false} LargestBounds(items: seq<Item>, i: nat)
    requires i < |items|
    ensures Counted(items[i]) <= Largest(items)
  {
    if i < |items| - 1 { LargestBounds(items[..|items| - 1], i); }
  }

  lemma {:induction false} LargestIsCounted(items: seq<Item>, n: nat)
    requires Largest(items) >= n > 0
    ensures exists i :: 0 <= i < |items| && Counted(items[i]) >= n
  {
    var last := items[|items| - 1];
    if Counted(last) >= n {
      assert Counted(items[|items| - 1]) >= n;
    } else {
      LargestIsCounted(items[..|items| - 1], n);
      var i :| 0 <= i < |items| - 1 && Counted(items[..|items| - 1][i]) >= n;
      assert Counted(items[i]) >= n;
    }
  }

  // The limit counts less for the object than it costs.
  predicate Underrated(item: Item) { Counted(item) < Cost(item) }

  lemma {:induction false} WeightsExactly(ps: seq<Property>)
    ensures Weights(ps) >= |ps|
    ensures Weights(ps) == |ps| <==> ALL !in ps
  {
    if ps != [] {
      WeightsExactly(ps[..|ps| - 1]);
      assert ps == ps[..|ps| - 1] + [ps[|ps| - 1]];
    }
  }

  // These are the objects that ask for all properties, and those with a list of several.
  lemma UnderratedExactly(item: Item)
    ensures Underrated(item) <==>
      match item.wish
      case Text(p) => p == ALL
      case InSet(ps) => ALL in ps
      case InList(ps) => ALL in ps || |ps| > 1
  {
    if item.wish.InList? {
      WeightsExactly(item.wish.list);
      if ALL in item.wish.list { ListWithAll(item.wish.list); }
    }
  }

  lemma {:induction false} ListWithAll(ps: seq<Property>)
    requires ALL in ps
    ensures Weights(ps) >= ALL_PROPERTIES
  {
    assert ps == ps[..|ps| - 1] + [ps[|ps| - 1]];
    if ps[|ps| - 1] != ALL { ListWithAll(ps[..|ps| - 1]); }
  }

  // The object costs no more than is accounted for one that asks for all as a text.
  predicate Modest(item: Item) {
    match item.wish
    case Text(_) => true
    case InSet(ps) => |ps| <= if ALL in ps then 1 else ALL_PROPERTIES
    case InList(ps) => Weights(ps) <= ALL_PROPERTIES
  }

  // For every object that is underrated some set has as many properties as it costs.
  ghost predicate Matched(items: seq<Item>) {
    forall i | 0 <= i < |items| && Underrated(items[i]) ::
      exists k :: 0 <= k < |items| && items[k].wish.InSet? && |items[k].wish.names| >= Cost(items[i])
  }

  ghost predicate Covered(items: seq<Item>) {
    if HasAll(items) then forall i | 0 <= i < |items| :: Modest(items[i]) else Matched(items)
  }

  lemma MatchedBounds(items: seq<Item>, i: nat)
    requires Matched(items) && i < |items|
    ensures Cost(items[i]) <= Largest(items)
  {
    LargestBounds(items, i);
    if Underrated(items[i]) {
      var k :| 0 <= k < |items| && items[k].wish.InSet? && |items[k].wish.names| >= Cost(items[i]);
      LargestBounds(items, k);
    }
  }

  lemma MatchIsNeeded(items: seq<Item>, i: nat)
    requires !HasAll(items) && i < |items| && Underrated(items[i]) && Bounded(items)
    ensures exists k :: 0 <= k < |items| && items[k].wish.InSet? && |items[k].wish.names| >= Cost(items[i])
  {
    assert Cost(items[i]) <= MaxCount(items);
    LargestIsCounted(items, Cost(items[i]));
    var k :| 0 <= k < |items| && Counted(items[k]) >= Cost(items[i]);
    assert Cost(items[i]) > 1 by { UnderratedExactly(items[i]); }
    assert items[k].wish.InSet?;
  }

  // The limit accounts for every object if and only if, with an object that asks for all
  // properties as a text, no other costs more, and, without one, every object that asks
  // for all properties or for a list of them costs no more than the largest set.
  lemma BoundedExactly(items: seq<Item>)
    ensures Bounded(items) <==> Covered(items)
  {
    if !HasAll(items) {
      if Covered(items) {
        forall i | 0 <= i < |items| ensures Cost(items[i]) <= MaxCount(items) { MatchedBounds(items, i); }
      } else {
        if Bounded(items) {
          forall i | 0 <= i < |items| && Underrated(items[i])
            ensures exists k :: 0 <= k < |items| && items[k].wish.InSet? && |items[k].wish.names| >= Cost(items[i])
          {
            MatchIsNeeded(items, i);
          }
        }
      }
    }
  }

  lemma RequestKeepsCost(item: Item, known: Item -> bool)
    ensures Cost(Requested(item, known)) == Cost(item)
    ensures Underrated(Requested(item, known)) <==> Underrated(item)
  {}

  // From the second reading on no text is left: the limit then accounts for every object
  // if and only if every object that asks for all properties, in whatever form, or for a
  // list of them costs no more than the largest set the configuration has.
  lemma LaterReadingsBoundedExactly(items: seq<Item>)
    ensures Bounded(RequestedAll(items, i => true)) <==> Matched(items)
  {
    var later := RequestedAll(items, i => true);
    BoundedExactly(later);
    forall i | 0 <= i < |items|
      ensures Cost(later[i]) == Cost(items[i]) && (Underrated(later[i]) <==> Underrated(items[i]))
    {
      RequestKeepsCost(items[i], i => true);
    }
    assert forall k | 0 <= k < |items| && items[k].wish.InSet? :: later[k] == items[k];
    forall i, k | 0 <= i < |items| && Underrated(items[i]) && 0 <= k < |items|
                  && later[k].wish.InSet? && |later[k].wish.names| >= Cost(items[i])
      ensures items[k].wish.InSet?
    {
      UnderratedExactly(items[i]);
    }
  }

  lemma {:induction false} TotalBound(items: seq<Item>, max: nat)
    requires forall i | 0 <= i < |items| :: Cost(items[i]) <= max
    ensures Total(items) <= |items| * max
  {
    if items != [] {
      TotalBound(items[..|items| - 1], max);
      assert |items| * max == (|items| - 1) * max + max;
    }
  }

  lemma SharesFit(n: nat, max: nat, budget: nat)
    requires max > 0 && n <= budget / max
    ensures n * max <= budget
  {
    assert n * max <= (budget / max) * max;
  }

  lemma SliceWithinBudget(items: seq<Item>, budget: nat, index: nat)
    requires Bounded(items) && budget >= MaxCount(items)
    ensures Total(Slice(items, index, Limit(items, budget))) <= budget
  {
    var max := MaxCount(items);
    var slice := Slice(items, index, Limit(items, budget));
    TotalBound(slice, max);
    if max > 0 { SharesFit(|slice|, max, budget); }
  }

  lemma SingleTotal(item: Item)
    ensures Total([item]) == Cost(item)
  {
    assert [item][..0] == [];
  }

  lemma MaxCountIsPositive(items: seq<Item>, i: nat)
    requires i < |items| && Cost(items[i]) > MaxCount(items)
    ensures MaxCount(items) > 0
  {
    if !HasAll(items) { LargestBounds(items, i); }
  }

  ghost predicate KeepsBudget(items: seq<Item>, budget: nat) {
    forall index: nat :: Total(Slice(items, index, Limit(items, budget))) <= budget
  }

  // Every slice keeps to every sufficient budget exactly if the limit accounts for every
  // object.
  lemma BudgetIsKeptExactly(items: seq<Item>)
    requires items != []
    ensures (forall budget: nat | budget >= MaxCount(items) :: KeepsBudget(items, budget)) <==> Bounded(items)
  {
    if Bounded(items) {
      forall budget: nat, index: nat | budget >= MaxCount(items)
        ensures Total(Slice(items, index, Limit(items, budget))) <= budget
      {
        SliceWithinBudget(items, budget, index);
      }
    } else {
      var i :| 0 <= i < |items| && Cost(items[i]) > MaxCount(items);
      MaxCountIsPositive(items, i);
      var budget := MaxCount(items);
      assert budget / budget == 1;
      assert Slice(items, i, 1) == [items[i]];
      SingleTotal(items[i]);
      assert Total(Slice(items, i, Limit(items, budget))) > budget;
      assert !KeepsBudget(items, budget);
    }
  }
}
