/** The artifact token budget (telemetry/artifact_budget.go): category limits, borrowing between
    categories, compression of tracked items. */
module Budget {
  import opened Options

  /** A tracked item and what compressing it would give. */
  datatype Item = Item(id: string, tokens: int, priority: int, compression: Compression)
  datatype Compression = Incompressible | Fails | To(item: Item)

  datatype Allocation = Allocation(max: int, used: int, reserved: bool, priority: int, items: seq<Item>)

  datatype Policy = Policy(systemReserved: int, shares: map<string, real>, allowBorrowing: bool, minimum: int)

  type Allocations = map<string, Allocation>

  // ----- sums -----

  ghost function Sum(m: map<string, int>): int {
    if m == map[] then 0
    else
      var k :| k in m;
      m[k] + Sum(m - {k})
  }

  lemma {:induction false} SumPick(m: map<string, int>, k: string)
    requires k in m
    ensures Sum(m) == m[k] + Sum(m - {k})
    decreases |m|
  {
    var p :| p in m && Sum(m) == m[p] + Sum(m - {p});
    if p != k {
      SumPick(m - {p}, k);
      SumPick(m - {k}, p);
      assert m - {p} - {k} == m - {k} - {p};
    }
  }

  lemma SumUpdate(m: map<string, int>, k: string, v: int)
    requires k in m
    ensures Sum(m[k := v]) == Sum(m) - m[k] + v
  {
    SumPick(m, k);
    SumPick(m[k := v], k);
    assert m[k := v] - {k} == m - {k};
  }

  ghost function Minus(m: map<string, int>, n: map<string, int>): map<string, int>
    requires m.Keys == n.Keys
  {
    map k | k in m :: m[k] - n[k]
  }

  lemma MinusWithout(m: map<string, int>, n: map<string, int>, k: string)
    requires m.Keys == n.Keys && k in m
    ensures k in Minus(m, n) && Minus(m, n)[k] == m[k] - n[k] && (m - {k}).Keys == (n - {k}).Keys
    ensures Minus(m, n) - {k} == Minus(m - {k}, n - {k})
  {}

  lemma {:induction false} SumMinus(m: map<string, int>, n: map<string, int>)
    requires m.Keys == n.Keys
    ensures Sum(Minus(m, n)) == Sum(m) - Sum(n)
    decreases |m|
  {
    if m != map[] {
      var k :| k in m;
      SumPick(m, k);
      SumPick(n, k);
      MinusWithout(m, n, k);
      SumPick(Minus(m, n), k);
      SumMinus(m - {k}, n - {k});
    } else {
      assert Minus(m, n) == map[] && n == map[];
    }
  }

  lemma {:induction false} SumNonNegative(m: map<string, int>)
    requires forall k :: k in m ==> 0 <= m[k]
    ensures 0 <= Sum(m)
    ensures Sum(m) == 0 ==> forall k :: k in m ==> m[k] == 0
    decreases |m|
  {
    if m != map[] {
      var k :| k in m && Sum(m) == m[k] + Sum(m - {k});
      SumNonNegative(m - {k});
      assert forall j :: j in m ==> j == k || j in m - {k};
    }
  }

  lemma SumLeq(m: map<string, int>, n: map<string, int>)
    requires m.Keys == n.Keys && forall k :: k in m ==> m[k] <= n[k]
    ensures Sum(m) <= Sum(n)
  {
    SumMinus(n, m);
    SumNonNegative(Minus(n, m));
  }

  ghost function Limits(a: Allocations): map<string, int> {
    map k | k in a :: a[k].max
  }

  /** All tokens the categories may hold together. */
  ghost function Total(a: Allocations): int {
    Sum(Limits(a))
  }

  lemma TotalTransfer(a: Allocations, donor: string, target: string, n: int)
    requires donor in a && target in a && donor != target
    ensures Total(Transferred(a, donor, target, n)) == Total(a)
  {
    var m := Limits(a);
    var d := m[donor := m[donor] - n];
    SumUpdate(m, donor, m[donor] - n);
    SumUpdate(d, target, d[target] + n);
    assert Limits(Transferred(a, donor, target, n)) == d[target := d[target] + n];
  }

  lemma TotalSameLimits(a: Allocations, b: Allocations)
    requires a.Keys == b.Keys && forall k :: k in a ==> a[k].max == b[k].max
    ensures Total(a) == Total(b)
  {
    assert Limits(a) == Limits(b);
  }

  function TokensOf(items: seq<Item>): int {
    if items == [] then 0 else items[0].tokens + TokensOf(items[1..])
  }

  lemma {:induction false} TokensConcat(a: seq<Item>, b: seq<Item>)
    ensures TokensOf(a + b) == TokensOf(a) + TokensOf(b)
    decreases |a|
  {
    if a == [] {
      assert a + b == b;
    } else {
      assert (a + b)[1..] == a[1..] + b;
      TokensConcat(a[1..], b);
    }
  }

  predicate CountsOk(i: Item) {
    0 <= i.tokens && match i.compression case To(j) => CountsOk(j) case _ => true
  }

  predicate AllCountsOk(items: seq<Item>) {
    forall i :: 0 <= i < |items| ==> CountsOk(items[i])
  }

  lemma {:induction false} TokensNonNegative(items: seq<Item>)
    requires AllCountsOk(items)
    ensures 0 <= TokensOf(items)
    decreases |items|
  {
    if items != [] { TokensNonNegative(items[1..]); }
  }

  // ----- borrowing -----

  function Transferred(a: Allocations, donor: string, target: string, n: int): Allocations
    requires donor in a && target in a
  {
    var b := a[donor := a[donor].(max := a[donor].max - n)];
    b[target := b[target].(max := b[target].max + n)]
  }

  predicate Eligible(a: Allocations, name: string, target: string) {
    name in a && name != target && !a[name].reserved
  }

  /** What a category can give away and keep the minimum free. */
  function Spare(x: Allocation, minimum: int): int {
    if x.max - x.used > minimum then x.max - x.used - minimum else 0
  }

  /** Only limits moved. */
  ghost predicate SameUse(a: Allocations, b: Allocations) {
    && a.Keys == b.Keys
    && forall k :: k in a ==> b[k] == a[k].(max := b[k].max)
  }

  /** The outcome of borrowing n tokens for a category. */
  ghost predicate Borrowed(a: Allocations, b: Allocations, target: string, n: int, minimum: int) {
    && SameUse(a, b) && target in a
    && Total(b) == Total(a)
    && a[target].max <= b[target].max <= a[target].max + n
    // only eligible categories give, and each keeps the minimum free
    && GaveAll(a, b, target, minimum)
    // short only if nothing is left to give
    && (b[target].max < a[target].max + n ==> forall k :: Eligible(a, k, target) ==> Spare(b[k], minimum) == 0)
    // higher priority first
    && forall k, h :: Eligible(a, k, target) && Eligible(a, h, target) && Outranks(a[h], a[k]) && b[k].max < a[k].max
                      ==> Spare(b[h], minimum) == 0
  }

  predicate Outranks(x: Allocation, y: Allocation) {
    x.priority > y.priority
  }

  /** Borrowing under way: `pending` donors are still to be asked, `left` tokens still wanted. */
  ghost predicate Borrowing(a: Allocations, b: Allocations, target: string, n: int, left: int, minimum: int,
                            pending: set<string>) {
    && SameUse(a, b) && target in a && Total(b) == Total(a)
    && 0 < left <= n && b[target].max == a[target].max + n - left
    && GaveAll(a, b, target, minimum)
    && (forall k :: k in pending ==> Eligible(a, k, target) && b[k] == a[k])
    && AskedAreSpent(a, b, target, minimum, pending)
    && AskedInOrder(a, b, target, pending)
  }

  ghost predicate GaveAll(a: Allocations, b: Allocations, target: string, minimum: int)
    requires a.Keys == b.Keys
  {
    forall k :: k in a && k != target ==> Gave(a[k], b[k], minimum)
  }

  ghost predicate AskedAreSpent(a: Allocations, b: Allocations, target: string, minimum: int, pending: set<string>)
    requires a.Keys == b.Keys
  {
    forall k :: Eligible(a, k, target) && k !in pending ==> Spare(b[k], minimum) == 0
  }

  ghost predicate AskedInOrder(a: Allocations, b: Allocations, target: string, pending: set<string>)
    requires a.Keys == b.Keys
  {
    forall k, h :: k in a && k != target && h in pending && h in a && b[k].max < a[k].max ==> !Outranks(a[h], a[k])
  }

  /** A category gave nothing, or was free to give and kept the minimum. */
  predicate Gave(x: Allocation, y: Allocation, minimum: int) {
    y.max == x.max || (y.max < x.max && !x.reserved && y.max - y.used >= minimum)
  }

  ghost predicate Moved(a: Allocations, b: Allocations, donor: string, target: string, n: int) {
    && donor in a && target in a && donor != target
    && a.Keys == b.Keys && Total(a) == Total(b)
    && b[donor] == a[donor].(max := a[donor].max - n)
    && b[target] == a[target].(max := a[target].max + n)
    && forall k :: k in a && k != donor && k != target ==> b[k] == a[k]
  }

  lemma TransferMoves(a: Allocations, donor: string, target: string, n: int)
    requires donor in a && target in a && donor != target
    ensures Moved(a, Transferred(a, donor, target, n), donor, target, n)
  {
    TotalTransfer(a, donor, target, n);
  }

  lemma MovedGaveAll(a: Allocations, b: Allocations, c: Allocations, target: string, minimum: int, donor: string,
                     n: int)
    requires SameUse(a, b) && Moved(b, c, donor, target, n) && GaveAll(a, b, target, minimum)
    requires b[donor] == a[donor] && !a[donor].reserved && 0 < n <= Spare(b[donor], minimum)
    ensures SameUse(a, c) && GaveAll(a, c, target, minimum)
  {}

  lemma PartTransfer(a: Allocations, b: Allocations, c: Allocations, target: string, n: int, left: int, minimum: int,
                     pending: set<string>, donor: string)
    requires Borrowing(a, b, target, n, left, minimum, pending)
    requires donor in pending && forall h :: h in pending ==> !Outranks(a[h], a[donor])
    requires 0 < Spare(b[donor], minimum) < left && Moved(b, c, donor, target, Spare(b[donor], minimum))
    ensures Borrowing(a, c, target, n, left - Spare(b[donor], minimum), minimum, pending - {donor})
  {
    MovedGaveAll(a, b, c, target, minimum, donor, Spare(b[donor], minimum));
    assert AskedAreSpent(a, c, target, minimum, pending - {donor});
    assert AskedInOrder(a, c, target, pending - {donor});
  }

  lemma LastTransfer(a: Allocations, b: Allocations, c: Allocations, target: string, n: int, left: int, minimum: int,
                     pending: set<string>, donor: string)
    requires Borrowing(a, b, target, n, left, minimum, pending)
    requires donor in pending && forall h :: h in pending ==> !Outranks(a[h], a[donor])
    requires left <= Spare(b[donor], minimum) && Moved(b, c, donor, target, left)
    ensures Borrowed(a, c, target, n, minimum)
  {
    MovedGaveAll(a, b, c, target, minimum, donor, left);
    forall k, h | Eligible(a, k, target) && Eligible(a, h, target) && Outranks(a[h], a[k]) && c[k].max < a[k].max
      ensures Spare(c[h], minimum) == 0
    {
      assert h !in pending;
    }
  }

  lemma NothingToGive(a: Allocations, b: Allocations, target: string, n: int, left: int, minimum: int,
                      pending: set<string>, donor: string)
    requires Borrowing(a, b, target, n, left, minimum, pending)
    requires donor in pending && Spare(b[donor], minimum) == 0
    ensures Borrowing(a, b, target, n, left, minimum, pending - {donor})
  {}

  lemma BorrowingStarts(a: Allocations, target: string, n: int, minimum: int)
    requires target in a && n > 0
    ensures Borrowing(a, a, target, n, n, minimum, set k | k in a && Eligible(a, k, target) && Spare(a[k], minimum) > 0)
  {}

  lemma BorrowingOver(a: Allocations, b: Allocations, target: string, n: int, left: int, minimum: int)
    requires Borrowing(a, b, target, n, left, minimum, {})
    ensures Borrowed(a, b, target, n, minimum)
  {}

  lemma HighestExists(a: Allocations, pending: set<string>)
    requires pending != {} && forall h :: h in pending ==> h in a
    ensures exists d :: d in pending && forall h :: h in pending ==> !Outranks(a[h], a[d])
    decreases |pending|
  {
    var x :| x in pending;
    if pending != {x} {
      HighestExists(a, pending - {x});
      var d :| d in pending - {x} && forall h :: h in pending - {x} ==> !Outranks(a[h], a[d]);
      var best := if Outranks(a[x], a[d]) then x else d;
      assert forall h :: h in pending ==> h == x || h in pending - {x};
      assert best in pending && forall h :: h in pending ==> !Outranks(a[h], a[best]);
    }
  }

  /** What each category could lend to the target, before anything moves. */
  ghost function Spares(a: Allocations, target: string, minimum: int): map<string, int> {
    map k | k in a :: if Eligible(a, k, target) then Spare(a[k], minimum) else 0
  }

  ghost function SpareTotal(a: Allocations, target: string, minimum: int): int {
    Sum(Spares(a, target, minimum))
  }

  /** What each category but the target gave. */
  ghost function Given(a: Allocations, b: Allocations, target: string): map<string, int>
    requires a.Keys == b.Keys
  {
    map k | k in a :: if k == target then 0 else a[k].max - b[k].max
  }

  lemma GivenIsLent(a: Allocations, b: Allocations, target: string)
    requires a.Keys == b.Keys && target in a && Total(a) == Total(b)
    ensures Sum(Given(a, b, target)) == b[target].max - a[target].max
  {
    var d := Minus(Limits(a), Limits(b));
    SumMinus(Limits(a), Limits(b));
    SumUpdate(d, target, 0);
    assert d[target := 0] == Given(a, b, target);
  }

  lemma GivenWithinSpare(a: Allocations, b: Allocations, target: string, n: int, minimum: int, k: string)
    requires Borrowed(a, b, target, n, minimum) && k in a
    ensures 0 <= Given(a, b, target)[k] <= Spares(a, target, minimum)[k]
    ensures b[target].max < a[target].max + n ==> Given(a, b, target)[k] == Spares(a, target, minimum)[k]
  {
    if k != target { assert Gave(a[k], b[k], minimum); }
  }

  /** Borrowing in plain numbers: who gives is not reserved and keeps the minimum free; if less is
      found than asked for, no unreserved category has more than the minimum free; and one of
      higher priority is asked dry before one of lower priority gives. */
  ghost predicate BorrowedInNumbers(a: Allocations, b: Allocations, target: string, n: int, minimum: int)
    requires a.Keys == b.Keys && target in a
  {
    && a[target].max <= b[target].max <= a[target].max + n
    && (forall k :: k in a ==> b[k].used == a[k].used && b[k].items == a[k].items)
    && (forall k :: k in a && k != target && b[k].max != a[k].max ==>
          b[k].max < a[k].max && !a[k].reserved && b[k].max - b[k].used >= minimum)
    && (b[target].max < a[target].max + n ==>
          forall k :: k in a && k != target && !a[k].reserved ==> b[k].max - b[k].used <= minimum)
    && forall k, h :: k in a && h in a && k != target && h != target && !a[h].reserved ==>
         (a[h].priority > a[k].priority && b[k].max < a[k].max ==> b[h].max - b[h].used <= minimum)
  }

  lemma BorrowedMeans(a: Allocations, b: Allocations, target: string, n: int, minimum: int)
    requires Borrowed(a, b, target, n, minimum)
    ensures BorrowedInNumbers(a, b, target, n, minimum)
  {
    forall k | k in a && k != target && b[k].max != a[k].max
      ensures b[k].max < a[k].max && !a[k].reserved && b[k].max - b[k].used >= minimum
    {
      assert Gave(a[k], b[k], minimum);
    }
    if b[target].max < a[target].max + n {
      forall k | k in a && k != target && !a[k].reserved ensures b[k].max - b[k].used <= minimum {
        assert Eligible(a, k, target) && Spare(b[k], minimum) == 0;
      }
    }
    forall k, h | k in a && h in a && k != target && h != target && !a[h].reserved
                  && a[h].priority > a[k].priority && b[k].max < a[k].max
      ensures b[h].max - b[h].used <= minimum
    {
      assert Gave(a[k], b[k], minimum);
      assert Eligible(a, k, target) && Eligible(a, h, target) && Outranks(a[h], a[k]) && Spare(b[h], minimum) == 0;
    }
  }

  /** The amount borrowed is known beforehand: what is asked for, or all that is to spare. */
  lemma BorrowedExactly(a: Allocations, b: Allocations, target: string, n: int, minimum: int)
    requires Borrowed(a, b, target, n, minimum)
    ensures var total := SpareTotal(a, target, minimum);
            b[target].max - a[target].max == if n <= total then n else total
    ensures b[target].max == a[target].max ==> b == a
  {
    var given, spare := Given(a, b, target), Spares(a, target, minimum);
    GivenIsLent(a, b, target);
    forall k | k in a
      ensures 0 <= given[k] <= spare[k] && (b[target].max < a[target].max + n ==> given[k] == spare[k])
    {
      GivenWithinSpare(a, b, target, n, minimum, k);
    }
    SumLeq(given, spare);
    if b[target].max < a[target].max + n { assert given == spare; }
    SumNonNegative(given);
    if b[target].max == a[target].max {
      forall k | k in a ensures b[k] == a[k] { assert given[k] == 0; }
    }
  }

  // ----- compression -----

  /** Stable insertion of an item before the first one of lower priority. */
  function Insert(items: seq<Item>, x: Item): (r: seq<Item>)
    ensures |r| == |items| + 1
  {
    if items == [] then [x]
    else if items[|items| - 1].priority < x.priority then Insert(items[..|items| - 1], x) + [items[|items| - 1]]
    else items + [x]
  }

  /** `sort.SliceStable` by descending priority. */
  function ByPriority(items: seq<Item>): (r: seq<Item>)
    ensures |r| == |items|
  {
    if items == [] then [] else Insert(ByPriority(items[..|items| - 1]), items[|items| - 1])
  }

  predicate Descending(items: seq<Item>) {
    forall i, j :: 0 <= i < j < |items| ==> items[i].priority >= items[j].priority
  }

  lemma {:induction false} InsertMembers(items: seq<Item>, x: Item)
    ensures multiset(Insert(items, x)) == multiset(items) + multiset{x}
    decreases |items|
  {
    if items != [] {
      var front, last := items[..|items| - 1], items[|items| - 1];
      assert items == front + [last];
      InsertMembers(front, x);
    }
  }

  lemma {:induction false} InsertTokens(items: seq<Item>, x: Item)
    ensures TokensOf(Insert(items, x)) == TokensOf(items) + x.tokens
    decreases |items|
  {
    if items != [] {
      var front, last := items[..|items| - 1], items[|items| - 1];
      assert items == front + [last];
      TokensConcat(front, [last]);
      TokensConcat(items, [x]);
      InsertTokens(front, x);
      TokensConcat(Insert(front, x), [last]);
    }
  }

  lemma {:induction false} InsertDescending(items: seq<Item>, x: Item)
    requires Descending(items)
    ensures Descending(Insert(items, x))
    decreases |items|
  {
    if items != [] {
      var front, last := items[..|items| - 1], items[|items| - 1];
      if last.priority < x.priority {
        InsertDescending(front, x);
        var r := Insert(front, x);
        forall i | 0 <= i < |r| ensures r[i].priority >= last.priority {
          InsertMembers(front, x);
          assert r[i] in multiset(r);
          assert r[i] == x || r[i] in front;
        }
      } else {
        assert forall i :: 0 <= i < |items| ==> items[i].priority >= last.priority;
      }
    }
  }

  /** The items of one priority, in order. */
  ghost function OfPriority(items: seq<Item>, p: int): seq<Item> {
    if items == [] then []
    else OfPriority(items[..|items| - 1], p) + (if items[|items| - 1].priority == p then [items[|items| - 1]] else [])
  }

  lemma {:induction false} InsertStable(items: seq<Item>, x: Item, p: int)
    ensures OfPriority(Insert(items, x), p) == OfPriority(items + [x], p)
    decreases |items|
  {
    assert (items + [x])[..|items|] == items;
    if items != [] && items[|items| - 1].priority < x.priority {
      var front, last := items[..|items| - 1], items[|items| - 1];
      InsertStable(front, x, p);
      assert (front + [x])[..|front|] == front;
      assert Insert(items, x)[..|Insert(items, x)| - 1] == Insert(front, x);
    }
  }

  /** Items of equal priority keep their order. */
  lemma {:induction false} SortStable(items: seq<Item>, p: int)
    ensures OfPriority(ByPriority(items), p) == OfPriority(items, p)
    decreases |items|
  {
    if items != [] {
      var front, last := items[..|items| - 1], items[|items| - 1];
      SortStable(front, p);
      InsertStable(ByPriority(front), last, p);
      assert (ByPriority(front) + [last])[..|ByPriority(front)|] == ByPriority(front);
    }
  }

  lemma {:induction false} SortKeeps(items: seq<Item>)
    ensures Descending(ByPriority(items)) && multiset(ByPriority(items)) == multiset(items)
    ensures TokensOf(ByPriority(items)) == TokensOf(items)
    decreases |items|
  {
    if items != [] {
      var front, last := items[..|items| - 1], items[|items| - 1];
      assert items == front + [last];
      TokensConcat(front, [last]);
      SortKeeps(front);
      InsertMembers(ByPriority(front), last);
      InsertTokens(ByPriority(front), last);
      InsertDescending(ByPriority(front), last);
    }
  }

  lemma SortKeepsCounts(items: seq<Item>)
    requires AllCountsOk(items)
    ensures AllCountsOk(ByPriority(items))
  {
    SortKeeps(items);
    var sorted := ByPriority(items);
    forall i | 0 <= i < |sorted| ensures CountsOk(sorted[i]) {
      assert sorted[i] in multiset(sorted);
      assert sorted[i] in items;
    }
  }

  function Shrunk(i: Item): Item {
    if i.compression.To? then i.compression.item else i
  }

  function AllShrunk(items: seq<Item>): (r: seq<Item>)
    ensures |r| == |items| && forall i :: 0 <= i < |items| ==> r[i] == Shrunk(items[i])
  {
    seq(|items|, i requires 0 <= i < |items| => Shrunk(items[i]))
  }

  /** The pass over the sorted items ends after the first k: where it has saved enough, or at the end. */
  ghost predicate StopsAt(sorted: seq<Item>, k: nat, target: int) {
    && k <= |sorted|
    && (k < |sorted| ==> Saved(sorted, k) >= target)
    && forall j :: 0 <= j < k ==> Saved(sorted, j) < target
  }

  function Saved(sorted: seq<Item>, k: nat): int
    requires k <= |sorted|
  {
    TokensOf(sorted[..k]) - TokensOf(AllShrunk(sorted[..k]))
  }

  function Clamp(x: int): int {
    if x < 0 then 0 else x
  }

  function Compressed(a: Allocation, k: nat): Allocation
    requires k <= |a.items|
  {
    var sorted := ByPriority(a.items);
    if Saved(sorted, k) > 0 then
      a.(items := AllShrunk(sorted[..k]), used := Clamp(a.used - Saved(sorted, k)))
    else a.(items := sorted)
  }

  /** What a compression does to the items, one by one: the pass goes by descending priority, and
      every item it visits that can be compressed is replaced by its compressed form. */
  lemma CompressedItems(a: Allocation, k: nat)
    requires k <= |a.items|
    ensures var sorted, b := ByPriority(a.items), Compressed(a, k);
            && (forall i, j :: 0 <= i < j < |sorted| ==> sorted[i].priority >= sorted[j].priority)
            && multiset(sorted) == multiset(a.items)
            && (b.items != sorted ==>
                  |b.items| == k &&
                  forall i :: 0 <= i < k ==>
                    b.items[i] == if sorted[i].compression.To? then sorted[i].compression.item else sorted[i])
  {
    SortKeeps(a.items);
  }

  /** The exact books of a compression: whatever the pass did not visit is dropped from the
      tracked items but stays charged, token for token. */
  lemma CompressionBooks(a: Allocation, k: nat)
    requires k <= |a.items|
    requires Saved(ByPriority(a.items), k) > 0 && Saved(ByPriority(a.items), k) <= a.used
    ensures var b, dropped := Compressed(a, k), ByPriority(a.items)[k..];
            b.used - TokensOf(b.items) == a.used - TokensOf(a.items) + TokensOf(dropped)
  {
    var sorted := ByPriority(a.items);
    SortKeeps(a.items);
    assert sorted == sorted[..k] + sorted[k..];
    TokensConcat(sorted[..k], sorted[k..]);
  }

  /** The charge never falls below the tracked items. */
  predicate Covered(a: Allocation) {
    AllCountsOk(a.items) && TokensOf(a.items) <= a.used
  }

  lemma CompressionKeepsCover(a: Allocation, k: nat)
    requires k <= |a.items| && Covered(a)
    ensures Covered(Compressed(a, k))
  {
    SavedIsBounded(a.items, k);
  }

  /** Compression saves no more than the visited items held; the others stay non-negative. */
  lemma SavedIsBounded(items: seq<Item>, k: nat)
    requires k <= |items| && AllCountsOk(items)
    ensures var sorted := ByPriority(items); var shrunk := AllShrunk(sorted[..k]);
            && AllCountsOk(sorted) && AllCountsOk(shrunk)
            && TokensOf(sorted) == TokensOf(items)
            && 0 <= TokensOf(shrunk) <= TokensOf(items) - Saved(sorted, k)
  {
    SortKeeps(items);
    SortKeepsCounts(items);
    PartBounds(ByPriority(items), k);
  }

  lemma PartBounds(sorted: seq<Item>, k: nat)
    requires k <= |sorted| && AllCountsOk(sorted)
    ensures AllCountsOk(AllShrunk(sorted[..k])) && 0 <= TokensOf(AllShrunk(sorted[..k]))
    ensures TokensOf(sorted[..k]) <= TokensOf(sorted)
  {
    PartCounts(sorted, k);
    TokensNonNegative(AllShrunk(sorted[..k]));
    TokensOfPart(sorted, k);
  }

  lemma TokensOfPart(sorted: seq<Item>, k: nat)
    requires k <= |sorted| && AllCountsOk(sorted[k..])
    ensures TokensOf(sorted[..k]) <= TokensOf(sorted)
  {
    assert sorted == sorted[..k] + sorted[k..];
    TokensConcat(sorted[..k], sorted[k..]);
    TokensNonNegative(sorted[k..]);
  }

  lemma PartCounts(sorted: seq<Item>, k: nat)
    requires k <= |sorted| && AllCountsOk(sorted)
    ensures AllCountsOk(sorted[k..]) && AllCountsOk(AllShrunk(sorted[..k]))
  {
    forall i | 0 <= i < k ensures CountsOk(AllShrunk(sorted[..k])[i]) {
      assert AllShrunk(sorted[..k])[i] == Shrunk(sorted[i]) && CountsOk(sorted[i]);
    }
  }

  lemma SavedStep(sorted: seq<Item>, k: nat)
    requires k < |sorted|
    ensures AllShrunk(sorted[..k + 1]) == AllShrunk(sorted[..k]) + [Shrunk(sorted[k])]
    ensures Saved(sorted, k + 1) == Saved(sorted, k) + sorted[k].tokens - Shrunk(sorted[k]).tokens
  {
    assert sorted[..k + 1] == sorted[..k] + [sorted[k]];
    TokensConcat(sorted[..k], [sorted[k]]);
    TokensConcat(AllShrunk(sorted[..k]), [Shrunk(sorted[k])]);
    assert AllShrunk(sorted[..k + 1]) == AllShrunk(sorted[..k]) + [Shrunk(sorted[k])];
  }

  // ----- making room -----

  predicate Fits(x: Allocation, tokens: int) {
    x.used + tokens <= x.max
  }

  ghost predicate AfterBorrowing(a: Allocations, b: Allocations, category: string, shortfall: int, policy: Policy) {
    if policy.allowBorrowing then Borrowed(a, b, category, shortfall, policy.minimum) else b == a
  }

  ghost predicate AfterCompression(b: Allocations, c: Allocations, category: string, shortfall: int, k: nat, ok: bool) {
    && category in b
    && StopsAt(ByPriority(b[category].items), k, shortfall)
    && c == b[category := Compressed(b[category], k)]
    && ok == (Saved(ByPriority(b[category].items), k) >= shortfall)
  }

  /** Room for tokens: enough at once, or by borrowing the shortfall, or else by also
      compressing away the whole original shortfall. */
  ghost predicate MadeRoom(a: Allocations, c: Allocations, category: string, tokens: int, policy: Policy, ok: bool) {
    && category in a
    && if Fits(a[category], tokens) then ok && c == a
       else
         exists b: Allocations :: RoomVia(a, b, c, category, tokens, policy, ok)
  }

  /** b is the state after borrowing, and compression has followed if that was not enough. */
  ghost predicate RoomVia(a: Allocations, b: Allocations, c: Allocations, category: string, tokens: int, policy: Policy,
                          ok: bool)
    requires category in a
  {
    var shortfall := Shortfall(a[category], tokens);
    && AfterBorrowing(a, b, category, shortfall, policy) && category in b
    && if Fits(b[category], tokens) then ok && c == b else Squeezed(b, c, category, tokens, shortfall, ok)
  }

  function Shortfall(x: Allocation, tokens: int): int {
    x.used + tokens - x.max
  }

  ghost predicate Squeezed(b: Allocations, c: Allocations, category: string, tokens: int, shortfall: int, ok: bool) {
    exists k, enough ::
      AfterCompression(b, c, category, shortfall, k, enough) && ok == (enough && Fits(c[category], tokens))
  }

  predicate Sane(policy: Policy) {
    policy.minimum >= 0 && policy.systemReserved >= 0
  }

  ghost predicate Sound(a: Allocations) {
    forall k :: k in a ==> 0 <= a[k].used <= a[k].max && AllCountsOk(a[k].items)
  }

  ghost predicate AllCovered(a: Allocations) {
    forall k :: k in a ==> Covered(a[k])
  }

  lemma BorrowedKeeps(a: Allocations, b: Allocations, target: string, n: int, minimum: int)
    requires Borrowed(a, b, target, n, minimum)
    ensures Total(b) == Total(a)
    ensures minimum >= 0 && Sound(a) ==> Sound(b)
    ensures AllCovered(a) ==> AllCovered(b)
  {
    assert forall k :: k in b ==> b[k].items == a[k].items && b[k].used == a[k].used;
  }

  lemma CompressedKeeps(x: Allocation, k: nat)
    requires k <= |x.items|
    ensures Compressed(x, k).max == x.max
    ensures 0 <= x.used <= x.max && AllCountsOk(x.items) ==>
              0 <= Compressed(x, k).used <= x.max && AllCountsOk(Compressed(x, k).items)
  {
    if AllCountsOk(x.items) { SortKeepsCounts(x.items); }
  }

  lemma CompressionKeeps(b: Allocations, c: Allocations, category: string, shortfall: int, k: nat, enough: bool)
    requires AfterCompression(b, c, category, shortfall, k, enough)
    ensures Total(c) == Total(b)
    ensures Sound(b) ==> Sound(c)
    ensures AllCovered(b) ==> AllCovered(c)
  {
    CompressedKeeps(b[category], k);
    TotalSameLimits(b, c);
    if AllCovered(b) { CompressionKeepsCover(b[category], k); }
  }

  lemma SqueezeKeeps(b: Allocations, c: Allocations, category: string, tokens: int, shortfall: int, ok: bool)
    requires category in b && Squeezed(b, c, category, tokens, shortfall, ok)
    ensures c.Keys == b.Keys && Total(c) == Total(b)
    ensures Sound(b) ==> Sound(c)
    ensures AllCovered(b) ==> AllCovered(c)
    ensures ok ==> Fits(c[category], tokens)
  {
    var k, enough :|
      AfterCompression(b, c, category, shortfall, k, enough) && ok == (enough && Fits(c[category], tokens));
    CompressionKeeps(b, c, category, shortfall, k, enough);
  }

  lemma BorrowingKeeps(a: Allocations, b: Allocations, category: string, shortfall: int, policy: Policy)
    requires AfterBorrowing(a, b, category, shortfall, policy)
    ensures b.Keys == a.Keys && Total(b) == Total(a)
    ensures Sane(policy) && Sound(a) ==> Sound(b)
    ensures AllCovered(a) ==> AllCovered(b)
    ensures category in a ==> b[category] == a[category].(max := b[category].max)
  {
    if policy.allowBorrowing { BorrowedKeeps(a, b, category, shortfall, policy.minimum); }
  }

  /** Making room, whether or not it succeeds, conserves the total, keeps every category
      within its limit and never lets a charge fall below its tracked items. */
  lemma MadeRoomKeeps(a: Allocations, c: Allocations, category: string, tokens: int, policy: Policy, ok: bool)
    requires MadeRoom(a, c, category, tokens, policy, ok)
    ensures c.Keys == a.Keys && Total(c) == Total(a)
    ensures Sane(policy) && Sound(a) ==> Sound(c)
    ensures AllCovered(a) ==> AllCovered(c)
    ensures ok ==> Fits(c[category], tokens)
  {
    if !Fits(a[category], tokens) {
      var shortfall := Shortfall(a[category], tokens);
      var b: Allocations :| RoomVia(a, b, c, category, tokens, policy, ok);
      BorrowingKeeps(a, b, category, shortfall, policy);
      if !Fits(b[category], tokens) { SqueezeKeeps(b, c, category, tokens, shortfall, ok); }
    }
  }

  /** What will be borrowed for a shortfall, by the state before. */
  ghost function Lent(a: Allocations, category: string, shortfall: int, policy: Policy): int {
    var total := SpareTotal(a, category, policy.minimum);
    if !policy.allowBorrowing then 0 else if shortfall <= total then shortfall else total
  }

  /** Some first part of the items in priority order compresses by the whole amount. */
  ghost predicate CanSave(items: seq<Item>, amount: int) {
    exists k :: 0 <= k <= |items| && Saved(ByPriority(items), k) >= amount
  }

  /** Where the pass over the sorted items stops, from the k-th on. */
  function StopFrom(sorted: seq<Item>, target: int, k: nat): (r: nat)
    requires k <= |sorted|
    ensures k <= r <= |sorted|
    decreases |sorted| - k
  {
    if k == |sorted| || Saved(sorted, k) >= target then k else StopFrom(sorted, target, k + 1)
  }

  function Stop(items: seq<Item>, target: int): (r: nat)
    ensures r <= |items|
  {
    StopFrom(ByPriority(items), target, 0)
  }

  lemma {:induction false} StopIsWhereItStops(sorted: seq<Item>, target: int, j: nat, k: nat)
    requires StopsAt(sorted, k, target) && j <= k
    ensures StopFrom(sorted, target, j) == k
    decreases k - j
  {
    if j < k { StopIsWhereItStops(sorted, target, j + 1, k); }
  }

  /** What the pass saves before it stops. */
  function SavedAtStop(items: seq<Item>, target: int): int {
    Saved(ByPriority(items), Stop(items, target))
  }

  /** The charge after a pass that saved so much. */
  function ChargeAfter(used: int, saved: int): int {
    if saved > 0 then Clamp(used - saved) else used
  }

  /** Room can be made by also compressing the whole original shortfall away: the pass saves it,
      and the charge, clamped if it was below its items, leaves room within the raised limit. */
  ghost predicate Compressible(x: Allocation, tokens: int, shortfall: int, lent: int) {
    && SavedAtStop(x.items, shortfall) >= shortfall
    && ChargeAfter(x.used, SavedAtStop(x.items, shortfall)) + tokens <= x.max + lent
  }

  lemma LentExactly(a: Allocations, b: Allocations, category: string, shortfall: int, policy: Policy)
    requires AfterBorrowing(a, b, category, shortfall, policy) && category in a && shortfall > 0
    ensures b.Keys == a.Keys
    ensures b[category] == a[category].(max := a[category].max + Lent(a, category, shortfall, policy))
    ensures Lent(a, category, shortfall, policy) == 0 ==> b == a
  {
    if policy.allowBorrowing { BorrowedExactly(a, b, category, shortfall, policy.minimum); }
  }

  lemma SqueezeExactly(b: Allocations, c: Allocations, category: string, tokens: int, shortfall: int, ok: bool)
    requires category in b && Squeezed(b, c, category, tokens, shortfall, ok)
    ensures c == b[category := Compressed(b[category], Stop(b[category].items, shortfall))]
    ensures ok <==> SavedAtStop(b[category].items, shortfall) >= shortfall && Fits(c[category], tokens)
  {
    var k, enough :|
      AfterCompression(b, c, category, shortfall, k, enough) && ok == (enough && Fits(c[category], tokens));
    StopIsWhereItStops(ByPriority(b[category].items), shortfall, 0, k);
  }

  lemma CompressedCharge(x: Allocation, k: nat)
    requires k <= |x.items|
    ensures var y, saved := Compressed(x, k), Saved(ByPriority(x.items), k);
            && y.max == x.max && y.used == ChargeAfter(x.used, saved)
            && |y.items| == if saved > 0 then k else |x.items|
  {}

  /** The whole outcome of making room where there is none, by the state before; b is the state
      after borrowing. */
  ghost predicate Resolved(a: Allocations, b: Allocations, c: Allocations, category: string, tokens: int, lent: int,
                           ok: bool)
    requires category in a
  {
    var x, shortfall := a[category], Shortfall(a[category], tokens);
    && b.Keys == a.Keys && b[category] == x.(max := x.max + lent) && (lent == 0 ==> b == a)
    && if lent >= shortfall then ok && c == b
       else
         && c == b[category := Compressed(b[category], Stop(x.items, shortfall))]
         && (ok <==> Compressible(x, tokens, shortfall, lent))
  }

  lemma Outcome(a: Allocations, c: Allocations, category: string, tokens: int, policy: Policy, ok: bool)
    returns (b: Allocations)
    requires MadeRoom(a, c, category, tokens, policy, ok) && !Fits(a[category], tokens)
    ensures Resolved(a, b, c, category, tokens, Lent(a, category, Shortfall(a[category], tokens), policy), ok)
  {
    b :| RoomVia(a, b, c, category, tokens, policy, ok);
    ViaResolved(a, b, c, category, tokens, policy, ok);
  }

  lemma ViaResolved(a: Allocations, b: Allocations, c: Allocations, category: string, tokens: int, policy: Policy,
                    ok: bool)
    requires category in a && !Fits(a[category], tokens) && RoomVia(a, b, c, category, tokens, policy, ok)
    ensures Resolved(a, b, c, category, tokens, Lent(a, category, Shortfall(a[category], tokens), policy), ok)
  {
    var x, shortfall := a[category], Shortfall(a[category], tokens);
    var lent := Lent(a, category, shortfall, policy);
    LentExactly(a, b, category, shortfall, policy);
    if lent < shortfall { SqueezeOutcome(x, b, c, category, tokens, shortfall, lent, ok); }
  }

  lemma SqueezeOutcome(x: Allocation, b: Allocations, c: Allocations, category: string, tokens: int, shortfall: int,
                       lent: int, ok: bool)
    requires category in b && b[category] == x.(max := x.max + lent) && Squeezed(b, c, category, tokens, shortfall, ok)
    ensures c == b[category := Compressed(b[category], Stop(x.items, shortfall))]
    ensures ok <==> Compressible(x, tokens, shortfall, lent)
  {
    SqueezeExactly(b, c, category, tokens, shortfall, ok);
    CompressedCharge(b[category], Stop(x.items, shortfall));
  }

  /** Exactly when room is made, by the state before and for every state: at once, if others have
      the shortfall to spare and borrowing is allowed, or if compression makes it. */
  lemma RoomExactly(a: Allocations, c: Allocations, category: string, tokens: int, policy: Policy, ok: bool)
    requires MadeRoom(a, c, category, tokens, policy, ok)
    ensures var shortfall := Shortfall(a[category], tokens);
            ok <==> || Fits(a[category], tokens)
                    || (policy.allowBorrowing && SpareTotal(a, category, policy.minimum) >= shortfall)
                    || Compressible(a[category], tokens, shortfall, Lent(a, category, shortfall, policy))
  {
    if !Fits(a[category], tokens) {
      var b := Outcome(a, c, category, tokens, policy, ok);
      var shortfall := Shortfall(a[category], tokens);
      if Lent(a, category, shortfall, policy) >= shortfall { assert policy.allowBorrowing; }
    }
  }

  /** For a charge that covers its items the clamp never bites, and compression makes room exactly
      if some first part of the items compresses by the whole shortfall. */
  lemma CoveredIsCompressible(x: Allocation, tokens: int, lent: int)
    requires Covered(x) && 0 < Shortfall(x, tokens) && 0 <= lent
    ensures Compressible(x, tokens, Shortfall(x, tokens), lent) <==> CanSave(x.items, Shortfall(x, tokens))
  {
    var shortfall, sorted := Shortfall(x, tokens), ByPriority(x.items);
    SavedIsBounded(x.items, Stop(x.items, shortfall));
    if k :| 0 <= k <= |x.items| && Saved(sorted, k) >= shortfall { StopSaves(sorted, shortfall, 0, k); }
  }

  lemma {:induction false} StopSaves(sorted: seq<Item>, target: int, j: nat, k: nat)
    requires j <= k <= |sorted| && Saved(sorted, k) >= target
    ensures Saved(sorted, StopFrom(sorted, target, j)) >= target
    decreases k - j
  {
    if j < k && Saved(sorted, j) < target { StopSaves(sorted, target, j + 1, k); }
  }

  /** Exactly when a request is refused although the call has just made room for it, by the state
      before and for every state: neither borrowing nor compression covers the shortfall, and the
      charge after compression fits the limit after borrowing. */
  lemma RefusedThoughItFitsExactly(a: Allocations, c: Allocations, category: string, tokens: int, policy: Policy,
                                   ok: bool)
    requires MadeRoom(a, c, category, tokens, policy, ok) && !Fits(a[category], tokens)
    ensures var x, shortfall := a[category], Shortfall(a[category], tokens);
            var lent, saved := Lent(a, category, shortfall, policy), SavedAtStop(x.items, shortfall);
            !ok && Fits(c[category], tokens) <==>
            lent < shortfall && saved < shortfall && ChargeAfter(x.used, saved) + tokens <= x.max + lent
  {
    var b := Outcome(a, c, category, tokens, policy, ok);
    CompressedCharge(b[category], Stop(a[category].items, Shortfall(a[category], tokens)));
  }

  function Log(tokens: int, compression: Compression): Item {
    Item("log", tokens, 0, compression)
  }

  /** Two categories: one full of a compressible log, one empty with two tokens free. */
  function TwoCategories(limit: int, used: int, logs: seq<Item>, free: int): Allocations {
    map["logs" := Allocation(limit, used, false, 2, logs), "code" := Allocation(free, 0, false, 1, [])]
  }

  lemma TwoAreLent(logs: seq<Item>)
    ensures Borrowed(TwoCategories(10, 10, logs, 2), TwoCategories(12, 10, logs, 0), "logs", 5, 0)
  {
    var a := TwoCategories(10, 10, logs, 2);
    TransferMoves(a, "code", "logs", 2);
    assert Transferred(a, "code", "logs", 2) == TwoCategories(12, 10, logs, 0);
  }

  lemma ThreeAreSaved()
    ensures var big, small := Log(10, To(Log(7, Incompressible))), Log(7, Incompressible);
            Squeezed(TwoCategories(12, 10, [big], 0), TwoCategories(12, 7, [small], 0), "logs", 5, 5, false)
  {
    var big, small := Log(10, To(Log(7, Incompressible))), Log(7, Incompressible);
    var b, c := TwoCategories(12, 10, [big], 0), TwoCategories(12, 7, [small], 0);
    assert [big][..0] == [] && ByPriority([big]) == [big];
    SavedStep([big], 0);
    assert AllShrunk([big][..1]) == [small];
    assert c == b["logs" := Compressed(b["logs"], 1)];
    assert AfterCompression(b, c, "logs", 5, 1, false);
  }

  /** Neither borrowing (2) nor compression (3) alone finds the 5 tokens missing. Together they
      do, and the request is still refused. */
  lemma RefusedThoughItFits()
    ensures var big, small := Log(10, To(Log(7, Incompressible))), Log(7, Incompressible);
            var a, c := TwoCategories(10, 10, [big], 2), TwoCategories(12, 7, [small], 0);
            AllCovered(a) && MadeRoom(a, c, "logs", 5, Policy(0, map[], true, 0), false) && Fits(c["logs"], 5)
  {
    var big := Log(10, To(Log(7, Incompressible)));
    assert TokensOf([big]) == 10 && CountsOk(big);
    assert Covered(Allocation(10, 10, false, 2, [big]));
    TwoAreLent([big]);
    ThreeAreSaved();
    var a, b := TwoCategories(10, 10, [big], 2), TwoCategories(12, 10, [big], 0);
    var c := TwoCategories(12, 7, [Log(7, Incompressible)], 0);
    assert RoomVia(a, b, c, "logs", 5, Policy(0, map[], true, 0), false);
  }

  /** A charge of 2 below its item of 100 tokens: the pass saves 99 of the 12 missing, and the
      request is refused, as the charge cannot fall below zero. */
  lemma UncoveredIsRefused()
    ensures var big, small := Log(100, To(Log(1, Incompressible))), Log(1, Incompressible);
            var a, c := TwoCategories(10, 2, [big], 0), TwoCategories(10, 0, [small], 0);
            MadeRoom(a, c, "logs", 20, Policy(0, map[], false, 0), false) && CanSave([big], 12)
  {
    var big, small := Log(100, To(Log(1, Incompressible))), Log(1, Incompressible);
    var a, c := TwoCategories(10, 2, [big], 0), TwoCategories(10, 0, [small], 0);
    assert [big][..0] == [] && ByPriority([big]) == [big];
    SavedStep([big], 0);
    assert AllShrunk([big][..1]) == [small];
    assert c == a["logs" := Compressed(a["logs"], 1)];
    assert Saved(ByPriority([big]), 1) == 99;
    assert AfterCompression(a, c, "logs", 12, 1, true);
    assert Squeezed(a, c, "logs", 20, 12, false);
    assert RoomVia(a, a, c, "logs", 20, Policy(0, map[], false, 0), false);
  }

  // ----- freeing -----

  function Without(items: seq<Item>, id: string): seq<Item> {
    if items == [] then []
    else Without(items[..|items| - 1], id) + (if items[|items| - 1].id == id then [] else [items[|items| - 1]])
  }

  lemma WithoutStep(items: seq<Item>, i: nat, id: string)
    requires i < |items|
    ensures TokensOf(items[..i + 1]) == TokensOf(items[..i]) + items[i].tokens
    ensures Without(items[..i + 1], id) == Without(items[..i], id) + (if items[i].id == id then [] else [items[i]])
    ensures TokensOf(Without(items[..i], id) + [items[i]]) == TokensOf(Without(items[..i], id)) + items[i].tokens
  {
    assert items[..i + 1] == items[..i] + [items[i]];
    assert items[..i + 1][..i] == items[..i];
    TokensConcat(items[..i], [items[i]]);
    TokensConcat(Without(items[..i], id), [items[i]]);
  }

  /** Every item of that id goes, every other stays. */
  lemma {:induction false} WithoutExactly(items: seq<Item>, id: string, x: Item)
    ensures multiset(Without(items, id))[x] == if x.id == id then 0 else multiset(items)[x]
    decreases |items|
  {
    if items != [] {
      assert items == items[..|items| - 1] + [items[|items| - 1]];
      WithoutExactly(items[..|items| - 1], id, x);
    }
  }

  lemma {:induction false} WithoutCounts(items: seq<Item>, id: string)
    requires AllCountsOk(items)
    ensures AllCountsOk(Without(items, id)) && TokensOf(Without(items, id)) <= TokensOf(items)
    decreases |items|
  {
    if items != [] {
      var front, last := items[..|items| - 1], items[|items| - 1];
      assert items == front + [last];
      WithoutCounts(front, id);
      assert Without(front, id) + [] == Without(front, id);
      TokensConcat(front, [last]);
      TokensConcat(Without(front, id), [last]);
    }
  }

  function Freed(x: Allocation, tokens: int, id: string): Allocation {
    if id != "" then
      x.(items := Without(x.items, id), used := Clamp(x.used - (TokensOf(x.items) - TokensOf(Without(x.items, id)))))
    else x.(used := Clamp(if tokens > 0 then x.used - tokens else x.used))
  }

  lemma FreedKeeps(x: Allocation, tokens: int, id: string)
    ensures Freed(x, tokens, id).max == x.max
    ensures 0 <= x.used <= x.max && AllCountsOk(x.items) ==>
              0 <= Freed(x, tokens, id).used <= x.max && AllCountsOk(Freed(x, tokens, id).items)
  {
    if AllCountsOk(x.items) { WithoutCounts(x.items, id); }
  }

  /** A charge that covers its items still does after a free, exactly unless raw tokens are
      freed beyond what the items leave uncovered. */
  lemma FreedCovers(x: Allocation, tokens: int, id: string)
    requires Covered(x)
    ensures Covered(Freed(x, tokens, id)) <==>
            id != "" || TokensOf(x.items) == 0 || tokens <= x.used - TokensOf(x.items)
  {
    WithoutCounts(x.items, id);
    TokensNonNegative(x.items);
    TokensNonNegative(Without(x.items, id));
  }

  /** Freeing an item by its id undoes charging it, if no tracked item had that id. */
  lemma FreeUndoesCharge(x: Allocation, i: Item)
    requires i.id != "" && 0 <= x.used && forall j :: 0 <= j < |x.items| ==> x.items[j].id != i.id
    ensures Freed(x.(used := x.used + i.tokens, items := x.items + [i]), 0, i.id) == x
  {
    WithoutAbsent(x.items, i.id);
    var items := x.items + [i];
    assert items[..|items| - 1] == x.items;
    assert x.items + [] == x.items;
    assert Without(items, i.id) == x.items;
    TokensConcat(x.items, [i]);
  }

  lemma {:induction false} WithoutAbsent(items: seq<Item>, id: string)
    requires forall j :: 0 <= j < |items| ==> items[j].id != id
    ensures Without(items, id) == items
    decreases |items|
  {
    if items != [] { WithoutAbsent(items[..|items| - 1], id); }
  }

  // ----- usage snapshots -----

  datatype CategoryStats = CategoryStats(max: int, used: int, items: nat, percentage: real)
  datatype Usage = Usage(
    total: int, used: int, available: int, percentage: real, categories: map<string, CategoryStats>)

  function Fraction(used: int, max: int): real {
    if max > 0 then used as real / max as real else 0.0
  }

  function StatsOf(x: Allocation): CategoryStats {
    CategoryStats(x.max, x.used, |x.items|, Fraction(x.used, x.max))
  }

  ghost function Uses(a: Allocations): map<string, int> {
    map k | k in a :: a[k].used
  }

  /** The part of a limit that is used; of no limit, none. */
  predicate IsShare(share: real, used: int, max: int) {
    if max > 0 then share * max as real == used as real else share == 0.0
  }

  predicate Describes(s: CategoryStats, x: Allocation) {
    s.max == x.max && s.used == x.used && s.items == |x.items| && IsShare(s.percentage, x.used, x.max)
  }

  lemma FractionIsShare(used: int, max: int)
    ensures IsShare(Fraction(used, max), used, max)
  {}

  ghost predicate Snapshot(u: Usage, a: Allocations, maxTokens: int) {
    && u.total == maxTokens && u.used == Sum(Uses(a))
    && u.available == (if maxTokens > u.used then maxTokens - u.used else 0)
    && IsShare(u.percentage, u.used, maxTokens)
    && u.categories.Keys == a.Keys && forall k :: k in a ==> Describes(u.categories[k], a[k])
  }

  /** The pass shows in neither the charge nor the number of items: it saved nothing, or it saw
      all items of a category charged with nothing. */
  predicate Unseen(x: Allocation, shortfall: int) {
    SavedAtStop(x.items, shortfall) <= 0 || (x.used == 0 && Stop(x.items, shortfall) == |x.items|)
  }

  /** After a refusal the snapshot, not refreshed, is still right exactly if nothing could be
      borrowed and the pass shows in nothing. */
  lemma StaleExactly(a: Allocations, c: Allocations, category: string, tokens: int, policy: Policy, u: Usage,
                     maxTokens: int)
    requires MadeRoom(a, c, category, tokens, policy, false) && Snapshot(u, a, maxTokens)
    ensures var shortfall := Shortfall(a[category], tokens);
            Snapshot(u, c, maxTokens) <==> Lent(a, category, shortfall, policy) == 0 && Unseen(a[category], shortfall)
  {
    var b := Outcome(a, c, category, tokens, policy, false);
    StaleFrom(a, b, c, category, tokens, Lent(a, category, Shortfall(a[category], tokens), policy), u, maxTokens);
  }

  lemma StaleFrom(a: Allocations, b: Allocations, c: Allocations, category: string, tokens: int, lent: int, u: Usage,
                  maxTokens: int)
    requires category in a && Resolved(a, b, c, category, tokens, lent, false)
    requires Snapshot(u, a, maxTokens)
    ensures Snapshot(u, c, maxTokens) <==> lent == 0 && Unseen(a[category], Shortfall(a[category], tokens))
  {
    PassShows(a[category], b[category], Shortfall(a[category], tokens), lent);
    if SameStats(a[category], c[category]) {
      SnapshotFrame(u, a, c, maxTokens);
    } else if Snapshot(u, c, maxTokens) {
      SnapshotShows(u, a, c, maxTokens, category);
    }
  }

  predicate SameStats(x: Allocation, y: Allocation) {
    x.max == y.max && x.used == y.used && |x.items| == |y.items|
  }

  lemma PassShows(x: Allocation, raised: Allocation, shortfall: int, lent: int)
    requires raised == x.(max := x.max + lent)
    ensures SameStats(x, Compressed(raised, Stop(x.items, shortfall))) <==> lent == 0 && Unseen(x, shortfall)
  {
    CompressedCharge(raised, Stop(x.items, shortfall));
  }

  lemma SnapshotFrame(u: Usage, a: Allocations, c: Allocations, maxTokens: int)
    requires Snapshot(u, a, maxTokens) && a.Keys == c.Keys && forall k :: k in a ==> SameStats(a[k], c[k])
    ensures Snapshot(u, c, maxTokens)
  {
    forall k | k in a ensures Describes(u.categories[k], c[k]) { assert SameStats(a[k], c[k]); }
    assert Uses(c) == Uses(a);
  }

  lemma SnapshotShows(u: Usage, a: Allocations, c: Allocations, maxTokens: int, k: string)
    requires Snapshot(u, a, maxTokens) && Snapshot(u, c, maxTokens) && k in a && k in c
    ensures SameStats(a[k], c[k])
  {
    assert Describes(u.categories[k], c[k]) && Describes(u.categories[k], a[k]);
  }

  // ----- initial limits -----

  /** Conversion of a float to an integer truncates. */
  function Truncated(x: real): int {
    if x >= 0.0 then x.Floor else -((-x).Floor)
  }

  function Limit(policy: Policy, maxTokens: int, share: real): int {
    var scaled := Truncated(Clamp(maxTokens - policy.systemReserved) as real * share);
    if scaled < policy.minimum then policy.minimum else scaled
  }

  /** A share's limit is the share of what the system leaves, rounded down, but the minimum at
      least. A negative share gets no more than that. */
  lemma LimitMeans(policy: Policy, maxTokens: int, share: real)
    ensures share < 0.0 && policy.minimum >= 0 ==> Limit(policy, maxTokens, share) == policy.minimum
    ensures share >= 0.0 ==>
              var rest := if maxTokens > policy.systemReserved then maxTokens - policy.systemReserved else 0;
              var limit := Limit(policy, maxTokens, share);
              && limit >= policy.minimum && (rest as real * share) < limit as real + 1.0
              && (limit as real <= rest as real * share || limit == policy.minimum)
  {}

  /** Empty categories with their limits, and the reserved system category. */
  ghost predicate Initial(a: Allocations, policy: Policy, maxTokens: int) {
    && a.Keys == policy.shares.Keys + {"system"}
    && a["system"].max == policy.systemReserved && a["system"].reserved
    && (forall k :: k in a && k != "system" ==> a[k].max == Limit(policy, maxTokens, policy.shares[k]))
    && (forall k :: k in a && k != "system" ==> !a[k].reserved)
    && (forall k :: k in a ==> a[k].used == 0 && a[k].items == [])
    && (forall k :: k in a && k != "system" ==> a["system"].priority < a[k].priority)
    && forall k, h :: k in a && h in a && k != h ==> a[k].priority != a[h].priority
  }

  lemma InitialKeeps(a: Allocations, policy: Policy, maxTokens: int)
    requires Initial(a, policy, maxTokens)
    ensures Sane(policy) ==> Sound(a)
    ensures AllCovered(a)
  {}

  ghost predicate Laid(a: Allocations, policy: Policy, maxTokens: int, pending: set<string>, priority: int) {
    && pending <= policy.shares.Keys && a.Keys == policy.shares.Keys - pending
    && (forall k :: k in a ==>
          a[k] == Allocation(Limit(policy, maxTokens, policy.shares[k]), 0, false, a[k].priority, []))
    && (forall k :: k in a ==> a[k].priority > priority)
    && forall k, h :: k in a && h in a && k != h ==> a[k].priority != a[h].priority
  }

  lemma LayOne(a: Allocations, policy: Policy, maxTokens: int, pending: set<string>, priority: int, category: string)
    requires Laid(a, policy, maxTokens, pending, priority) && category in pending
    ensures Laid(a[category := Allocation(Limit(policy, maxTokens, policy.shares[category]), 0, false, priority, [])],
                 policy, maxTokens, pending - {category}, priority - 1)
  {}

  lemma LaidOut(a: Allocations, policy: Policy, maxTokens: int, priority: int)
    requires Laid(a, policy, maxTokens, {}, priority)
    ensures Initial(a["system" := Allocation(policy.systemReserved, 0, true, priority, [])], policy, maxTokens)
  {}

  function Charge(tokens: int, item: Option<Item>): int {
    if tokens == 0 && item.Some? then item.value.tokens else tokens
  }

  function Charged(x: Allocation, charge: int, item: Option<Item>): Allocation {
    x.(used := x.used + charge, items := if item.Some? then x.items + [item.value] else x.items)
  }

  /** Compresses items in turn until the target is saved. */
  method CompressItems(sorted: seq<Item>, target: int) returns (saved: int, replacements: seq<Item>, k: nat)
    requires target > 0
    ensures StopsAt(sorted, k, target) && saved == Saved(sorted, k) && replacements == AllShrunk(sorted[..k])
  {
    saved, replacements := 0, [];
    var i := 0;
    while i < |sorted|
      invariant 0 <= i <= |sorted|
      invariant saved == Saved(sorted, i) < target && replacements == AllShrunk(sorted[..i])
      invariant forall j :: 0 <= j < i ==> Saved(sorted, j) < target
    {
      SavedStep(sorted, i);
      var item := sorted[i];
      i := i + 1;
      if !item.compression.To? {
        replacements := replacements + [item];
        continue;
      }
      var compressed := item.compression.item;
      saved := saved + item.tokens - compressed.tokens;
      replacements := replacements + [compressed];
      if saved >= target {
        break;
      }
    }
    k := i;
  }

  /** The next donor in descending priority; ties fall either way. */
  method NextDonor(a: Allocations, pending: set<string>) returns (d: string)
    requires pending != {} && forall h :: h in pending ==> h in a
    ensures d in pending && forall h :: h in pending ==> !Outranks(a[h], a[d])
  {
    HighestExists(a, pending);
    d :| d in pending && forall h :: h in pending ==> !Outranks(a[h], a[d]);
  }

  /** Asks the next donor for what is still wanted. */
  method AskDonor(ghost before: Allocations, a: Allocations, target: string, ghost n: int, left: int, minimum: int,
                  donors: set<string>)
    returns (b: Allocations, rest: int, others: set<string>)
    requires Borrowing(before, a, target, n, left, minimum, donors) && donors != {}
    ensures others < donors
    ensures if rest > 0 then Borrowing(before, b, target, n, rest, minimum, others)
            else Borrowed(before, b, target, n, minimum)
  {
    var donor := NextDonor(a, donors);
    assert forall h :: h in donors ==> !Outranks(before[h], before[donor]);
    others := donors - {donor};
    var available := a[donor].max - a[donor].used - minimum;
    if available <= 0 {
      NothingToGive(before, a, target, n, left, minimum, donors, donor);
      return a, left, others;
    }
    var transfer := if left < available then left else available;
    b := Transferred(a, donor, target, transfer);
    TransferMoves(a, donor, target, transfer);
    rest := left - transfer;
    if rest > 0 {
      PartTransfer(before, a, b, target, n, left, minimum, donors, donor);
    } else {
      LastTransfer(before, a, b, target, n, left, minimum, donors, donor);
    }
  }

  method RemoveItems(x: Allocation, id: string) returns (used: int, kept: seq<Item>)
    ensures kept == Without(x.items, id)
    ensures used == x.used - (TokensOf(x.items) - TokensOf(kept))
  {
    used, kept := x.used, [];
    for i := 0 to |x.items|
      invariant kept == Without(x.items[..i], id)
      invariant used == x.used - (TokensOf(x.items[..i]) - TokensOf(kept))
    {
      var it := x.items[i];
      WithoutStep(x.items, i, id);
      if it.id == id {
        used := used - it.tokens;
        continue;
      }
      kept := kept + [it];
    }
    assert x.items[..|x.items|] == x.items;
  }

  method FreeFrom(x: Allocation, tokens: int, itemID: string) returns (y: Allocation)
    ensures y == Freed(x, tokens, itemID)
  {
    var used, kept := x.used, x.items;
    if itemID != "" {
      used, kept := RemoveItems(x, itemID);
    } else if tokens > 0 {
      used := used - tokens;
    }
    if used < 0 {
      used := 0;
    }
    y := x.(used := used, items := kept);
  }

  ghost function UsesOf(a: Allocations, names: set<string>): map<string, int> {
    map k | k in a && k in names :: a[k].used
  }

  lemma UsesPick(a: Allocations, names: set<string>, name: string)
    requires name in names && name in a
    ensures Sum(UsesOf(a, names)) == a[name].used + Sum(UsesOf(a, names - {name}))
  {
    SumPick(UsesOf(a, names), name);
    assert UsesOf(a, names) - {name} == UsesOf(a, names - {name});
  }

  /** The categories' statistics and their total charge, in whatever order they come. */
  method Summarize(a: Allocations) returns (total: int, categories: map<string, CategoryStats>)
    ensures total == Sum(Uses(a))
    ensures categories.Keys == a.Keys && forall k :: k in a ==> Describes(categories[k], a[k])
  {
    total, categories := 0, map[];
    var pending := a.Keys;
    assert UsesOf(a, pending) == Uses(a);
    while pending != {}
      invariant pending <= a.Keys && categories.Keys == a.Keys - pending
      invariant forall k :: k in categories ==> Describes(categories[k], a[k])
      invariant total + Sum(UsesOf(a, pending)) == Sum(Uses(a))
      decreases |pending|
    {
      var name :| name in pending;
      UsesPick(a, pending, name);
      FractionIsShare(a[name].used, a[name].max);
      pending := pending - {name};
      categories := categories[name := StatsOf(a[name])];
      total := total + a[name].used;
    }
    assert UsesOf(a, {}) == map[];
  }

  class ArtifactBudget {
    const maxTokens: int
    const policy: Policy
    var allocations: Allocations
    var usage: Usage
    ghost var trusted: bool   // no item with a negative token count was ever tracked

    /** Under a policy without negative amounts every category stays within its limit. */
    ghost predicate Valid() reads this {
      Sane(policy) && trusted ==> Sound(allocations)
    }

    constructor (maxTokens: int, policy: Policy)
      ensures this.policy == policy && this.maxTokens == if maxTokens <= 0 then 8192 else maxTokens
      ensures Valid() && trusted && AllCovered(allocations)
      ensures Initial(allocations, policy, this.maxTokens) && Snapshot(usage, allocations, this.maxTokens)
    {
      this.maxTokens := if maxTokens <= 0 then 8192 else maxTokens;
      this.policy := policy;
      trusted := true;
      new;
      RecomputeAllocations();
      UpdateUsage();
    }

    method RecomputeAllocations()
      modifies this`allocations
      ensures Initial(allocations, policy, maxTokens) && Valid() && AllCovered(allocations)
    {
      var priority := |policy.shares|;
      var pending := policy.shares.Keys;
      var a: Allocations := map[];
      while pending != {}
        invariant Laid(a, policy, maxTokens, pending, priority)
        decreases |pending|
      {
        var category :| category in pending;
        LayOne(a, policy, maxTokens, pending, priority, category);
        pending := pending - {category};
        a := a[category := Allocation(Limit(policy, maxTokens, policy.shares[category]), 0, false, priority, [])];
        priority := priority - 1;
      }
      LaidOut(a, policy, maxTokens, priority);
      allocations := a["system" := Allocation(policy.systemReserved, 0, true, priority, [])];
      InitialKeeps(allocations, policy, maxTokens);
    }

    method UpdateUsage()
      modifies this`usage
      ensures Snapshot(usage, allocations, maxTokens)
    {
      var total, categories := Summarize(allocations);
      FractionIsShare(total, maxTokens);
      usage := Usage(maxTokens, total, Clamp(maxTokens - total), Fraction(total, maxTokens), categories);
    }

    /** Moves limits from unreserved categories, highest priority first, each keeping the
        minimum free, until the tokens are found or nobody has any to spare. */
    method BorrowTokens(target: string, tokens: int)
      requires target in allocations
      modifies this`allocations
      ensures tokens <= 0 ==> allocations == old(allocations)
      ensures tokens > 0 ==> Borrowed(old(allocations), allocations, target, tokens, policy.minimum)
      ensures tokens > 0 ==> BorrowedInNumbers(old(allocations), allocations, target, tokens, policy.minimum)
    {
      if tokens <= 0 {
        return;
      }
      FindTokens(target, tokens);
      BorrowedMeans(old(allocations), allocations, target, tokens, policy.minimum);
    }

    method FindTokens(target: string, tokens: int)
      requires target in allocations && tokens > 0
      modifies this`allocations
      ensures Borrowed(old(allocations), allocations, target, tokens, policy.minimum)
    {
      var a := allocations;
      var donors := set name | name in a && Eligible(a, name, target) && Spare(a[name], policy.minimum) > 0;
      BorrowingStarts(a, target, tokens, policy.minimum);
      var left := tokens;
      while donors != {} && left > 0
        invariant allocations == old(allocations)
        invariant if left > 0 then Borrowing(allocations, a, target, tokens, left, policy.minimum, donors)
                  else Borrowed(allocations, a, target, tokens, policy.minimum)
        decreases donors
      {
        a, left, donors := AskDonor(allocations, a, target, tokens, left, policy.minimum, donors);
      }
      if left > 0 {
        BorrowingOver(allocations, a, target, tokens, left, policy.minimum);
      }
      allocations := a;
    }

    /** Sorts the items, compresses them in turn until the target is saved, and forgets the
        items not reached. */
    method Compress(category: string, target: int) returns (ok: bool, ghost k: nat)
      requires category in allocations
      modifies this`allocations
      ensures target <= 0 ==> ok && allocations == old(allocations)
      ensures target > 0 ==> AfterCompression(old(allocations), allocations, category, target, k, ok)
    {
      k := 0;
      if target <= 0 {
        return true, 0;
      }
      var a := allocations[category];
      if |a.items| == 0 {
        assert Compressed(a, 0) == a;
        assert allocations[category := a] == allocations;
        return false, 0;
      }
      var sorted := ByPriority(a.items);
      var saved, replacements;
      saved, replacements, k := CompressItems(sorted, target);
      a := a.(items := sorted);
      if saved > 0 {
        a := a.(items := replacements, used := Clamp(a.used - saved));
      }
      assert a == Compressed(allocations[category], k);
      allocations := allocations[category := a];
      ok := saved >= target;
    }

    method EnsureCapacity(category: string, tokens: int) returns (ok: bool)
      requires category in allocations
      modifies this`allocations
      ensures MadeRoom(old(allocations), allocations, category, tokens, policy, ok)
    {
      var x := allocations[category];
      if Fits(x, tokens) {
        return true;
      }
      var shortfall := x.used + tokens - x.max;
      if policy.allowBorrowing && shortfall > 0 {
        BorrowTokens(category, shortfall);
      }
      ghost var b := allocations;
      assert AfterBorrowing(old(allocations), b, category, shortfall, policy);
      if Fits(allocations[category], tokens) {
        assert RoomVia(old(allocations), b, allocations, category, tokens, policy, true);
        return true;
      }
      ghost var k;
      ok, k := Compress(category, shortfall);
      assert AfterCompression(b, allocations, category, shortfall, k, ok);
      ok := ok && Fits(allocations[category], tokens);
      assert Squeezed(b, allocations, category, tokens, shortfall, ok);
      assert RoomVia(old(allocations), b, allocations, category, tokens, policy, ok);
    }

    /** Charges tokens, or the item's own count if none are given. Whatever the outcome, the
        limits' total is conserved and every category stays within its limit. A refusal may
        have moved limits and compressed items, and leaves the usage snapshot as it was. */
    method Allocate(category: string, tokens: int, item: Option<Item>) returns (ok: bool, ghost room: Allocations)
      requires Valid()
      modifies this`allocations, this`usage, this`trusted
      ensures Valid() && Total(allocations) == old(Total(allocations))
      ensures tokens < 0 || category !in old(allocations) ==> !ok && unchanged(this)
      ensures tokens >= 0 && category in old(allocations) ==>
                var charge := Charge(tokens, item);
                if charge == 0 then ok && unchanged(this)
                else
                  && charge == (if tokens == 0 && item.Some? then item.value.tokens else tokens)
                  && MadeRoom(old(allocations), room, category, charge, policy, ok)
                  && allocations == (if ok then room[category := Charged(room[category], charge, item)] else room)
                  && (ok ==> && allocations[category].used == room[category].used + charge
                             && allocations[category].items ==
                                room[category].items + if item.Some? then [item.value] else [])
                  && (if ok then Snapshot(usage, allocations, maxTokens) else usage == old(usage))
      // item-only use: the charge covers the item
      ensures && old(AllCovered(allocations))
              && (item.Some? ==> CountsOk(item.value) && Charge(tokens, item) >= item.value.tokens)
              ==> AllCovered(allocations)
      ensures trusted == (old(trusted) && !(ok && Charge(tokens, item) != 0 && item.Some? && !CountsOk(item.value)))
    {
      room := allocations;
      if tokens < 0 {
        return false, room;
      }
      if category !in allocations {
        return false, room;
      }
      var charge := tokens;
      if charge == 0 && item.Some? {
        charge := item.value.tokens;
      }
      if charge == 0 {
        return true, room;
      }
      ok, room := ChargeCategory(category, charge, item);
    }

    /** Makes room for a charge and books it, or leaves the usage snapshot as it was. */
    method ChargeCategory(category: string, charge: int, item: Option<Item>) returns (ok: bool, ghost room: Allocations)
      requires Valid() && category in allocations && (item.Some? && CountsOk(item.value) ==> charge > 0)
      requires (item.None? ==> charge > 0)
      modifies this`allocations, this`usage, this`trusted
      ensures Valid() && Total(allocations) == old(Total(allocations))
      ensures MadeRoom(old(allocations), room, category, charge, policy, ok)
      ensures allocations == (if ok then room[category := Charged(room[category], charge, item)] else room)
      ensures if ok then Snapshot(usage, allocations, maxTokens) else usage == old(usage)
      ensures old(AllCovered(allocations)) && (item.Some? ==> CountsOk(item.value) && charge >= item.value.tokens)
              ==> AllCovered(allocations)
      ensures trusted == (old(trusted) && !(ok && item.Some? && !CountsOk(item.value)))
    {
      ok := EnsureCapacity(category, charge);
      room := allocations;
      MadeRoomKeeps(old(allocations), room, category, charge, policy, ok);
      if !ok {
        return;
      }
      ChargeKeeps(room, category, charge, item);
      trusted := trusted && (item.Some? ==> CountsOk(item.value));
      allocations := allocations[category := Charged(allocations[category], charge, item)];
      UpdateUsage();
    }

    /** Removes every item of the id and its charge, or releases raw tokens. */
    method Free(category: string, tokens: int, itemID: string)
      requires Valid()
      modifies this`allocations, this`usage
      ensures Valid() && Total(allocations) == old(Total(allocations))
      ensures category !in old(allocations) ==> unchanged(this)
      ensures category in old(allocations) ==>
                && allocations == old(allocations)[category := Freed(old(allocations)[category], tokens, itemID)]
                && Snapshot(usage, allocations, maxTokens)
      ensures old(AllCovered(allocations)) && (itemID != "" || tokens <= 0) ==> AllCovered(allocations)
    {
      if category !in allocations {
        return;
      }
      var freed := FreeFrom(allocations[category], tokens, itemID);
      FreeKeeps(allocations, category, tokens, itemID);
      allocations := allocations[category := freed];
      UpdateUsage();
    }
  }

  lemma ChargeKeeps(a: Allocations, category: string, charge: int, item: Option<Item>)
    requires category in a && Fits(a[category], charge)
    ensures var b := a[category := Charged(a[category], charge, item)];
            && Total(b) == Total(a)
            && (0 < charge && (item.Some? ==> CountsOk(item.value)) ==>
                  && (Sound(a) ==> Sound(b))
                  && (AllCovered(a) && (item.Some? ==> charge >= item.value.tokens) ==> AllCovered(b)))
  {
    var b := a[category := Charged(a[category], charge, item)];
    TotalSameLimits(a, b);
    if item.Some? { TokensConcat(a[category].items, [item.value]); }
  }

  lemma FreeKeeps(a: Allocations, category: string, tokens: int, id: string)
    requires category in a
    ensures var b := a[category := Freed(a[category], tokens, id)];
            && Total(b) == Total(a)
            && (Sound(a) ==> Sound(b))
            && (AllCovered(a) && (id != "" || tokens <= 0) ==> AllCovered(b))
  {
    var b := a[category := Freed(a[category], tokens, id)];
    TotalSameLimits(a, b);
    FreedKeeps(a[category], tokens, id);
    if AllCovered(a) { FreedCovers(a[category], tokens, id); }
  }
}
