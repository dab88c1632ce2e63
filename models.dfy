/** Programs (event schedules) and their time-boxed items: the overlap rule,
    the readiness predicate, share-token generation and position assignment
    (programs/models.py). Instants are integers (seconds). */
module Models {
  import opened Wrappers
  import Ordering

  /** `secrets.token_urlsafe(32)` encodes 32 random bytes in unpadded
      base64url, which is 43 characters. */
  const TokenLength: nat := 43

  /** A program item as stored: identifier, time range and position. */
  datatype Item = Item(id: nat, startTime: int, endTime: int, position: nat)

  function StartKey(it: Item): int { it.startTime }

  function PositionKey(it: Item): int { it.position }

  // ---------------------------------------------------------------------
  // The overlap rule and readiness, as a specification
  // ---------------------------------------------------------------------

  /** Two items conflict when their ranges overlap; touching ranges do not. */
  predicate Conflicts(a: Item, b: Item) {
    a.startTime < b.endTime && a.endTime > b.startTime
  }

  predicate ValidRange(it: Item) {
    it.endTime > it.startTime
  }

  predicate AllValid(s: seq<Item>) {
    forall k :: 0 <= k < |s| ==> ValidRange(s[k])
  }

  /** No two items at distinct positions of `s` conflict (each pair `i < j`). */
  predicate PairwiseFree(s: seq<Item>) {
    forall i, j :: 0 <= i < j < |s| ==> !Conflicts(s[i], s[j])
  }

  /** The readiness of a program whose items are `s`. */
  predicate Ready(s: seq<Item>) {
    |s| > 0 && AllValid(s) && PairwiseFree(s)
  }

  /** Item identifiers are primary keys: no two items share one. */
  predicate UniqueItemIds(s: seq<Item>) {
    forall i, j :: 0 <= i < j < |s| ==> s[i].id != s[j].id
  }

  /** `a` conflicts with no element of `u`. */
  ghost predicate FreeWith(a: Item, u: seq<Item>) {
    forall y :: y in u ==> !Conflicts(a, y)
  }

  lemma ConflictsSymmetric(a: Item, b: Item)
    ensures Conflicts(a, b) == Conflicts(b, a)
  {
  }

  lemma BackToBackNeverConflict(a: Item, b: Item)
    requires a.endTime == b.startTime || b.endTime == a.startTime
    ensures !Conflicts(a, b) && !Conflicts(b, a)
  {
  }

  /** Strictly overlapping ranges conflict, in both orders. */
  lemma OverlapConflicts(a: Item, b: Item)
    requires a.startTime < b.endTime && b.startTime < a.endTime
    ensures Conflicts(a, b) && Conflicts(b, a)
  {
  }

  lemma EmptyNeverReady()
    ensures !Ready([])
  {
  }

  lemma InvalidItemBlocksReady(s: seq<Item>, k: nat)
    requires k < |s| && s[k].endTime <= s[k].startTime
    ensures !Ready(s)
  {
  }

  /** Two valid items placed back to back make a ready program. */
  lemma BackToBackPairReady(a: Item, b: Item)
    requires ValidRange(a) && ValidRange(b) && a.endTime == b.startTime
    ensures Ready([a, b]) && Ready([b, a])
  {
  }

  /** Two conflicting items make the program unready, whatever else it holds. */
  lemma ConflictBlocksReady(s: seq<Item>, i: nat, j: nat)
    requires i < |s| && j < |s| && i != j && Conflicts(s[i], s[j])
    ensures !Ready(s)
  {
    if j < i {
      ConflictsSymmetric(s[i], s[j]);
    }
  }

  /** Splitting off the first item of a conflict-free sequence. */
  lemma PairwiseFreeCons(a: Item, u: seq<Item>)
    ensures PairwiseFree([a] + u) <==> FreeWith(a, u) && PairwiseFree(u)
  {
    var s := [a] + u;
    if PairwiseFree(s) {
      forall y | y in u ensures !Conflicts(a, y) {
        var k :| 0 <= k < |u| && u[k] == y;
        assert s[0] == a && s[k + 1] == y;
      }
      forall i, j | 0 <= i < j < |u| ensures !Conflicts(u[i], u[j]) {
        assert s[i + 1] == u[i] && s[j + 1] == u[j];
      }
    }
    if FreeWith(a, u) && PairwiseFree(u) {
      forall i, j | 0 <= i < j < |s| ensures !Conflicts(s[i], s[j]) {
        assert s[j] == u[j - 1];
        if i > 0 {
          assert s[i] == u[i - 1];
        }
      }
    }
  }

  /** Moving one item to the front does not change freedom from conflicts. */
  lemma {:induction false} MoveToFront(p: seq<Item>, a: Item, q: seq<Item>)
    ensures PairwiseFree(p + [a] + q) == PairwiseFree([a] + p + q)
    decreases |p|
  {
    if p == [] {
      assert p + [a] + q == [a] + p + q;
    } else {
      var b, p' := p[0], p[1..];
      assert p + [a] + q == [b] + (p' + [a] + q);
      assert [a] + p + q == [a] + ([b] + (p' + q));
      assert [a] + p' + q == [a] + (p' + q);
      MoveToFront(p', a, q);
      PairwiseFreeCons(b, p' + [a] + q);
      PairwiseFreeCons(a, p' + q);
      PairwiseFreeCons(a, [b] + (p' + q));
      PairwiseFreeCons(b, p' + q);
      ConflictsSymmetric(a, b);
      assert FreeWith(b, p' + [a] + q) == (!Conflicts(b, a) && FreeWith(b, p' + q));
      assert FreeWith(a, [b] + (p' + q)) == (!Conflicts(a, b) && FreeWith(a, p' + q));
    }
  }

  /** Taking out the element at `k` removes one occurrence of it and leaves
      a sequence that is conflict-free exactly when, together with that
      element, the original was. */
  lemma PickOut(t: seq<Item>, k: nat)
    requires k < |t|
    ensures multiset(t[..k] + t[k + 1..]) == multiset(t) - multiset{t[k]}
    ensures PairwiseFree(t) == (FreeWith(t[k], t[..k] + t[k + 1..]) && PairwiseFree(t[..k] + t[k + 1..]))
  {
    var a, rest := t[k], t[..k] + t[k + 1..];
    assert t == t[..k] + [a] + t[k + 1..];
    calc {
      multiset(t);
      multiset(t[..k] + [a] + t[k + 1..]);
      multiset(t[..k]) + multiset{a} + multiset(t[k + 1..]);
      multiset(rest) + multiset{a};
    }
    MoveToFront(t[..k], a, t[k + 1..]);
    assert [a] + t[..k] + t[k + 1..] == [a] + rest;
    PairwiseFreeCons(a, rest);
  }

  /** Whether an item conflicts with a sequence depends only on the
      sequence's multiset. */
  lemma FreeWithPermutation(a: Item, u: seq<Item>, v: seq<Item>)
    requires multiset(u) == multiset(v)
    ensures FreeWith(a, u) == FreeWith(a, v)
  {
    forall y ensures y in u <==> y in v {
      assert y in u <==> y in multiset(u);
      assert y in v <==> y in multiset(v);
    }
  }

  /** Splitting off the head, as `PickOut` at index 0. */
  lemma PickFirst(s: seq<Item>)
    requires |s| > 0
    ensures multiset(s[1..]) == multiset(s) - multiset{s[0]}
    ensures PairwiseFree(s) == (FreeWith(s[0], s[1..]) && PairwiseFree(s[1..]))
  {
    assert s == [s[0]] + s[1..];
    PairwiseFreeCons(s[0], s[1..]);
  }

  /** An index at which an element of the multiset of `t` occurs. */
  lemma IndexOf(t: seq<Item>, a: Item) returns (k: nat)
    requires a in multiset(t)
    ensures k < |t| && t[k] == a
  {
    assert a in t;
    k :| 0 <= k < |t| && t[k] == a;
  }

  /** Freedom from conflicts depends only on which items there are, not on
      their order: the overlap test is symmetric and every pair is checked. */
  lemma {:induction false} PairwiseFreePermutation(s: seq<Item>, t: seq<Item>)
    requires multiset(s) == multiset(t)
    ensures PairwiseFree(s) == PairwiseFree(t)
    decreases |s|
  {
    if s == [] {
      assert |t| == |multiset(t)| == 0;
    } else {
      var k := IndexOf(t, s[0]);
      var t' := t[..k] + t[k + 1..];
      PickOut(t, k);
      PickFirst(s);
      FreeWithPermutation(s[0], s[1..], t');
      PairwiseFreePermutation(s[1..], t');
    }
  }

  /** Readiness does not depend on the order of the items, so the sort by
      start time that precedes the check does not change its outcome. */
  lemma ReadyPermutation(s: seq<Item>, t: seq<Item>)
    requires multiset(s) == multiset(t)
    ensures Ready(s) == Ready(t)
  {
    PairwiseFreePermutation(s, t);
    assert |s| == |multiset(s)| == |t|;
    forall k | 0 <= k < |t| && AllValid(s) ensures ValidRange(t[k]) {
      assert t[k] in multiset(s);
    }
    forall k | 0 <= k < |s| && AllValid(t) ensures ValidRange(s[k]) {
      assert s[k] in multiset(t);
    }
  }

  /** Adding an item that conflicts with none keeps a set conflict-free. */
  lemma AppendKeepsPairwiseFree(s: seq<Item>, c: Item)
    requires PairwiseFree(s)
    requires forall k :: 0 <= k < |s| ==> !Conflicts(c, s[k])
    ensures PairwiseFree(s + [c])
  {
    var r := s + [c];
    forall i, j | 0 <= i < j < |r| ensures !Conflicts(r[i], r[j]) {
      if j == |s| {
        ConflictsSymmetric(c, s[i]);
      }
    }
  }

  /** Replacing the item at `k` by one that conflicts with none of the
      others keeps a set conflict-free. */
  lemma ReplaceKeepsPairwiseFree(s: seq<Item>, k: nat, c: Item)
    requires k < |s| && PairwiseFree(s)
    requires forall j :: 0 <= j < |s| && j != k ==> !Conflicts(c, s[j])
    ensures PairwiseFree(s[k := c])
  {
    var r := s[k := c];
    forall i, j | 0 <= i < j < |r| ensures !Conflicts(r[i], r[j]) {
      if j == k {
        ConflictsSymmetric(c, s[i]);
      }
    }
  }

  // ---------------------------------------------------------------------
  // Share state and position assignment helpers
  // ---------------------------------------------------------------------

  /** Python truthiness of an optional string: `None` and `""` are false. */
  predicate Truthy(token: Option<string>) {
    token.Some? && token.value != ""
  }

  /** The largest position among `items`, as the `Max('position')` aggregate
      reports it (`None` for no rows). */
  function MaxPosition(items: seq<Item>): (m: Option<nat>)
    ensures m.None? <==> items == []
    ensures m.Some? ==> forall k :: 0 <= k < |items| ==> items[k].position <= m.value
    ensures m.Some? ==> exists k :: 0 <= k < |items| && items[k].position == m.value
  {
    if items == [] then None
    else
      var rest := MaxPosition(items[1..]);
      if rest.None? || rest.value <= items[0].position then
        Some(items[0].position)
      else
        assert forall k :: 1 <= k < |items| ==> items[k] == items[1..][k - 1];
        rest
  }

  /** The position given to an item saved without one:
      `(max_position or 0) + 1`. */
  function NextPosition(items: seq<Item>): (p: nat)
    ensures p >= 1
    ensures items == [] ==> p == 1
    ensures forall k :: 0 <= k < |items| ==> items[k].position < p
    ensures items != [] ==> exists k :: 0 <= k < |items| && items[k].position + 1 == p
  {
    MaxPosition(items).GetOr(0) + 1
  }

  /** One attempt sequence of the token generator: the first draw not already
      used by a program, if any. */
  function FirstFreshToken(draws: seq<string>, taken: set<string>): (r: Option<nat>)
    ensures r.Some? ==> r.value < |draws| && draws[r.value] !in taken
    ensures r.Some? ==> forall j :: 0 <= j < r.value ==> draws[j] in taken
    ensures r.None? <==> forall j :: 0 <= j < |draws| ==> draws[j] in taken
  {
    if draws == [] then None
    else if draws[0] !in taken then Some(0)
    else
      match FirstFreshToken(draws[1..], taken)
      case None => None
      case Some(k) => Some(k + 1)
  }

  /** The loops of `is_ready` over the ordered items: each item must have a
      valid range and conflict with none of the items after it. */
  method Scan(ordered: seq<Item>) returns (ready: bool)
    requires |ordered| > 0
    ensures ready == Ready(ordered)
  {
    var i := 0;
    while i < |ordered|
      invariant 0 <= i <= |ordered|
      invariant forall k :: 0 <= k < i ==> ValidRange(ordered[k])
      invariant forall a, b :: 0 <= a < i && a < b < |ordered| ==> !Conflicts(ordered[a], ordered[b])
    {
      if ordered[i].endTime <= ordered[i].startTime {
        return false;
      }
      var free := FreeAfter(ordered, i);
      if !free {
        return false;
      }
      i := i + 1;
    }
    return true;
  }

  /** The inner loop of `is_ready`: whether the item at `i` conflicts with
      none of the items after it. */
  method FreeAfter(ordered: seq<Item>, i: nat) returns (free: bool)
    requires i < |ordered|
    ensures free <==> forall b :: i < b < |ordered| ==> !Conflicts(ordered[i], ordered[b])
  {
    var j := i + 1;
    while j < |ordered|
      invariant i + 1 <= j <= |ordered|
      invariant forall b :: i < b < j ==> !Conflicts(ordered[i], ordered[b])
    {
      if Conflicts(ordered[i], ordered[j]) {
        return false;
      }
      j := j + 1;
    }
    return true;
  }

  // ---------------------------------------------------------------------
  // The program object
  // ---------------------------------------------------------------------

  class Program {
    const id: nat
    const owner: nat
    var items: seq<Item>
    var shareToken: Option<string>
    var sharedAt: Option<int>

    /** A new program belongs to its creator, has no items and is unshared. */
    constructor (id: nat, owner: nat)
      ensures this.id == id && this.owner == owner
      ensures items == [] && shareToken == None && sharedAt == None
    {
      this.id := id;
      this.owner := owner;
      items := [];
      shareToken := None;
      sharedAt := None;
    }

    /** `is_ready`: orders the items by start time, then rejects the first
        inverted range or conflicting pair it meets. */
    method IsReady() returns (ready: bool)
      ensures ready == Ready(items)
    {
      if |items| == 0 {
        return false;
      }
      var ordered := Ordering.SortBy(items, StartKey);
      ready := Scan(ordered);
      ReadyPermutation(items, ordered);
    }

    /** Shared once, but edited since into an unready state. */
    method SharedButUnready() returns (flag: bool)
      ensures flag <==> sharedAt.Some? && !Ready(items)
    {
      var ready := IsReady();
      flag := sharedAt.Some? && !ready;
    }

    /** `generate_share_token`: keeps a truthy token; otherwise takes the
        first draw that no program uses yet. `exhausted` reports that every
        draw collided. */
    method GenerateShareToken(taken: set<string>, draws: seq<string>) returns (exhausted: bool)
      requires forall k :: 0 <= k < |draws| ==> |draws[k]| == TokenLength
      modifies this`shareToken
      ensures Truthy(old(shareToken)) ==> !exhausted && shareToken == old(shareToken)
      ensures !Truthy(old(shareToken)) ==>
        (exhausted <==> FirstFreshToken(draws, taken).None?) &&
        (exhausted ==> shareToken == old(shareToken)) &&
        (!exhausted ==> shareToken == Some(draws[FirstFreshToken(draws, taken).value]))
      ensures !exhausted ==> Truthy(shareToken)
      ensures !Truthy(old(shareToken)) && !exhausted ==> shareToken.value !in taken
    {
      if Truthy(shareToken) {
        return false;
      }
      var k := 0;
      while k < |draws|
        invariant 0 <= k <= |draws|
        invariant forall j :: 0 <= j < k ==> draws[j] in taken
        invariant shareToken == old(shareToken)
      {
        if draws[k] !in taken {
          shareToken := Some(draws[k]);
          return false;
        }
        k := k + 1;
      }
      return true;
    }

    /** `ProgramItem.save` for a new item: an omitted position becomes
        `NextPosition` of the program's items, an explicit one is kept. */
    method SaveNewItem(itemId: nat, startTime: int, endTime: int, requested: Option<nat>)
      returns (item: Item)
      modifies this`items
      ensures item.id == itemId && item.startTime == startTime && item.endTime == endTime
      ensures requested.Some? ==> item.position == requested.value
      ensures requested.None? ==> item.position == NextPosition(old(items))
      ensures items == old(items) + [item]
    {
      var position := if requested.Some? then requested.value else NextPosition(items);
      item := Item(itemId, startTime, endTime, position);
      items := items + [item];
    }
  }

  /** `clean`: a range with both ends present must end after it starts. */
  function Clean(startTime: Option<int>, endTime: Option<int>): (accepted: bool)
    ensures startTime.Some? && endTime.Some? ==>
      (accepted <==> ValidRange(Item(0, startTime.value, endTime.value, 0)))
    ensures startTime.None? || endTime.None? ==> accepted
  {
    !(startTime.Some? && endTime.Some? && endTime.value <= startTime.value)
  }

  /** Three items saved without positions into an empty program get 1, 2, 3. */
  method ThreeDefaultPositions() returns (p1: nat, p2: nat, p3: nat)
    ensures p1 == 1 && p2 == 2 && p3 == 3
  {
    var program := new Program(1, 1);
    var a := program.SaveNewItem(1, 0, 10, None);
    var b := program.SaveNewItem(2, 10, 20, None);
    var c := program.SaveNewItem(3, 20, 30, None);
    p1, p2, p3 := a.position, b.position, c.position;
  }
}
