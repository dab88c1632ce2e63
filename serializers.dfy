/** Validation of an item before it is created or updated, and the derived
    `is_shared` flag (programs/serializers.py). */
module Serializers {
  import opened Wrappers
  import Ordering
  import opened Models

  /** The two rejections of `validate`, keyed by the field they are reported
      under: `end_time` for an inverted range, `start_time` for a conflict
      naming the sibling it hits. */
  datatype ValidationError = EndBeforeStart | TimeConflict(sibling: Item)

  /** `_check_conflict`: the overlap test on bare instants. */
  predicate CheckConflict(startA: int, endA: int, startB: int, endB: int) {
    startA < endB && endA > startB
  }

  /** The rule here and `Program._items_conflict` are the same rule. */
  lemma CheckConflictIsItemsConflict(a: Item, b: Item)
    ensures CheckConflict(a.startTime, a.endTime, b.startTime, b.endTime) == Conflicts(a, b)
  {
  }

  lemma CheckConflictSymmetric(startA: int, endA: int, startB: int, endB: int)
    ensures CheckConflict(startA, endA, startB, endB) == CheckConflict(startB, endB, startA, endA)
  {
  }

  /** Touching ranges are accepted. */
  lemma TouchingAccepted(startA: int, endA: int, startB: int, endB: int)
    requires endA == startB || endB == startA
    ensures !CheckConflict(startA, endA, startB, endB)
  {
  }

  /** An item stays a sibling unless it is the instance being updated. */
  predicate Kept(it: Item, instance: Option<nat>) {
    instance.None? || it.id != instance.value
  }

  /** `items.exclude(pk=instance.pk)` when updating; all items otherwise. */
  function Exclude(items: seq<Item>, instance: Option<nat>): (r: seq<Item>)
    ensures forall x :: x in r <==> x in items && Kept(x, instance)
    ensures instance.None? ==> r == items
  {
    if items == [] then []
    else if Kept(items[0], instance) then
      assert items == [items[0]] + items[1..];
      [items[0]] + Exclude(items[1..], instance)
    else
      Exclude(items[1..], instance)
  }

  /** The siblings `validate` walks: the program's other items in the
      default item order, by position. */
  function Siblings(items: seq<Item>, instance: Option<nat>): (r: seq<Item>)
    ensures forall x :: x in r <==> x in items && Kept(x, instance)
    ensures Ordering.SortedBy(r, PositionKey)
  {
    var kept := Exclude(items, instance);
    var r := Ordering.SortBy(kept, PositionKey);
    assert forall x :: x in r <==> x in multiset(kept);
    r
  }

  /** `validate` with both instants present. `program` is the program of the
      serializer context, when there is one; `instance` identifies the item
      being updated. */
  method Validate(startTime: int, endTime: int, program: Option<seq<Item>>, instance: Option<nat>)
    returns (r: Outcome<ValidationError>)
    ensures endTime <= startTime ==> r == Fail(EndBeforeStart)
    ensures endTime > startTime && program.None? ==> r == Pass
    ensures endTime > startTime && program.Some? ==>
      (r == Pass <==>
        forall x :: x in program.value && Kept(x, instance) ==>
          !CheckConflict(startTime, endTime, x.startTime, x.endTime))
    ensures r.Fail? && endTime > startTime ==>
      program.Some? && r.error.TimeConflict? &&
      var s := r.error.sibling;
      s in program.value && Kept(s, instance) &&
      CheckConflict(startTime, endTime, s.startTime, s.endTime) &&
      // the conflict reported is the first in position order
      forall x ::
        (x in program.value && Kept(x, instance) &&
         CheckConflict(startTime, endTime, x.startTime, x.endTime)) ==> s.position <= x.position
  {
    if endTime <= startTime {
      return Fail(EndBeforeStart);
    }
    if program.None? {
      return Pass;
    }
    var siblings := Siblings(program.value, instance);
    var k := 0;
    while k < |siblings|
      invariant 0 <= k <= |siblings|
      invariant forall j :: 0 <= j < k ==>
        !CheckConflict(startTime, endTime, siblings[j].startTime, siblings[j].endTime)
    {
      var s := siblings[k];
      if CheckConflict(startTime, endTime, s.startTime, s.endTime) {
        forall x | x in siblings && CheckConflict(startTime, endTime, x.startTime, x.endTime)
          ensures s.position <= x.position
        {
          var j :| 0 <= j < |siblings| && siblings[j] == x;
          assert k <= j;
        }
        return Fail(TimeConflict(s));
      }
      k := k + 1;
    }
    assert forall x :: x in siblings ==>
      !CheckConflict(startTime, endTime, x.startTime, x.endTime);
    return Pass;
  }

  /** An item re-saved with its own times does not conflict with its
      siblings, because it is excluded from them. */
  lemma ResaveOwnTimesNoConflict(items: seq<Item>, k: nat)
    requires k < |items| && PairwiseFree(items)
    requires UniqueItemIds(items)
    ensures forall x :: x in items && Kept(x, Some(items[k].id)) ==>
      !CheckConflict(items[k].startTime, items[k].endTime, x.startTime, x.endTime)
  {
    forall x | x in items && Kept(x, Some(items[k].id))
      ensures !CheckConflict(items[k].startTime, items[k].endTime, x.startTime, x.endTime)
    {
      var j :| 0 <= j < |items| && items[j] == x;
      if j < k {
        assert !Conflicts(items[j], items[k]);
      } else {
        assert j != k;
        assert !Conflicts(items[k], items[j]);
      }
    }
  }

  // ---------------------------------------------------------------------
  // `validate` as written, for a partial update that may omit an instant
  // ---------------------------------------------------------------------

  /** What `validate` does with the instants of the request alone: accept,
      reject with a validation error, or raise `TypeError` from comparing a
      missing instant (`None`) with a stored one. */
  datatype RawOutcome = Accepted | Rejected(error: ValidationError) | TypeError

  /** `_check_conflict` on instants that may be missing; `None` stands for
      the `TypeError` Python raises, and `and` short-circuits. */
  function CheckConflictAsWritten(startA: Option<int>, endA: Option<int>, b: Item): Option<bool> {
    if startA.None? then None
    else if !(startA.value < b.endTime) then Some(false)
    else if endA.None? then None
    else Some(endA.value > b.startTime)
  }

  /** The loop over the siblings: stops at the first conflict or error. */
  function ScanAsWritten(startTime: Option<int>, endTime: Option<int>, siblings: seq<Item>): RawOutcome {
    if siblings == [] then Accepted
    else
      match CheckConflictAsWritten(startTime, endTime, siblings[0])
      case None => TypeError
      case Some(true) => Rejected(TimeConflict(siblings[0]))
      case Some(false) => ScanAsWritten(startTime, endTime, siblings[1..])
  }

  /** `validate` as written: the range is checked only when both instants
      are in the request, and the siblings are compared with the request's
      instants, never with the stored ones. */
  function ValidateAsWritten(startTime: Option<int>, endTime: Option<int>,
                             program: Option<seq<Item>>, instance: Option<nat>): RawOutcome
  {
    if startTime.Some? && endTime.Some? && endTime.value <= startTime.value then
      Rejected(EndBeforeStart)
    else if program.None? then Accepted
    else ScanAsWritten(startTime, endTime, Siblings(program.value, instance))
  }

  lemma {:induction false} ScanWithBothInstants(startTime: int, endTime: int, siblings: seq<Item>)
    ensures ScanAsWritten(Some(startTime), Some(endTime), siblings) != TypeError
    ensures ScanAsWritten(Some(startTime), Some(endTime), siblings) == Accepted <==>
      forall x :: x in siblings ==> !CheckConflict(startTime, endTime, x.startTime, x.endTime)
  {
    if siblings != [] {
      ScanWithBothInstants(startTime, endTime, siblings[1..]);
      assert forall x :: x in siblings ==> x == siblings[0] || x in siblings[1..];
    }
  }

  /** With both instants in the request, `validate` as written never raises
      and accepts exactly what `Validate` passes. */
  lemma ValidateAsWrittenWithBothInstants(startTime: int, endTime: int,
                                          program: Option<seq<Item>>, instance: Option<nat>)
    ensures ValidateAsWritten(Some(startTime), Some(endTime), program, instance) != TypeError
    ensures ValidateAsWritten(Some(startTime), Some(endTime), program, instance) == Accepted <==>
      endTime > startTime &&
      (program.Some? ==>
         forall x :: x in program.value && Kept(x, instance) ==>
           !CheckConflict(startTime, endTime, x.startTime, x.endTime))
  {
    if program.Some? {
      ScanWithBothInstants(startTime, endTime, Siblings(program.value, instance));
    }
  }

  /** A PATCH that sends only `end_time`, earlier than the stored start, on
      the only item of a program is accepted: the stored range 09:00-10:00
      becomes 09:00-08:00. */
  lemma PartialUpdateAcceptsInvertedRange()
    ensures ValidateAsWritten(None, Some(28800), Some([Item(1, 32400, 36000, 1)]), Some(1)) == Accepted
    ensures !ValidRange(Item(1, 32400, 28800, 1))
  {
    assert Exclude([Item(1, 32400, 36000, 1)], Some(1)) == [];
  }

  /** The concrete case: items 09:00-10:00 and 10:00-11:00; the second is
      PATCHed with start 09:30 alone, which the first ends after, and
      raises instead of validating. */
  lemma PartialUpdateWithSiblingRaises()
    ensures ValidateAsWritten(Some(34200), None,
                              Some([Item(1, 32400, 36000, 1), Item(2, 36000, 39600, 2)]), Some(2))
            == TypeError
  {
    var items := [Item(1, 32400, 36000, 1), Item(2, 36000, 39600, 2)];
    assert Exclude(items, Some(2)) == [items[0]];
    assert Siblings(items, Some(2)) == [items[0]];
  }

  /** `clean` runs the same range check as `validate` does without a
      program in its context: both refuse exactly an inverted range whose
      two ends are present. */
  lemma CleanIsRangeCheck(startTime: Option<int>, endTime: Option<int>, instance: Option<nat>)
    ensures ValidateAsWritten(startTime, endTime, None, instance) == Accepted <==> Clean(startTime, endTime)
    ensures ValidateAsWritten(startTime, endTime, None, instance) != Accepted ==>
      ValidateAsWritten(startTime, endTime, None, instance) == Rejected(EndBeforeStart)
  {
  }

  /** With no start time in the request, the first sibling already raises:
      a PATCH that omits `start_time` (one that changes only the title, say)
      fails on every item that has a sibling. */
  lemma PartialUpdateWithoutStartRaises(endTime: Option<int>, items: seq<Item>, instance: Option<nat>)
    requires exists x :: x in items && Kept(x, instance)
    ensures ValidateAsWritten(None, endTime, Some(items), instance) == TypeError
  {
    var x :| x in items && Kept(x, instance);
    assert x in Siblings(items, instance);
  }

  lemma {:induction false} ScanStartAfterAll(startTime: int, siblings: seq<Item>)
    requires forall x :: x in siblings ==> x.endTime <= startTime
    ensures ScanAsWritten(Some(startTime), None, siblings) == Accepted
  {
    if siblings != [] {
      assert siblings[0] in siblings;
      assert forall x :: x in siblings[1..] ==> x in siblings;
      ScanStartAfterAll(startTime, siblings[1..]);
    }
  }

  /** With only a start time in the request, the loop as written raises
      exactly when some sibling ends after that start (the first such one
      reaches `None > start`), and accepts otherwise. */
  lemma {:induction false} ScanStartOnly(startTime: int, siblings: seq<Item>)
    ensures ScanAsWritten(Some(startTime), None, siblings) ==
      if exists x :: x in siblings && startTime < x.endTime then TypeError else Accepted
  {
    if siblings != [] {
      ScanStartOnly(startTime, siblings[1..]);
      assert forall x :: x in siblings <==> x == siblings[0] || x in siblings[1..];
    }
  }

  /** A PATCH with only a start time on an item with a sibling that ends
      after that start raises instead of validating. */
  lemma PartialUpdateEarlyStartRaises(startTime: int, items: seq<Item>, instance: Option<nat>)
    requires exists x :: x in items && Kept(x, instance) && startTime < x.endTime
    ensures ValidateAsWritten(Some(startTime), None, Some(items), instance) == TypeError
  {
    ScanStartOnly(startTime, Siblings(items, instance));
  }

  /** A PATCH with only a start time no earlier than every sibling's end is
      accepted, whatever the stored end: when that is before the new start,
      the stored range is inverted. */
  lemma PartialUpdateLateStartAccepted(startTime: int, items: seq<Item>, instance: Option<nat>)
    requires forall x :: x in items && Kept(x, instance) ==> x.endTime <= startTime
    ensures ValidateAsWritten(Some(startTime), None, Some(items), instance) == Accepted
  {
    ScanStartAfterAll(startTime, Siblings(items, instance));
  }

  /** The concrete case: items 09:00-10:00 and 10:00-11:00; the first is
      PATCHed with start 11:30 alone, is accepted and becomes 11:30-10:00. */
  lemma PartialUpdateLateStartInvertsRange()
    ensures ValidateAsWritten(Some(41400), None,
                              Some([Item(1, 32400, 36000, 1), Item(2, 36000, 39600, 2)]), Some(1))
            == Accepted
    ensures !ValidRange(Item(1, 41400, 36000, 1))
  {
    PartialUpdateLateStartAccepted(41400, [Item(1, 32400, 36000, 1), Item(2, 36000, 39600, 2)], Some(1));
  }

  /** `get_is_shared`: the token is present at all (an empty token counts). */
  function IsShared(program: Program): (shared: bool)
    reads program
    ensures Truthy(program.shareToken) ==> shared
    ensures shared <==> program.shareToken != None
  {
    program.shareToken != None
  }

  /** On every token a program can hold here (none, or a generated
      43-character one), `is_shared` and the truthiness test of the share
      view and `generate_share_token` agree. */
  lemma SharedReadingsAgree(program: Program)
    requires program.shareToken.None? || |program.shareToken.value| == TokenLength
    ensures IsShared(program) <==> Truthy(program.shareToken)
  {
  }

  /** They disagree exactly on the empty token: `is_shared` reports it as
      shared, while sharing treats the program as unshared. */
  lemma SharedReadingsDiffer(program: Program)
    ensures IsShared(program) != Truthy(program.shareToken) <==> program.shareToken == Some("")
  {
  }
}
