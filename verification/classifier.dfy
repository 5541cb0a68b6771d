/** The per-order decision of the `/orders` handler: whether a fetched order
    is shown at all, and if so whether it is ready for pickup or still in
    progress with a status label. Pure over the fetched order, the
    allow-list and the clock reading `nowMs`. */
module Classifier {
  import opened Wrappers
  import opened Orders
  import StatusLabel

  /** Orders older than this many whole minutes are stale and never shown. */
  const StaleAfterMinutes: int := 35

  const ReadyStatus: string := "READY"
  const VoidedStatus: string := "VOIDED"
  const ReadyForPickup: string := "READY_FOR_PICKUP"

  datatype Classification =
    | Skipped
    | Ready(name: string, number: string)
    | InProgress(name: string, number: string, statusTime: string)

  /** `Math.round(elapsedMs / 60000)` over whole milliseconds: the whole
      number of minutes nearest to the elapsed time, a half minute rounding
      up. */
  function RoundedMinutes(elapsedMs: int): (m: int)
    ensures m * 60000 - 30000 <= elapsedMs < m * 60000 + 30000
  {
    (elapsedMs + 30000) / 60000
  }

  /** The order's age in whole minutes at clock reading `nowMs`. */
  function AgeMinutes(o: Order, nowMs: int): int {
    RoundedMinutes(nowMs - CreatedMs(o))
  }

  /** A later clock reading never gives a smaller age. */
  lemma RoundedMinutesMonotone(a: int, b: int)
    requires a <= b
    ensures RoundedMinutes(a) <= RoundedMinutes(b)
  {
  }

  /** An order is stale exactly from 35 and a half minutes on: at a rounded
      age of 35 it is still kept. */
  lemma StaleIffElapsed(elapsedMs: int)
    ensures RoundedMinutes(elapsedMs) > StaleAfterMinutes <==> elapsedMs >= 2130000
    ensures RoundedMinutes(elapsedMs) == StaleAfterMinutes <==> 2070000 <= elapsedMs < 2130000
  {
  }

  predicate Allowed(s: Selection, allow: set<string>) {
    s.groupId.Some? && s.groupId.value in allow
  }

  /** A selection that counts towards readiness: from an allowed group, not
      flagged voided, and not in the VOIDED fulfillment state. */
  predicate Valid(s: Selection, allow: set<string>) {
    Allowed(s, allow) && !s.voided && s.fulfillmentStatus != Some(VoidedStatus)
  }

  /** `selections.some(s => allow.has(s.itemGroup?.multiLocationId))`. */
  function AnyAllowed(sels: seq<Selection>, allow: set<string>): (b: bool)
    ensures b <==> exists i :: 0 <= i < |sels| && Allowed(sels[i], allow)
  {
    if |sels| == 0 then false
    else Allowed(sels[0], allow) || AnyAllowed(sels[1..], allow)
  }

  /** `selections.filter(...)` with the validity test: keeps exactly the
      valid selections, in their original order. */
  function ValidSelections(sels: seq<Selection>, allow: set<string>): (v: seq<Selection>)
    ensures |v| <= |sels|
    ensures forall s :: s in v <==> s in sels && Valid(s, allow)
    ensures forall s :: multiset(v)[s] == if Valid(s, allow) then multiset(sels)[s] else 0
  {
    if |sels| == 0 then []
    else
      assert sels == [sels[0]] + sels[1..];
      if Valid(sels[0], allow) then [sels[0]] + ValidSelections(sels[1..], allow)
      else ValidSelections(sels[1..], allow)
  }

  /** The filter keeps the original order: filtering a concatenation
      concatenates the filtered parts, so every valid selection of `a`
      comes before every valid selection of `b`. */
  lemma {:induction false} ValidSelectionsAppend(a: seq<Selection>, b: seq<Selection>, allow: set<string>)
    ensures ValidSelections(a + b, allow) == ValidSelections(a, allow) + ValidSelections(b, allow)
    decreases |a|
  {
    if |a| > 0 {
      assert (a + b)[1..] == a[1..] + b;
      ValidSelectionsAppend(a[1..], b, allow);
    } else {
      assert a + b == b;
    }
  }

  /** `v.every(s => s.fulfillmentStatus === 'READY')`. */
  function AllReady(v: seq<Selection>): (b: bool)
    ensures b <==> forall i :: 0 <= i < |v| ==> v[i].fulfillmentStatus == Some(ReadyStatus)
  {
    if |v| == 0 then true
    else v[0].fulfillmentStatus == Some(ReadyStatus) && AllReady(v[1..])
  }

  /** An order passes the admission filter: it has a truthy display number and
      some selection of its first check is from an allowed group. */
  ghost predicate Admitted(o: Order, allow: set<string>) {
    var sels := FirstSelections(o);
    Truthy(o.displayNumber) && exists i :: 0 <= i < |sels| && Allowed(sels[i], allow)
  }

  /** The readiness rule stated over the selections themselves: some
      selection is valid and every valid one is READY, or the order-level
      approval status says READY_FOR_PICKUP. */
  ghost predicate ReadySpec(o: Order, allow: set<string>) {
    var sels := FirstSelections(o);
    || ((exists i :: 0 <= i < |sels| && Valid(sels[i], allow))
        && (forall i :: 0 <= i < |sels| && Valid(sels[i], allow) ==>
              sels[i].fulfillmentStatus == Some(ReadyStatus)))
    || o.approvalStatus == Some(ReadyForPickup)
  }

  /** The hybrid readiness test of the handler, over the filtered list. */
  function IsOrderReady(o: Order, allow: set<string>): (b: bool)
    ensures b <==> ReadySpec(o, allow)
  {
    var sels := FirstSelections(o);
    var v := ValidSelections(sels, allow);
    assert |v| > 0 <==> exists i :: 0 <= i < |sels| && Valid(sels[i], allow) by {
      if |v| > 0 {
        assert v[0] in v;
      }
      if i :| 0 <= i < |sels| && Valid(sels[i], allow) {
        assert sels[i] in v;
      }
    }
    assert AllReady(v) <==> forall i :: 0 <= i < |sels| && Valid(sels[i], allow) ==>
                                sels[i].fulfillmentStatus == Some(ReadyStatus) by {
      if AllReady(v) {
        forall i | 0 <= i < |sels| && Valid(sels[i], allow)
          ensures sels[i].fulfillmentStatus == Some(ReadyStatus)
        {
          assert sels[i] in v;
        }
      } else {
        var j :| 0 <= j < |v| && v[j].fulfillmentStatus != Some(ReadyStatus);
        assert v[j] in v;
        var i :| 0 <= i < |sels| && sels[i] == v[j];
      }
    }
    (|v| > 0 && AllReady(v)) || o.approvalStatus == Some(ReadyForPickup)
  }

  /** Classifies one fetched order at clock reading `nowMs`. */
  function Classify(o: Order, allow: set<string>, nowMs: int): (c: Classification)
    ensures c.Skipped? <==> !Admitted(o, allow) || AgeMinutes(o, nowMs) > StaleAfterMinutes
    ensures c.Ready? <==>
      Admitted(o, allow) && AgeMinutes(o, nowMs) <= StaleAfterMinutes && ReadySpec(o, allow)
    ensures !c.Skipped? ==> c.name == DisplayName(o) && c.number == o.displayNumber.value
    ensures c.InProgress? ==>
      c.statusTime == StatusLabel.Render(StatusLabel.StatusOf(AgeMinutes(o, nowMs)))
  {
    var name := DisplayName(o);
    var sels := FirstSelections(o);
    if !Truthy(o.displayNumber) || !AnyAllowed(sels, allow) then Skipped
    else
      var age := AgeMinutes(o, nowMs);
      if age > StaleAfterMinutes then Skipped
      else if IsOrderReady(o, allow) then Ready(name, o.displayNumber.value)
      else InProgress(name, o.displayNumber.value, StatusLabel.Label(age))
  }

  /** Once an order is skipped it stays skipped as the clock advances:
      admission does not depend on time and staleness only grows. */
  lemma SkippedStaysSkipped(o: Order, allow: set<string>, t1: int, t2: int)
    requires t1 <= t2
    requires Classify(o, allow, t1).Skipped?
    ensures Classify(o, allow, t2).Skipped?
  {
    RoundedMinutesMonotone(t1 - CreatedMs(o), t2 - CreatedMs(o));
  }

  /** An order without a creation date is aged from the epoch, so it is
      skipped at every clock reading from 35 and a half minutes past the
      epoch on. */
  lemma MissingCreatedIsStale(o: Order, allow: set<string>, nowMs: int)
    requires o.createdMs.None?
    requires nowMs >= 2130000
    ensures Classify(o, allow, nowMs).Skipped?
  {
    StaleIffElapsed(nowMs);
  }

  /** Only the first check is ever looked at: whatever follows it, the
      classification is the same. */
  lemma OnlyFirstCheckMatters(o: Order, later: seq<Check>, allow: set<string>, nowMs: int)
    requires |o.checks| > 0
    ensures Classify(o.(checks := [o.checks[0]] + later), allow, nowMs) == Classify(o, allow, nowMs)
  {
    var o' := o.(checks := [o.checks[0]] + later);
    assert DisplayName(o') == DisplayName(o);
    assert FirstSelections(o') == FirstSelections(o);
    assert AgeMinutes(o', nowMs) == AgeMinutes(o, nowMs);
    assert IsOrderReady(o', allow) == IsOrderReady(o, allow);
  }

  /** An order numbered 42 with a single selection, created at the epoch. */
  function SampleOrder(tab: Option<string>, sel: Selection, approval: Option<string>): Order {
    Order(Some("42"), Some(0), [Check(tab, [sel])], approval)
  }

  /** A kitchen-confirmed pickup is ready even when its only item is voided. */
  lemma PickupReadyWithAllItemsVoided(allow: set<string>, g: string)
    requires g in allow
    ensures
      var o := SampleOrder(None, Selection(Some(g), true, Some(ReadyStatus)), Some(ReadyForPickup));
      Classify(o, allow, 10 * 60000) == Ready(GuestName, "42")
  {
  }

  /** At 36 minutes an order is gone, however ready it is. */
  lemma StaleEvenWhenReadyForPickup(allow: set<string>, g: string)
    requires g in allow
    ensures
      var o := SampleOrder(Some("Ann"), Selection(Some(g), false, Some(ReadyStatus)), Some(ReadyForPickup));
      Classify(o, allow, 36 * 60000).Skipped? && !Classify(o, allow, 35 * 60000).Skipped?
  {
  }

  /** A cooking order of age 16 is almost ready; at age 25 it is overdue. */
  lemma InProgressLabels(allow: set<string>, g: string)
    requires g in allow
    ensures
      var o := SampleOrder(Some("Ann"), Selection(Some(g), false, Some("IN_PROGRESS")), None);
      && Classify(o, allow, 16 * 60000) == InProgress("Ann", "42", "Almost ready")
      && Classify(o, allow, 25 * 60000) == InProgress("Ann", "42", "25 mins ago")
  {
    var o := SampleOrder(Some("Ann"), Selection(Some(g), false, Some("IN_PROGRESS")), None);
    assert !IsOrderReady(o, allow);
    assert AgeMinutes(o, 16 * 60000) == 16;
    assert AgeMinutes(o, 25 * 60000) == 25;
    StatusLabel.FixedTextBoundaries();
    StatusLabel.OverdueBoundaries();
  }
}
