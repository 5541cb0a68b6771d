/** The order record as the point-of-sale order-detail endpoint returns it,
    reduced to the fields the order board reads, and the fixed allow-list of
    menu groups whose items the board shows. Absent JSON fields are `None`;
    an absent `checks` or `selections` array is the empty sequence, which the
    handler cannot tell apart from an empty one. */
module Orders {
  import opened Wrappers

  /** One line item. `groupId` is the item group's cross-location id
      (`itemGroup.multiLocationId`), absent when the item group or its id is. */
  datatype Selection = Selection(
    groupId: Option<string>,
    voided: bool,
    fulfillmentStatus: Option<string>)

  datatype Check = Check(tabName: Option<string>, selections: seq<Selection>)

  /** `createdMs` is the creation time in milliseconds since the epoch. */
  datatype Order = Order(
    displayNumber: Option<string>,
    createdMs: Option<int>,
    checks: seq<Check>,
    approvalStatus: Option<string>)

  const GuestName: string := "Guest"

  /** The first check's tab name when it is truthy, the guest placeholder
      otherwise; later checks are never looked at. */
  function DisplayName(o: Order): (name: string)
    ensures name != ""
    ensures |o.checks| > 0 && Truthy(o.checks[0].tabName) ==> name == o.checks[0].tabName.value
    ensures (|o.checks| == 0 || !Truthy(o.checks[0].tabName)) ==> name == GuestName
  {
    if |o.checks| > 0 && Truthy(o.checks[0].tabName) then o.checks[0].tabName.value else GuestName
  }

  /** The selections of the first check, the only ones the handler inspects. */
  function FirstSelections(o: Order): (sels: seq<Selection>)
    ensures |o.checks| == 0 ==> sels == []
    ensures |o.checks| > 0 ==> sels == o.checks[0].selections
  {
    if |o.checks| > 0 then o.checks[0].selections else []
  }

  /** The creation time the age is measured from: a missing `createdDate`
      becomes `null`, and `new Date(null)` is the epoch. */
  function CreatedMs(o: Order): int {
    match o.createdMs
    case Some(t) => t
    case None => 0
  }

  /** The allow-list in source order. The last two entries, one listed as
      the misc group and one as eggs and omelets, carry the same id. */
  const AllowedMenuGroupList: seq<string> := [
    "900000005197891538",
    "900000005197890750",
    "900000005197893437",
    "900000005197891749",
    "900000005197891915",
    "900000005197891715",
    "900000005197890752",
    "900000005197890902",
    "900000005197890930",
    "900000005197891170",
    "900000005197891160",
    "900000005197891160"
  ]

  /** The allow-list as the `Set` the handler tests membership in. */
  function AllowedMenuGroups(): (allow: set<string>)
    ensures forall i :: 0 <= i < |AllowedMenuGroupList| ==> AllowedMenuGroupList[i] in allow
    ensures forall g :: g in allow ==> g in AllowedMenuGroupList
  {
    set g | g in AllowedMenuGroupList
  }

  /** Twelve listed ids make eleven members: the duplicated id counts once. */
  lemma AllowListDuplicateCountsOnce()
    ensures |AllowedMenuGroupList| == 12
    ensures |AllowedMenuGroups()| == 11
    ensures AllowedMenuGroupList[10] == AllowedMenuGroupList[11]
  {
    var l := AllowedMenuGroupList;
    var first := l[..11];
    assert forall i, j :: 0 <= i < j < |first| ==> first[i] != first[j];
    DistinctMembers(first);
    assert AllowedMenuGroups() == set g | g in first by {
      assert l == first + [l[10]];
    }
  }

  /** A sequence without repeated elements has as many members as elements. */
  lemma {:induction false} DistinctMembers<T>(l: seq<T>)
    requires forall i, j :: 0 <= i < j < |l| ==> l[i] != l[j]
    ensures |set x | x in l| == |l|
  {
    if |l| > 0 {
      var init := l[..|l| - 1];
      DistinctMembers(init);
      assert (set x | x in l) == (set x | x in init) + {l[|l| - 1]};
      assert l[|l| - 1] !in (set x | x in init);
    }
  }
}
