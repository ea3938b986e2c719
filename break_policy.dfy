/**
 * Break policies and the choice of the break type used for manually recorded
 * breaks (`manual_break_type`, the same code in both revisions), plus the
 * role-keyed lookup of the active policy (`active_break_policy`).
 */
module BreakPolicy {
  import opened Wrappers
  import ApiErrors

  /** A company break type; its optional floating-point length limits are not modelled. */
  datatype BreakType = BreakType(id: string, deleted: bool, description: string, enforceMinLength: bool, enforceMaxLength: bool)

  /** An entry of the policy's eligible list: which type, and whether it may be recorded manually. */
  datatype EligibleBreakType = EligibleBreakType(allowManual: bool, breakTypeId: string)

  datatype Policy = Policy(id: string, breakTypes: seq<BreakType>, eligibleBreakTypes: seq<EligibleBreakType>)

  /** The active time and break policy of one role. */
  datatype ActivePolicy = ActivePolicy(timePolicy: string, breakPolicy: string, role: string, defaultTimezone: string)

  /** Some eligible entry allows `id` to be recorded manually. */
  predicate ManuallyEligible(eligible: seq<EligibleBreakType>, id: string) {
    exists k :: 0 <= k < |eligible| && eligible[k].allowManual && eligible[k].breakTypeId == id
  }

  /** Eligibility of a non-empty list splits into its head and its tail. */
  lemma EligibleSplit(eligible: seq<EligibleBreakType>, id: string)
    requires eligible != []
    ensures ManuallyEligible(eligible, id) <==>
      (eligible[0].allowManual && eligible[0].breakTypeId == id) || ManuallyEligible(eligible[1..], id)
  {
    if ManuallyEligible(eligible, id) && !(eligible[0].allowManual && eligible[0].breakTypeId == id) {
      var k :| 0 <= k < |eligible| && eligible[k].allowManual && eligible[k].breakTypeId == id;
      assert eligible[1..][k - 1] == eligible[k];
    }
    if ManuallyEligible(eligible[1..], id) {
      var k :| 0 <= k < |eligible[1..]| && eligible[1..][k].allowManual && eligible[1..][k].breakTypeId == id;
      assert eligible[k + 1] == eligible[1..][k];
    }
  }

  /** `filter(allow_manual).map(break_type_id).collect()`. */
  function ManualIds(eligible: seq<EligibleBreakType>): (ids: seq<string>)
    ensures forall id :: id in ids <==> ManuallyEligible(eligible, id)
  {
    if eligible == [] then []
    else
      var ids := (if eligible[0].allowManual then [eligible[0].breakTypeId] else []) + ManualIds(eligible[1..]);
      assert forall id :: id in ids <==> ManuallyEligible(eligible, id) by {
        forall id ensures id in ids <==> ManuallyEligible(eligible, id) {
          EligibleSplit(eligible, id);
        }
      }
      ids
  }

  predicate Qualifies(t: BreakType, ids: seq<string>) {
    !t.deleted && t.id in ids
  }

  /** `find` over the break types. */
  function FirstQualifying(types: seq<BreakType>, ids: seq<string>): (r: Option<nat>)
    ensures r.Some? ==> (r.value < |types| && Qualifies(types[r.value], ids) &&
      forall j :: 0 <= j < r.value ==> !Qualifies(types[j], ids))
    ensures r.None? ==> forall j :: 0 <= j < |types| ==> !Qualifies(types[j], ids)
  {
    if types == [] then None
    else if Qualifies(types[0], ids) then Some(0)
    else match FirstQualifying(types[1..], ids)
      case None => None
      case Some(k) => Some(k + 1)
  }

  /** Not deleted, and eligible for manual recording in `p`. */
  predicate Selectable(p: Policy, t: BreakType) {
    !t.deleted && ManuallyEligible(p.eligibleBreakTypes, t.id)
  }

  /**
   * `manual_break_type`: the first break type, in the policy's order, that is
   * not deleted and is listed as eligible with manual recording allowed.
   */
  function ManualBreakType(p: Policy): (r: Option<BreakType>)
    ensures r.Some? ==> !r.value.deleted && ManuallyEligible(p.eligibleBreakTypes, r.value.id)
    ensures r.Some? ==> exists k :: (0 <= k < |p.breakTypes| && p.breakTypes[k] == r.value &&
      forall j :: 0 <= j < k ==> !Selectable(p, p.breakTypes[j]))
    ensures r.None? <==> forall j :: 0 <= j < |p.breakTypes| ==> !Selectable(p, p.breakTypes[j])
  {
    var ids := ManualIds(p.eligibleBreakTypes);
    match FirstQualifying(p.breakTypes, ids)
    case None => None
    case Some(k) => Some(p.breakTypes[k])
  }

  lemma {:induction false} ManualIdsAppend(a: seq<EligibleBreakType>, b: seq<EligibleBreakType>)
    ensures ManualIds(a + b) == ManualIds(a) + ManualIds(b)
    decreases |a|
  {
    if a == [] {
      assert a + b == b;
    } else {
      assert (a + b)[0] == a[0];
      assert (a + b)[1..] == a[1..] + b;
      ManualIdsAppend(a[1..], b);
    }
  }

  /**
   * Eligible entries that do not allow manual recording never make a type
   * selectable: adding one anywhere changes nothing.
   */
  lemma NonManualEntryIgnored(p: Policy, i: nat, e: EligibleBreakType)
    requires i <= |p.eligibleBreakTypes| && !e.allowManual
    ensures var eligible := p.eligibleBreakTypes[..i] + [e] + p.eligibleBreakTypes[i..];
      ManualBreakType(p.(eligibleBreakTypes := eligible)) == ManualBreakType(p)
  {
    var el := p.eligibleBreakTypes;
    ManualIdsAppend(el[..i] + [e], el[i..]);
    ManualIdsAppend(el[..i], [e]);
    ManualIdsAppend(el[..i], el[i..]);
    assert ManualIds([e]) == [] by { assert [e][1..] == []; }
    assert el[..i] + el[i..] == el;
    assert ManualIds(el[..i] + [e] + el[i..]) == ManualIds(el);
  }

  /** Deleted types are never chosen, even if eligible and listed first. */
  lemma DeletedTypeSkipped(p: Policy, t: BreakType)
    requires t.deleted
    ensures ManualBreakType(p.(breakTypes := [t] + p.breakTypes)) == ManualBreakType(p)
  {
    var ids := ManualIds(p.eligibleBreakTypes);
    assert ([t] + p.breakTypes)[1..] == p.breakTypes;
    var r := FirstQualifying([t] + p.breakTypes, ids);
    var r0 := FirstQualifying(p.breakTypes, ids);
    assert r0.Some? ==> r == Some(r0.value + 1);
    assert r0.None? ==> r.None?;
  }

  /**
   * `active_break_policy`: once the map is fetched, the client's role is
   * unwrapped (aborting for a client without one) and its entry removed,
   * `UnexpectedPayload` when the map has none.
   */
  function ActiveBreakPolicy(response: Result<map<string, ActivePolicy>, ApiErrors.Error>, role: Option<string>):
    (r: Outcome<Result<ActivePolicy, ApiErrors.Error>>)
    ensures response.Err? ==> r == Returned(Err(response.error))
    ensures r.Panicked? <==> response.Ok? && role.None?
    ensures response.Ok? && role.Some? && role.value !in response.value ==> r == Returned(Err(ApiErrors.UnexpectedPayload))
    ensures response.Ok? && role.Some? && role.value in response.value ==> r == Returned(Ok(response.value[role.value]))
  {
    match response
    case Err(e) => Returned(Err(e))
    case Ok(m) =>
      match role
      case None => Panicked("self.role().unwrap()")
      case Some(key) => if key in m then Returned(Ok(m[key])) else Returned(Err(ApiErrors.UnexpectedPayload))
  }
}
