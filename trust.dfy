/**
 * Trust tiers ("rings"): the per-tier allowance table, the per-tier entry
 * requirements, and the progress of a profile towards the next tier.
 */
module Trust {
  import opened Wrappers

  /** The five tiers, compared numerically as the source's enum is. */
  type RingLevel = r: int | 0 <= r <= 4

  const Guest: RingLevel := 0
  const Local: RingLevel := 1
  const Resident: RingLevel := 2
  const OldTimer: RingLevel := 3
  const Guardian: RingLevel := 4

  /** A `maxActiveZones` value that means "no limit". */
  const Unlimited: int := -1

  /** What a tier allows. */
  datatype RingLimit = RingLimit(
    messagesPerHour: nat,
    canSendDM: bool,
    canCreateZone: bool,
    canCreatePermanentZone: bool,
    maxActiveZones: int)

  /** What a profile needs to be admitted to a tier. */
  datatype Requirement = Requirement(activeDays: nat, karma: int, phone: bool)

  /**
   * The `RING_LIMITS` table. Each privilege opens at one tier and stays open
   * above it, creating permanent zones needs creating zones needs direct
   * messages, and a tier that may create zones has room for at least one.
   */
  function RingLimits(ring: RingLevel): (r: RingLimit)
    ensures 10 <= r.messagesPerHour <= 1000
    ensures r.canSendDM <==> ring >= Local
    ensures r.canCreateZone <==> ring >= Resident
    ensures r.canCreatePermanentZone <==> ring >= OldTimer
    ensures r.canCreatePermanentZone ==> r.canCreateZone
    ensures r.canCreateZone ==> r.canSendDM
    ensures r.maxActiveZones == Unlimited <==> ring == Guardian
    ensures r.canCreateZone <==> r.maxActiveZones != 0
    ensures r.maxActiveZones >= Unlimited
  {
    if ring == Guest then RingLimit(10, false, false, false, 0)
    else if ring == Local then RingLimit(60, true, false, false, 0)
    else if ring == Resident then RingLimit(120, true, true, false, 1)
    else if ring == OldTimer then RingLimit(300, true, true, true, 3)
    else RingLimit(1000, true, true, true, Unlimited)
  }

  /**
   * The `RING_REQUIREMENTS` table. Every tier above Guest needs a phone, and
   * Guest asks for nothing beyond non-negative counts.
   */
  function RingRequirements(ring: RingLevel): (r: Requirement)
    ensures r.phone <==> ring != Guest
    ensures ring == Guest ==> r.activeDays == 0 && r.karma == 0
    ensures r.karma >= 0
    ensures ring != Guest ==> r.activeDays >= 3
  {
    if ring == Guest then Requirement(0, 0, false)
    else if ring == Local then Requirement(3, 0, true)
    else if ring == Resident then Requirement(14, 50, true)
    else if ring == OldTimer then Requirement(60, 200, true)
    else Requirement(180, 1000, true)
  }

  /** `a` allows at most as many zones as `b`, reading -1 as unlimited. */
  predicate ZoneAllowanceAtMost(a: int, b: int)
  {
    b == Unlimited || (a != Unlimited && a <= b)
  }

  /** Allowances never shrink with tier; messages per hour strictly grow. */
  lemma RingLimitsMonotone(a: RingLevel, b: RingLevel)
    requires a < b
    ensures RingLimits(a).messagesPerHour < RingLimits(b).messagesPerHour
    ensures RingLimits(a).canSendDM ==> RingLimits(b).canSendDM
    ensures RingLimits(a).canCreateZone ==> RingLimits(b).canCreateZone
    ensures RingLimits(a).canCreatePermanentZone ==> RingLimits(b).canCreatePermanentZone
    ensures ZoneAllowanceAtMost(RingLimits(a).maxActiveZones, RingLimits(b).maxActiveZones)
  {
  }

  /** Requirements never decrease with tier, and phone stays required from Local up. */
  lemma RingRequirementsMonotone(a: RingLevel, b: RingLevel)
    requires a <= b
    ensures RingRequirements(a).activeDays <= RingRequirements(b).activeDays
    ensures RingRequirements(a).karma <= RingRequirements(b).karma
    ensures RingRequirements(a).phone ==> RingRequirements(b).phone
    ensures Local <= a ==> RingRequirements(a).phone
  {
  }

  /** The subset of a user profile the progress computation reads. */
  datatype Profile = Profile(activeDays: int, karma: int, phone: Option<string>, ring: RingLevel)

  /** `!!profile.phone`: a missing phone and an empty string both count as absent. */
  predicate HasPhone(p: Profile): (b: bool)
    ensures b <==> p.phone.Some? && |p.phone.value| > 0
  {
    p.phone.Some? && p.phone.value != ""
  }

  /** The profile meets every entry requirement of `ring`. */
  predicate Qualifies(p: Profile, ring: RingLevel)
  {
    var req := RingRequirements(ring);
    p.activeDays >= req.activeDays && p.karma >= req.karma && (!req.phone || HasPhone(p))
  }

  /** Meeting a tier's requirements means meeting those of every tier below it. */
  lemma QualifiesDownward(p: Profile, a: RingLevel, b: RingLevel)
    requires a <= b && Qualifies(p, b)
    ensures Qualifies(p, a)
  {
    RingRequirementsMonotone(a, b);
  }

  /** One requirement dimension: what the profile has, what is needed, and whether it suffices. */
  datatype Check<T> = Check(current: T, required: T, met: bool)

  datatype Progress = Progress(activeDays: Check<int>, karma: Check<int>, phone: Check<bool>)

  datatype RingProgress = RingProgress(
    nextRing: Option<RingLevel>,
    progress: Option<Progress>,
    overallProgress: real)

  /** `flags.filter(Boolean)`: the true entries, in order. */
  function FilterTrue(flags: seq<bool>): (r: seq<bool>)
    ensures |r| <= |flags|
    ensures forall i :: 0 <= i < |r| ==> r[i]
  {
    if flags == [] then []
    else if flags[0] then [true] + FilterTrue(flags[1..])
    else FilterTrue(flags[1..])
  }

  /** `filter(Boolean)` keeps exactly one entry per true flag. */
  lemma {:induction false} FilterTrueCount(flags: seq<bool>)
    ensures |FilterTrue(flags)| == multiset(flags)[true]
  {
    if flags != [] {
      assert flags == [flags[0]] + flags[1..];
      FilterTrueCount(flags[1..]);
    }
  }

  /** `[...].filter(Boolean).length` over the three `met` flags: how many of them hold. */
  function MetCount(pr: Progress): (n: nat)
    ensures n == |FilterTrue([pr.activeDays.met, pr.karma.met, pr.phone.met])|
    ensures n <= 3
    ensures n == 3 <==> pr.activeDays.met && pr.karma.met && pr.phone.met
    ensures n == 0 <==> !pr.activeDays.met && !pr.karma.met && !pr.phone.met
  {
    var flags := [pr.activeDays.met, pr.karma.met, pr.phone.met];
    var last := [pr.phone.met];
    var two := [pr.karma.met, pr.phone.met];
    assert last[1..] == [] && two[1..] == last && flags[1..] == two;
    assert |FilterTrue(last)| == if pr.phone.met then 1 else 0;
    assert |FilterTrue(two)| == (if pr.karma.met then 1 else 0) + |FilterTrue(last)|;
    assert |FilterTrue(flags)| == (if pr.activeDays.met then 1 else 0) + |FilterTrue(two)|;
    (if pr.activeDays.met then 1 else 0) + (if pr.karma.met then 1 else 0)
      + (if pr.phone.met then 1 else 0)
  }

  /** `getRingProgress`: progress of `p` towards the next tier. */
  function GetRingProgress(p: Profile): (r: RingProgress)
    ensures r.nextRing.None? <==> p.ring == Guardian
    ensures p.ring == Guardian ==> r.progress.None? && r.overallProgress == 1.0
    ensures p.ring < Guardian ==>
      && r.nextRing == Some(p.ring + 1)
      && r.progress.Some?
      && var req, pr := RingRequirements(p.ring + 1), r.progress.value;
      && pr.activeDays == Check(p.activeDays, req.activeDays as int, p.activeDays >= req.activeDays)
      && pr.karma == Check(p.karma, req.karma, p.karma >= req.karma)
      && pr.phone == Check(HasPhone(p), req.phone, !req.phone || HasPhone(p))
    ensures p.ring < Guardian ==> r.overallProgress == MetCount(r.progress.value) as real / 3.0
    ensures r.overallProgress in {0.0, 1.0 / 3.0, 2.0 / 3.0, 1.0}
    ensures r.overallProgress == 1.0 <==> p.ring == Guardian || Qualifies(p, p.ring + 1)
    ensures r.overallProgress == 0.0 <==>
      && p.ring < Guardian
      && var req := RingRequirements(p.ring + 1);
      && p.activeDays < req.activeDays && p.karma < req.karma && req.phone && !HasPhone(p)
  {
    if p.ring >= Guardian then
      RingProgress(None, None, 1.0)
    else
      var next: RingLevel := p.ring + 1;
      var req := RingRequirements(next);
      var pr := Progress(
        Check(p.activeDays, req.activeDays as int, p.activeDays >= req.activeDays),
        Check(p.karma, req.karma, p.karma >= req.karma),
        Check(HasPhone(p), req.phone, !req.phone || HasPhone(p)));
      RingProgress(Some(next), Some(pr), (MetCount(pr) as real) / 3.0)
  }

  /** A new Guest with nothing yet meets only the karma requirement of Local. */
  lemma FreshGuestProgress()
    ensures var r := GetRingProgress(Profile(0, 0, None, Guest));
      && r.nextRing == Some(Local)
      && r.overallProgress == 1.0 / 3.0
      && r.progress.Some?
      && !r.progress.value.activeDays.met
      && r.progress.value.karma.met
      && !r.progress.value.phone.met
  {
  }

  /** A Guest with three active days and no phone meets two of Local's three requirements. */
  lemma TwoOfThreeExample()
    ensures GetRingProgress(Profile(3, 0, None, Guest)).overallProgress == 2.0 / 3.0
  {
  }

  /** A phone number given as the empty string does not satisfy a phone requirement. */
  lemma EmptyPhoneIsAbsent(days: int, karma: int, ring: RingLevel)
    requires ring < Guardian
    ensures var r := GetRingProgress(Profile(days, karma, Some(""), ring));
      r.progress.Some? && !r.progress.value.phone.met
  {
  }
}
