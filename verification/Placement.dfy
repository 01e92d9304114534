/**
 Choosing the hosts that should own a deployment: eligibility, the ranking comparator and the
 first-n selection of the admin planner (src/sdk/admin/planning.ts).
 */
module Placement {
  import opened Prelude
  import opened Sorting
  import opened Collations

  /** A number as the planner receives it; only finite ones carry a usable value. */
  datatype JsNumber = NaN | Infinite(negative: bool) | Finite(value: real)

  datatype CandidateHost = CandidateHost(
    hostId: string,
    groupId: Option<string>,
    staticLabels: map<string, string>,
    staticCapabilities: set<string>,
    maxHttpWorkerAssignments: Option<int>,
    ready: Option<bool>,
    draining: Option<bool>,
    schedulable: Option<bool>,
    currentAssignmentCount: Option<int>)

  datatype Rollout = Rollout(gradual: bool, batchSize: Option<JsNumber>, maxUnavailable: Option<JsNumber>)

  datatype Deployment = Deployment(
    deploymentId: string,
    declaredVersion: string,
    groupId: Option<string>,
    replicas: Option<JsNumber>,
    allHosts: bool,
    stickyHostIds: seq<string>,
    requiredLabels: map<string, string>,
    requiredCapabilities: set<string>,
    preferredLabels: map<string, string>,
    rollout: Rollout)

  function NormalizeReplicaCount(value: JsNumber): (n: nat)
    ensures n >= 1
  {
    match value
    case Finite(v) => if v <= 0.0 || v.Floor < 1 then 1 else v.Floor
    case _ => 1
  }

  function Replicas(d: Deployment): (n: nat)
    ensures n >= 1
  {
    NormalizeReplicaCount(d.replicas.GetOr(Finite(1.0)))
  }

  predicate Eligible(d: Deployment, c: CandidateHost) {
    && d.groupId == c.groupId
    && c.ready != Some(false) && c.draining != Some(true) && c.schedulable != Some(false)
    && (forall key :: key in d.requiredLabels ==>
                        key in c.staticLabels && c.staticLabels[key] == d.requiredLabels[key])
    && d.requiredCapabilities <= c.staticCapabilities
    && (c.maxHttpWorkerAssignments.Some? ==> c.currentAssignmentCount.GetOr(0) < c.maxHttpWorkerAssignments.value)
  }

  function EligibleFor(d: Deployment): CandidateHost -> bool {
    c => Eligible(d, c)
  }

  function PreferredLabelScore(d: Deployment, c: CandidateHost): nat {
    |set key | key in d.preferredLabels && key in c.staticLabels && c.staticLabels[key] == d.preferredLabels[key]|
  }

  predicate Sticky(d: Deployment, c: CandidateHost) {
    c.hostId in d.stickyHostIds
  }

  function CompareCandidateHosts(d: Deployment, collate: Collation, left: CandidateHost, right: CandidateHost): int {
    if Sticky(d, left) != Sticky(d, right) then
      if Sticky(d, left) then -1 else 1
    else
      var preferredScoreDiff := PreferredLabelScore(d, right) - PreferredLabelScore(d, left);
      if preferredScoreDiff != 0 then preferredScoreDiff
      else
        var leftAssignments := left.currentAssignmentCount.GetOr(0);
        var rightAssignments := right.currentAssignmentCount.GetOr(0);
        if leftAssignments != rightAssignments then leftAssignments - rightAssignments
        else collate(left.hostId, right.hostId)
  }

  function NotAfter(d: Deployment, collate: Collation): (CandidateHost, CandidateHost) -> bool {
    (left, right) => CompareCandidateHosts(d, collate, left, right) <= 0
  }

  function RankCandidateHosts(d: Deployment, collate: Collation, candidates: seq<CandidateHost>): seq<CandidateHost> {
    Sort(NotAfter(d, collate), Filter(EligibleFor(d), candidates))
  }

  function HostIds(hosts: seq<CandidateHost>): (ids: seq<string>)
    ensures |ids| == |hosts|
    ensures forall i :: 0 <= i < |ids| ==> ids[i] == hosts[i].hostId
  {
    seq(|hosts|, i requires 0 <= i < |hosts| => hosts[i].hostId)
  }

  function SelectTargetOwnerHostIds(d: Deployment, collate: Collation, candidates: seq<CandidateHost>): seq<string> {
    var eligible := HostIds(RankCandidateHosts(d, collate, candidates));
    if d.allHosts || |eligible| <= Replicas(d) then eligible else eligible[..Replicas(d)]
  }

  ghost predicate DistinctHosts(candidates: seq<CandidateHost>) {
    Distinct(HostIds(candidates))
  }

  /** The collation tells the candidates' identifiers apart. */
  ghost predicate Separates(collate: Collation, candidates: seq<CandidateHost>) {
    forall i, j :: 0 <= i < j < |candidates| ==> collate(candidates[i].hostId, candidates[j].hostId) != 0
  }

  // ---- What the parts mean ----

  /** What the deployment demands of a host and what a host reports about itself, demand by demand. */
  ghost predicate MayHost(d: Deployment, c: CandidateHost) {
    && c.groupId == d.groupId
    && (c.ready.Some? ==> c.ready.value) && (c.draining.Some? ==> !c.draining.value) && (c.schedulable.Some? ==> c.schedulable.value)
    && !(exists key :: key in d.requiredLabels && LacksLabel(d, c, key))
    && !(exists capability :: capability in d.requiredCapabilities && capability !in c.staticCapabilities)
    && !(c.maxHttpWorkerAssignments.Some? && Load(c) >= c.maxHttpWorkerAssignments.value)
  }

  ghost predicate LacksLabel(d: Deployment, c: CandidateHost, key: string)
    requires key in d.requiredLabels
  {
    key !in c.staticLabels || c.staticLabels[key] != d.requiredLabels[key]
  }

  /** Assignments the host already carries; none when it does not say. */
  ghost function Load(c: CandidateHost): int {
    match c.currentAssignmentCount
    case None => 0
    case Some(n) => n
  }

  ghost function LabelsMatched(d: Deployment, c: CandidateHost): set<string> {
    set key | key in c.staticLabels && key in d.preferredLabels && c.staticLabels[key] == d.preferredLabels[key]
  }

  lemma EligibleExactly(d: Deployment, c: CandidateHost)
    ensures Eligible(d, c) <==> MayHost(d, c)
  {
    assert Eligible(d, c) ==> forall key :: key in d.requiredLabels ==> !LacksLabel(d, c, key);
    if MayHost(d, c) {
      forall key | key in d.requiredLabels ensures key in c.staticLabels && c.staticLabels[key] == d.requiredLabels[key] {
        assert !LacksLabel(d, c, key);
      }
    }
  }

  /** Whole replicas: the number rounded down when it is at least one, and one otherwise. */
  lemma ReplicasRoundDown(d: Deployment)
    ensures match d.replicas
      case Some(Finite(v)) => if v >= 1.0 then Replicas(d) as real <= v < Replicas(d) as real + 1.0 else Replicas(d) == 1
      case _ => Replicas(d) == 1
  {
  }

  // ---- The comparator is a total preorder, strict on separated candidates ----

  lemma NotAfterLawful(d: Deployment, collate: Collation)
    ensures Lawful(NotAfter(d, collate))
  {
    var le := NotAfter(d, collate);
    forall a, b ensures le(a, b) || le(b, a) {
      assert collate(a.hostId, b.hostId) <= 0 || collate(b.hostId, a.hostId) <= 0;
    }
    forall a, b, c | le(a, b) && le(b, c) ensures le(a, c) {
      CompareTransitive(d, collate, a, b, c);
    }
  }

  lemma CompareTransitive(d: Deployment, collate: Collation, a: CandidateHost, b: CandidateHost, c: CandidateHost)
    requires CompareCandidateHosts(d, collate, a, b) <= 0 && CompareCandidateHosts(d, collate, b, c) <= 0
    ensures CompareCandidateHosts(d, collate, a, c) <= 0
  {
  }

  // ---- Facts about the ranking ----

  lemma RankFacts(d: Deployment, collate: Collation, candidates: seq<CandidateHost>)
    ensures var ranked := RankCandidateHosts(d, collate, candidates);
      && Sorted(NotAfter(d, collate), ranked)
      && forall c :: c in ranked <==> c in candidates && MayHost(d, c)
  {
    NotAfterLawful(d, collate);
    SortSorted(NotAfter(d, collate), Filter(EligibleFor(d), candidates));
    forall c ensures Eligible(d, c) <==> MayHost(d, c) {
      EligibleExactly(d, c);
    }
  }

  lemma RankDistinct(d: Deployment, collate: Collation, candidates: seq<CandidateHost>)
    requires DistinctHosts(candidates)
    ensures DistinctHosts(RankCandidateHosts(d, collate, candidates))
  {
    var ranked := RankCandidateHosts(d, collate, candidates);
    assert Distinct(candidates) by {
      forall i, j | 0 <= i < j < |candidates| ensures candidates[i] != candidates[j] {
        assert HostIds(candidates)[i] != HostIds(candidates)[j];
      }
    }
    FilterDistinct(EligibleFor(d), candidates);
    SortDistinct(NotAfter(d, collate), Filter(EligibleFor(d), candidates));
    RankFacts(d, collate, candidates);
    forall i, j | 0 <= i < j < |ranked| ensures ranked[i].hostId != ranked[j].hostId {
      assert ranked[i] in candidates && ranked[j] in candidates && ranked[i] != ranked[j];
      SameIdSameHost(candidates, ranked[i], ranked[j]);
    }
  }

  lemma SameIdSameHost(candidates: seq<CandidateHost>, a: CandidateHost, b: CandidateHost)
    requires DistinctHosts(candidates) && a in candidates && b in candidates
    ensures a.hostId == b.hostId ==> a == b
  {
    var i :| 0 <= i < |candidates| && candidates[i] == a;
    var j :| 0 <= j < |candidates| && candidates[j] == b;
    assert HostIds(candidates)[i] == a.hostId && HostIds(candidates)[j] == b.hostId;
  }

  lemma TargetDistinct(d: Deployment, collate: Collation, candidates: seq<CandidateHost>)
    requires DistinctHosts(candidates)
    ensures Distinct(SelectTargetOwnerHostIds(d, collate, candidates))
  {
    RankDistinct(d, collate, candidates);
  }

  /** How many candidates are eligible. */
  ghost function EligibleHosts(d: Deployment, candidates: seq<CandidateHost>): set<CandidateHost> {
    set c | c in candidates && MayHost(d, c)
  }

  lemma RankSize(d: Deployment, collate: Collation, candidates: seq<CandidateHost>)
    requires DistinctHosts(candidates)
    ensures |RankCandidateHosts(d, collate, candidates)| == |EligibleHosts(d, candidates)|
  {
    var ranked := RankCandidateHosts(d, collate, candidates);
    RankFacts(d, collate, candidates);
    RankDistinct(d, collate, candidates);
    forall i, j | 0 <= i < j < |ranked| ensures ranked[i] != ranked[j] {
      assert HostIds(ranked)[i] != HostIds(ranked)[j];
    }
    DistinctSize(ranked);
    assert ToSet(ranked) == EligibleHosts(d, candidates);
  }

  lemma ChosenBeforeLeftOut(
      d: Deployment, collate: Collation, candidates: seq<CandidateHost>, a: CandidateHost, b: CandidateHost)
    requires DistinctHosts(candidates) && Separates(collate, candidates)
    requires a in EligibleHosts(d, candidates) && b in EligibleHosts(d, candidates)
    requires a.hostId in SelectTargetOwnerHostIds(d, collate, candidates)
    requires b.hostId !in SelectTargetOwnerHostIds(d, collate, candidates)
    ensures CompareCandidateHosts(d, collate, a, b) < 0
  {
    var ranked := RankCandidateHosts(d, collate, candidates);
    var target := SelectTargetOwnerHostIds(d, collate, candidates);
    RankFacts(d, collate, candidates);
    var i :| 0 <= i < |target| && target[i] == a.hostId;
    SameIdSameHost(candidates, ranked[i], a);
    var j :| 0 <= j < |ranked| && ranked[j] == b;
    assert forall k :: 0 <= k < |target| ==> target[k] == ranked[k].hostId;
    SortedPair(NotAfter(d, collate), ranked, i, j);
    SeparatedCompare(d, collate, candidates, a, b);
  }

  /**
   Why `a` is chosen and `b` is left out: no sticky host is passed over for another; among equally
   sticky hosts the one that matches more preferred labels wins, among those the less loaded one, and
   among those the one that comes first by name.
   */
  ghost predicate Preferred(d: Deployment, collate: Collation, a: CandidateHost, b: CandidateHost) {
    var stickyA, stickyB := a.hostId in d.stickyHostIds, b.hostId in d.stickyHostIds;
    var matchedA, matchedB := |LabelsMatched(d, a)|, |LabelsMatched(d, b)|;
    && (stickyB ==> stickyA)
    && (stickyA == stickyB ==> matchedA >= matchedB)
    && (stickyA == stickyB && matchedA == matchedB ==> Load(a) <= Load(b))
    && (stickyA == stickyB && matchedA == matchedB && Load(a) == Load(b) ==> collate(a.hostId, b.hostId) < 0)
  }

  lemma LessIsPreferred(d: Deployment, collate: Collation, a: CandidateHost, b: CandidateHost)
    requires CompareCandidateHosts(d, collate, a, b) < 0
    ensures Preferred(d, collate, a, b)
  {
    LabelScore(d, a);
    LabelScore(d, b);
  }

  lemma LabelScore(d: Deployment, c: CandidateHost)
    ensures PreferredLabelScore(d, c) == |LabelsMatched(d, c)|
  {
    assert LabelsMatched(d, c)
        == set key | key in d.preferredLabels && key in c.staticLabels && c.staticLabels[key] == d.preferredLabels[key];
  }

  /**
   The target is exactly the n most preferred hosts that may host: as many as asked for or available,
   and each preferred, reason by reason, to every such host that was left out.
   */
  lemma TargetIsLeast(d: Deployment, collate: Collation, candidates: seq<CandidateHost>)
    requires DistinctHosts(candidates) && Separates(collate, candidates) && !d.allHosts
    ensures var target := SelectTargetOwnerHostIds(d, collate, candidates);
      var eligible := EligibleHosts(d, candidates);
      && |target| == (if |eligible| <= Replicas(d) then |eligible| else Replicas(d))
      && (forall id :: id in target ==> exists c :: c in eligible && c.hostId == id)
      && (forall a, b :: a in eligible && b in eligible && a.hostId in target && b.hostId !in target ==>
           Preferred(d, collate, a, b))
  {
    var ranked := RankCandidateHosts(d, collate, candidates);
    var target := SelectTargetOwnerHostIds(d, collate, candidates);
    var eligible := EligibleHosts(d, candidates);
    RankFacts(d, collate, candidates);
    RankSize(d, collate, candidates);
    forall id | id in target ensures exists c :: c in eligible && c.hostId == id {
      var i :| 0 <= i < |target| && target[i] == id;
      assert ranked[i] in eligible && ranked[i].hostId == id;
    }
    forall a, b | a in eligible && b in eligible && a.hostId in target && b.hostId !in target
      ensures Preferred(d, collate, a, b)
    {
      ChosenBeforeLeftOut(d, collate, candidates, a, b);
      LessIsPreferred(d, collate, a, b);
    }
  }

  /** The target lists its hosts in the order of preference. */
  lemma TargetInOrder(d: Deployment, collate: Collation, candidates: seq<CandidateHost>, i: nat, j: nat)
    requires DistinctHosts(candidates) && Separates(collate, candidates)
    requires i < j < |SelectTargetOwnerHostIds(d, collate, candidates)|
    ensures exists a, b :: a in EligibleHosts(d, candidates) && b in EligibleHosts(d, candidates)
                           && a.hostId == SelectTargetOwnerHostIds(d, collate, candidates)[i]
                           && b.hostId == SelectTargetOwnerHostIds(d, collate, candidates)[j]
                           && Preferred(d, collate, a, b)
  {
    var ranked := RankCandidateHosts(d, collate, candidates);
    RankFacts(d, collate, candidates);
    RankDistinct(d, collate, candidates);
    assert ranked[i] in ranked && ranked[j] in ranked && HostIds(ranked)[i] != HostIds(ranked)[j];
    SortedPair(NotAfter(d, collate), ranked, i, j);
    SeparatedCompare(d, collate, candidates, ranked[i], ranked[j]);
    LessIsPreferred(d, collate, ranked[i], ranked[j]);
  }

  /** In all-hosts mode the target is every candidate that may host. */
  lemma AllHostsExactly(d: Deployment, collate: Collation, candidates: seq<CandidateHost>)
    requires d.allHosts
    ensures forall id :: id in SelectTargetOwnerHostIds(d, collate, candidates) <==>
      exists c :: c in candidates && c.hostId == id && MayHost(d, c)
  {
    var ranked := RankCandidateHosts(d, collate, candidates);
    var target := SelectTargetOwnerHostIds(d, collate, candidates);
    RankFacts(d, collate, candidates);
    forall id ensures id in target <==> exists c :: c in candidates && c.hostId == id && MayHost(d, c) {
      if id in target {
        var i :| 0 <= i < |target| && target[i] == id;
        assert ranked[i] in ranked && ranked[i].hostId == id;
      }
      if c :| c in candidates && c.hostId == id && MayHost(d, c) {
        var i :| 0 <= i < |ranked| && ranked[i] == c;
        assert target[i] == id;
      }
    }
  }

  lemma SeparatedCompare(d: Deployment, collate: Collation, candidates: seq<CandidateHost>, a: CandidateHost, b: CandidateHost)
    requires Separates(collate, candidates) && a in candidates && b in candidates && a != b
    ensures CompareCandidateHosts(d, collate, a, b) != 0
  {
    var i :| 0 <= i < |candidates| && candidates[i] == a;
    var j :| 0 <= j < |candidates| && candidates[j] == b;
    assert collate(a.hostId, b.hostId) != 0;
  }

  lemma NoTies(d: Deployment, collate: Collation, candidates: seq<CandidateHost>, ranked: seq<CandidateHost>)
    requires Separates(collate, candidates) && forall c :: c in ranked ==> c in candidates
    ensures forall x, y :: x in ranked && y in ranked && NotAfter(d, collate)(x, y) && NotAfter(d, collate)(y, x) ==> x == y
  {
    forall x, y | x in ranked && y in ranked && NotAfter(d, collate)(x, y) && NotAfter(d, collate)(y, x) ensures x == y {
      if x != y { SeparatedCompare(d, collate, candidates, x, y); }
    }
  }

  /** The order in which candidates are listed never matters. */
  lemma TargetCanonical(d: Deployment, collate: Collation, a: seq<CandidateHost>, b: seq<CandidateHost>)
    requires multiset(a) == multiset(b)
    requires DistinctHosts(a) && Separates(collate, a)
    ensures SelectTargetOwnerHostIds(d, collate, a) == SelectTargetOwnerHostIds(d, collate, b)
  {
    var ra, rb := RankCandidateHosts(d, collate, a), RankCandidateHosts(d, collate, b);
    RankSameMultiset(d, collate, a, b);
    RankFacts(d, collate, a);
    RankFacts(d, collate, b);
    NotAfterLawful(d, collate);
    NoTies(d, collate, a, ra);
    SortedUnique(NotAfter(d, collate), ra, rb);
  }

  lemma RankSameMultiset(d: Deployment, collate: Collation, a: seq<CandidateHost>, b: seq<CandidateHost>)
    requires multiset(a) == multiset(b)
    ensures multiset(RankCandidateHosts(d, collate, a)) == multiset(RankCandidateHosts(d, collate, b))
  {
    FilterPermutes(EligibleFor(d), a, b);
  }

  /** Every eligible sticky host precedes every non-sticky one in the ranking. */
  lemma StickyBeforeOthers(d: Deployment, collate: Collation, candidates: seq<CandidateHost>, i: nat, j: nat)
    requires var ranked := RankCandidateHosts(d, collate, candidates);
      && i < |ranked| && j < |ranked| && !Sticky(d, ranked[i]) && Sticky(d, ranked[j])
    ensures j < i
  {
    RankFacts(d, collate, candidates);
    var ranked := RankCandidateHosts(d, collate, candidates);
    SortedPair(NotAfter(d, collate), ranked, i, j);
  }

  /** All sticky hosts being ranked, as many as there are precede any other host. */
  lemma AllStickyBefore(d: Deployment, collate: Collation, candidates: seq<CandidateHost>, i: nat)
    requires var ranked := RankCandidateHosts(d, collate, candidates);
      && i < |ranked| && !Sticky(d, ranked[i]) && Distinct(HostIds(ranked))
      && forall id :: id in d.stickyHostIds ==> id in HostIds(ranked)
    ensures |ToSet(d.stickyHostIds)| <= i
  {
    var sticky, ids := ToSet(d.stickyHostIds), HostIds(RankCandidateHosts(d, collate, candidates));
    forall id | id in sticky ensures id in ids[..i] {
      var j :| 0 <= j < |ids| && ids[j] == id;
      StickyBeforeOthers(d, collate, candidates, i, j);
      assert ids[..i][j] == id;
    }
    assert Distinct(ids[..i]);
    DistinctSize(ids[..i]);
    SubsetSize(sticky, ToSet(ids[..i]));
  }

  /**
   When as many hosts are sticky as replicas are wanted and all of them are eligible, planning
   again returns exactly those hosts, whatever other candidates are offered.
   */
  lemma TargetSticky(d: Deployment, collate: Collation, candidates: seq<CandidateHost>)
    requires DistinctHosts(candidates) && !d.allHosts
    requires |ToSet(d.stickyHostIds)| == Replicas(d)
    requires forall id :: id in d.stickyHostIds ==> exists c :: c in candidates && c.hostId == id && MayHost(d, c)
    ensures ToSet(SelectTargetOwnerHostIds(d, collate, candidates)) == ToSet(d.stickyHostIds)
  {
    var sticky := ToSet(d.stickyHostIds);
    var ranked := RankCandidateHosts(d, collate, candidates);
    var ids := HostIds(ranked);
    var target := SelectTargetOwnerHostIds(d, collate, candidates);
    RankFacts(d, collate, candidates);
    RankDistinct(d, collate, candidates);
    forall id | id in sticky ensures id in ids {
      var c :| c in candidates && c.hostId == id && MayHost(d, c);
      var k :| 0 <= k < |ranked| && ranked[k] == c;
      assert ids[k] == id;
    }
    DistinctSize(ids);
    SubsetSize(sticky, ToSet(ids));
    forall i | 0 <= i < |target| ensures target[i] in sticky {
      if !Sticky(d, ranked[i]) { AllStickyBefore(d, collate, candidates, i); }
    }
    DistinctSize(target);
    SubsetSize(ToSet(target), sticky);
  }
}
