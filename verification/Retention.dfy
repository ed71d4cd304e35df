/** Which backups to keep and which to delete. Times are nanoseconds, zero standing for a missing time. */
module Retention {
  import opened Collections
  import opened Wrappers
  import opened Trimming
  import opened NewestFirst
  import opened StableSorting

  const MAX_ARTIFACT_NAME_LENGTH := 128
  const MAX_BACKUP_ID_LENGTH := 64
  const MAX_RETENTION_COUNT := 90
  const DAY := 24 * 3600 * 1_000_000_000
  const DIGEST_LENGTH := 64

  datatype Artifact = Artifact(name: string, kind: string, sizeBytes: int, sha256: string)

  datatype Plan = Plan(id: string, createdAt: int, artifacts: seq<Artifact>)

  datatype Policy = Policy(keepLast: int, maxAge: int)

  datatype Decision = Decision(keep: seq<string>, delete: seq<string>)

  // ----- checking and normalising a plan -----

  predicate IdentifierStart(c: char) {
    'a' <= c <= 'z' || '0' <= c <= '9'
  }

  predicate ValidIdentifier(s: string, limit: nat) {
    && 0 < |s| <= limit
    && IdentifierStart(s[0])
    && forall c <- s :: IdentifierStart(c) || c == '.' || c == '_' || c == '-'
  }

  predicate ValidDigest(lower: string) {
    |lower| == DIGEST_LENGTH && forall c <- lower :: '0' <= c <= '9' || 'a' <= c <= 'f'
  }

  predicate ValidKind(kind: string) {
    kind in {"postgresql_schema", "postgresql_data", "sqlite_legacy", "config_manifest"}
  }

  /** The four kinds of backup: two parts of the database, the old database, and the configuration. */
  lemma KindsOfBackup(kind: string)
    ensures ValidKind(kind) <==>
              || kind == "postgresql_schema" || kind == "postgresql_data"
              || kind == "sqlite_legacy" || kind == "config_manifest"
  {
  }

  /** Names are of lower-case letters, digits and three marks, and start with no mark; digests are 64 lower-case
      hexadecimal digits, and in a given digest letters may be capitals. */
  lemma NamesAndDigests(s: string, limit: nat)
    ensures ValidIdentifier(s, limit) <==>
              && 1 <= |s| <= limit && s[0] !in {'.', '_', '-'}
              && forall c <- s :: 97 <= c as int <= 122 || 48 <= c as int <= 57 || c as int in {45, 46, 95}
    ensures ValidDigest(Lower(s)) <==>
              && |s| == 64
              && forall c <- s :: 97 <= c as int <= 102 || 65 <= c as int <= 70 || 48 <= c as int <= 57
  {
    var lower := Lower(s);
    forall c: char
      ensures ('0' <= LowerChar(c) <= '9' || 'a' <= LowerChar(c) <= 'f') <==>
                97 <= c as int <= 102 || 65 <= c as int <= 70 || 48 <= c as int <= 57
    {
      LettersMove(c);
    }
    assert forall i :: 0 <= i < |s| ==> lower[i] == LowerChar(s[i]) && lower[i] in lower && s[i] in s;
  }

  function NormalizeArtifact(artifact: Artifact): Option<Artifact> {
    if ValidIdentifier(artifact.name, MAX_ARTIFACT_NAME_LENGTH) && ValidKind(artifact.kind)
       && artifact.sizeBytes >= 0 && ValidDigest(Lower(artifact.sha256))
    then Some(artifact.(sha256 := Lower(artifact.sha256)))
    else None
  }

  /** An artifact is accepted exactly if its name, kind and digest are valid and its size is not negative; nothing of it
      changes but the capitals of its digest. */
  lemma ArtifactsMean(artifact: Artifact)
    ensures var normal := NormalizeArtifact(artifact);
            && (normal.None? <==>
                  || !ValidIdentifier(artifact.name, 128) || !ValidKind(artifact.kind) || artifact.sizeBytes <= -1
                  || !ValidDigest(Lower(artifact.sha256)))
            && (normal.Some? ==>
                  && normal.value.name == artifact.name && normal.value.kind == artifact.kind
                  && normal.value.sizeBytes == artifact.sizeBytes
                  && |normal.value.sha256| == |artifact.sha256|
                  && forall i :: 0 <= i < |artifact.sha256| ==>
                       normal.value.sha256[i] == LowerChar(artifact.sha256[i]))
  {
  }

  function ByName(artifact: Artifact): Stamp {
    Stamp(0, "", artifact.name)
  }

  function ById(plan: Plan): Stamp {
    Stamp(plan.createdAt, "", plan.id)
  }

  /** A plan is acceptable when its own fields and all of its artifacts are, and no two artifacts share a name. */
  ghost predicate Acceptable(plan: Plan) {
    && ValidIdentifier(plan.id, MAX_BACKUP_ID_LENGTH) && plan.createdAt != 0 && plan.artifacts != []
    && (forall artifact <- plan.artifacts :: NormalizeArtifact(artifact).Some?)
    && DistinctStamps(plan.artifacts, ByName)
  }

  /** The artifacts of the normalised plan are the plan's own, with lower-case digests, in order of name. */
  ghost predicate Normalizes(plan: Plan, normal: Plan) {
    && normal.id == plan.id && normal.createdAt == plan.createdAt
    && InOrder(normal.artifacts, ByName)
    && |normal.artifacts| == |plan.artifacts|
    && forall artifact :: artifact in normal.artifacts <==>
         exists given <- plan.artifacts :: NormalizeArtifact(given) == Some(artifact)
  }

  method NormalizePlan(plan: Plan) returns (normal: Option<Plan>)
    ensures normal.Some? <==> Acceptable(plan)
    ensures normal.Some? ==> Normalizes(plan, normal.value)
  {
    hide InOrder, NormalizeArtifact, ValidIdentifier, Sort, DistinctStamps;
    if !ValidIdentifier(plan.id, MAX_BACKUP_ID_LENGTH) || plan.createdAt == 0 || plan.artifacts == [] {
      return None;
    }
    var artifacts: seq<Artifact>, seen := [], {};
    NoneRepeats();
    for i := 0 to |plan.artifacts|
      invariant EachNormalized(plan.artifacts[..i], artifacts)
      invariant forall name :: name in seen <==> exists artifact <- artifacts :: artifact.name == name
      invariant DistinctStamps(artifacts, ByName)
    {
      var item := NormalizeArtifact(plan.artifacts[i]);
      if item.None? {
        return None;
      }
      OneMore(plan.artifacts, i, artifacts, item.value);
      if item.value.name in seen {
        NameTaken(plan, i, artifacts, item.value);
        return None;
      }
      AppendDistinct(artifacts, item.value);
      artifacts, seen := artifacts + [item.value], seen + {item.value.name};
    }
    assert plan.artifacts[..|plan.artifacts|] == plan.artifacts;
    EachMeans(plan, artifacts);
    SortSorts(artifacts, ByName);
    SameMembers(artifacts, Sort(artifacts, ByName));
    normal := Some(Plan(plan.id, plan.createdAt, Sort(artifacts, ByName)));
  }

  ghost predicate EachNormalized(given: seq<Artifact>, artifacts: seq<Artifact>) {
    && |given| == |artifacts|
    && forall i :: 0 <= i < |given| ==> NormalizeArtifact(given[i]) == Some(artifacts[i])
  }

  lemma NoneRepeats()
    ensures DistinctStamps([], ByName)
  {
  }

  lemma OneMore(given: seq<Artifact>, i: nat, artifacts: seq<Artifact>, item: Artifact)
    requires i < |given| && EachNormalized(given[..i], artifacts)
    requires NormalizeArtifact(given[i]) == Some(item)
    ensures EachNormalized(given[..i + 1], artifacts + [item])
  {
    assert given[..i + 1] == given[..i] + [given[i]];
  }

  lemma AppendDistinct(artifacts: seq<Artifact>, item: Artifact)
    requires DistinctStamps(artifacts, ByName)
    requires !exists artifact <- artifacts :: artifact.name == item.name
    ensures DistinctStamps(artifacts + [item], ByName)
  {
  }

  lemma NameTaken(plan: Plan, i: nat, artifacts: seq<Artifact>, item: Artifact)
    requires i < |plan.artifacts| && EachNormalized(plan.artifacts[..i + 1], artifacts + [item])
    requires exists artifact <- artifacts :: artifact.name == item.name
    ensures !Acceptable(plan)
  {
    var j :| 0 <= j < |artifacts| && artifacts[j].name == item.name;
    assert plan.artifacts[..i + 1][j] == plan.artifacts[j] && plan.artifacts[..i + 1][i] == plan.artifacts[i];
    assert (artifacts + [item])[j] == artifacts[j] && (artifacts + [item])[i] == item;
    assert ByName(plan.artifacts[j]) == ByName(plan.artifacts[i]);
  }

  lemma EachMeans(plan: Plan, artifacts: seq<Artifact>)
    requires EachNormalized(plan.artifacts, artifacts)
    ensures forall given <- plan.artifacts :: NormalizeArtifact(given).Some?
    ensures DistinctStamps(artifacts, ByName) ==> DistinctStamps(plan.artifacts, ByName)
    ensures forall artifact :: artifact in artifacts <==>
              exists given <- plan.artifacts :: NormalizeArtifact(given) == Some(artifact)
  {
    forall i | 0 <= i < |artifacts|
      ensures ByName(artifacts[i]) == ByName(plan.artifacts[i])
    {
    }
    hide NormalizeArtifact, ValidIdentifier;
    forall artifact <- artifacts
      ensures exists given <- plan.artifacts :: NormalizeArtifact(given) == Some(artifact)
    {
      var j :| 0 <= j < |artifacts| && artifacts[j] == artifact;
      assert plan.artifacts[j] in plan.artifacts;
    }
  }

  /** Normalising a normalised plan changes nothing. */
  lemma NormalizingTwice(plan: Plan, once: Plan, twice: Plan)
    requires Acceptable(plan) && Normalizes(plan, once) && Normalizes(once, twice)
    ensures Acceptable(once) && twice == once
  {
    hide InOrder, ValidIdentifier, ValidDigest, ValidKind;
    forall artifact <- once.artifacts
      ensures NormalizeArtifact(artifact) == Some(artifact)
    {
      var given :| given in plan.artifacts && NormalizeArtifact(given) == Some(artifact);
      LowerIsStable(given.sha256);
    }
    InOrderIsDistinct(once.artifacts, ByName);
    InOrderIsDistinct(twice.artifacts, ByName);
    SameEntries(once.artifacts, twice.artifacts, ByName);
    OrderIsUnique(once.artifacts, twice.artifacts, ByName);
  }

  /** An acceptable plan has an identifier of up to 64 characters, a time and artifacts; and the newest one to ninety
      plans can be kept, or those of up to a year of days, in nanoseconds. */
  lemma LimitsOfPlans(plan: Plan, policy: Policy)
    ensures Acceptable(plan) <==>
              && ValidIdentifier(plan.id, 64) && plan.createdAt != 0 && |plan.artifacts| >= 1
              && (forall artifact <- plan.artifacts :: NormalizeArtifact(artifact).Some?)
              && forall i, j :: 0 <= i < j < |plan.artifacts| ==> plan.artifacts[i].name != plan.artifacts[j].name
    ensures ValidPolicy(policy) <==>
              1 <= policy.keepLast < 91 && 1 <= policy.maxAge <= 31_536_000_000_000_000
  {
    hide NormalizeArtifact, ValidIdentifier;
  }

  // ----- deciding what to keep -----

  predicate ValidPolicy(policy: Policy) {
    1 <= policy.keepLast <= MAX_RETENTION_COUNT && 0 < policy.maxAge <= 365 * DAY
  }

  ghost predicate DistinctIds(plans: seq<Plan>) {
    forall i, j :: 0 <= i < j < |plans| ==> plans[i].id != plans[j].id
  }

  ghost predicate AllAcceptable(plans: seq<Plan>) {
    (forall plan <- plans :: Acceptable(plan)) && DistinctIds(plans)
  }

  function Self(stamp: Stamp): Stamp {
    stamp
  }

  function Stamps(plans: seq<Plan>): seq<Stamp> {
    if plans == [] then [] else Stamps(plans[..|plans| - 1]) + [ById(plans[|plans| - 1])]
  }

  function Names(stamps: seq<Stamp>): seq<string> {
    if stamps == [] then [] else Names(stamps[..|stamps| - 1]) + [stamps[|stamps| - 1].name]
  }

  /** The plans by time, newest first, and by identifier where the times agree. */
  function Order(plans: seq<Plan>): seq<Stamp> {
    Sort(Stamps(plans), Self)
  }

  predicate Kept(order: seq<Stamp>, policy: Policy, now: int, i: nat)
    requires i < |order|
  {
    i < policy.keepLast || order[i].at >= now - policy.maxAge
  }

  /** What is kept and what is deleted together are the plans in order, and the kept ones are exactly those
      among the newest few or young enough. */
  ghost predicate Decides(order: seq<Stamp>, policy: Policy, now: int, decision: Decision) {
    && decision.keep + decision.delete == Names(order)
    && forall i :: 0 <= i < |order| ==> (i < |decision.keep| <==> Kept(order, policy, now, i))
  }

  method PlanRetention(plans: seq<Plan>, policy: Policy, now: int) returns (decision: Option<Decision>)
    ensures decision.Some? <==> ValidPolicy(policy) && now != 0 && AllAcceptable(plans)
    ensures decision.Some? ==> Decides(Order(plans), policy, now, decision.value)
  {
    hide Acceptable, InOrder, Sort, Decides;
    if !ValidPolicy(policy) || now == 0 {
      return None;
    }
    var normalized: seq<Stamp>, ids := [], {};
    for i := 0 to |plans|
      invariant normalized == Stamps(plans[..i])
      invariant forall plan <- plans[..i] :: Acceptable(plan)
      invariant forall id :: id in ids <==> exists plan <- plans[..i] :: plan.id == id
      invariant DistinctIds(plans[..i])
    {
      var item := NormalizePlan(plans[i]);
      assert plans[i] in plans;
      if item.None? {
        return None;
      }
      assert plans[..i + 1] == plans[..i] + [plans[i]];
      if item.value.id in ids {
        IdTaken(plans, i);
        return None;
      }
      StampsAppend(plans[..i], plans[i]);
      normalized, ids := normalized + [ById(item.value)], ids + {item.value.id};
    }
    assert plans[..|plans|] == plans;
    var order := Sort(normalized, Self);
    OrderIsInOrder(plans);
    var answer := Split(order, policy, now);
    decision := Some(answer);
  }

  lemma IdTaken(plans: seq<Plan>, i: nat)
    requires i < |plans| && exists plan <- plans[..i] :: plan.id == plans[i].id
    ensures !AllAcceptable(plans)
  {
    var j :| 0 <= j < i && plans[..i][j].id == plans[i].id;
    assert plans[j].id == plans[i].id;
  }

  lemma StampsAppend(plans: seq<Plan>, plan: Plan)
    ensures Stamps(plans + [plan]) == Stamps(plans) + [ById(plan)]
  {
    assert (plans + [plan])[..|plans|] == plans;
  }

  lemma NamesAppend(stamps: seq<Stamp>, stamp: Stamp)
    ensures Names(stamps + [stamp]) == Names(stamps) + [stamp.name]
  {
    assert (stamps + [stamp])[..|stamps|] == stamps;
  }

  /** Splits the plans in order into those to keep and those to delete. */
  method Split(order: seq<Stamp>, policy: Policy, now: int) returns (decision: Decision)
    requires InOrder(order, Self)
    ensures Decides(order, policy, now, decision)
  {
    decision := Decision([], []);
    for i := 0 to |order|
      invariant decision.keep + decision.delete == Names(order[..i])
      invariant |decision.keep| + |decision.delete| == i
      invariant forall k :: 0 <= k < i ==> (k < |decision.keep| <==> Kept(order, policy, now, k))
    {
      NamesAppend(order[..i], order[i]);
      assert order[..i + 1] == order[..i] + [order[i]];
      if i < policy.keepLast || order[i].at >= now - policy.maxAge {
        AllKeptBefore(order, policy, now, i, |decision.keep|);
        decision := decision.(keep := decision.keep + [order[i].name]);
      } else {
        decision := decision.(delete := decision.delete + [order[i].name]);
      }
    }
    assert order[..|order|] == order;
  }

  lemma AllKeptBefore(order: seq<Stamp>, policy: Policy, now: int, i: nat, kept: nat)
    requires kept <= i < |order| && InOrder(order, Self) && Kept(order, policy, now, i)
    requires forall k :: 0 <= k < i ==> (k < kept <==> Kept(order, policy, now, k))
    ensures kept == i
  {
    if kept < i {
      EarlierIsKept(order, policy, now, kept, i);
      assert false;
    }
  }

  lemma EarlierIsKept(order: seq<Stamp>, policy: Policy, now: int, i: nat, j: nat)
    requires i < j < |order| && InOrder(order, Self) && Kept(order, policy, now, j)
    ensures Kept(order, policy, now, i)
  {
    assert Before(Self(order[i]), Self(order[j]));
  }

  lemma {:induction false} StampsMean(plans: seq<Plan>)
    ensures |Stamps(plans)| == |plans| && forall i :: 0 <= i < |plans| ==> Stamps(plans)[i] == ById(plans[i])
  {
    if plans != [] {
      StampsMean(plans[..|plans| - 1]);
    }
  }

  lemma OrderIsInOrder(plans: seq<Plan>)
    ensures multiset(Order(plans)) == multiset(Stamps(plans))
    ensures DistinctIds(plans) ==> InOrder(Order(plans), Self) && DistinctStamps(Stamps(plans), Self)
  {
    SortSorts(Stamps(plans), Self);
    StampsMean(plans);
    hide InOrder, Stamps;
    if DistinctIds(plans) {
      forall i, j | 0 <= i < j < |plans|
        ensures Self(Stamps(plans)[i]) != Self(Stamps(plans)[j])
      {
        assert plans[i].id != plans[j].id;
      }
    }
  }

  // ----- what the decision means -----

  lemma {:induction false} NamesMean(stamps: seq<Stamp>)
    ensures |Names(stamps)| == |stamps| && forall i :: 0 <= i < |stamps| ==> Names(stamps)[i] == stamps[i].name
  {
    if stamps != [] {
      NamesMean(stamps[..|stamps| - 1]);
    }
  }

  lemma DecisionParts(order: seq<Stamp>, policy: Policy, now: int, decision: Decision)
    requires Decides(order, policy, now, decision)
    ensures var n := |decision.keep|;
            && n <= |order|
            && decision.keep == Names(order[..n]) && decision.delete == Names(order[n..])
  {
    var n := |decision.keep|;
    NamesMean(order);
    assert n <= |order| by { assert |decision.keep + decision.delete| == |order|; }
    NamesMean(order[..n]);
    NamesMean(order[n..]);
    var all := decision.keep + decision.delete;
    assert all[..n] == decision.keep && all[n..] == decision.delete;
  }

  /** The order and the policy leave one decision. */
  lemma DecisionIsForced(order: seq<Stamp>, policy: Policy, now: int, a: Decision, b: Decision)
    requires Decides(order, policy, now, a) && Decides(order, policy, now, b)
    ensures a == b
  {
    DecisionParts(order, policy, now, a);
    DecisionParts(order, policy, now, b);
    hide Names;
    var m, k := |a.keep|, |b.keep|;
    assert m < |order| ==> (m < k <==> Kept(order, policy, now, m));
    assert k < |order| ==> (k < m <==> Kept(order, policy, now, k));
  }

  function IdOnly(plan: Plan): Stamp {
    Stamp(0, "", plan.id)
  }

  lemma StampsAreOfPlans(plans: seq<Plan>)
    ensures forall stamp :: stamp in Stamps(plans) <==> exists plan <- plans :: ById(plan) == stamp
  {
    StampsMean(plans);
    forall stamp
      ensures stamp in Stamps(plans) <==> exists plan <- plans :: ById(plan) == stamp
    {
      if stamp in Stamps(plans) {
        var i :| 0 <= i < |plans| && Stamps(plans)[i] == stamp;
        assert plans[i] in plans;
      }
      if plan :| plan in plans && ById(plan) == stamp {
        var i :| 0 <= i < |plans| && plans[i] == plan;
        assert Stamps(plans)[i] == stamp;
      }
    }
  }

  lemma SamePlansSameOrder(plans: seq<Plan>, others: seq<Plan>)
    requires DistinctIds(plans) && DistinctIds(others)
    requires forall stamp :: stamp in Stamps(plans) <==> stamp in Stamps(others)
    ensures Order(plans) == Order(others)
  {
    hide Stamps, InOrder, DistinctStamps;
    OrderIsInOrder(plans);
    OrderIsInOrder(others);
    SameEntries(Stamps(plans), Stamps(others), Self);
    OrderIsUnique(Order(plans), Order(others), Self);
  }

  /** The order in which the plans are listed changes neither whether they are accepted nor what is decided. */
  lemma ListingOrderIsIrrelevant(plans: seq<Plan>, others: seq<Plan>)
    requires multiset(plans) == multiset(others) && AllAcceptable(plans)
    ensures AllAcceptable(others) && Order(plans) == Order(others)
  {
    SameMembers(plans, others);
    hide Acceptable, Stamps, Order;
    assert DistinctStamps(plans, IdOnly) by {
      forall i, j | 0 <= i < j < |plans|
        ensures IdOnly(plans[i]) != IdOnly(plans[j])
      {
        assert plans[i].id != plans[j].id;
      }
    }
    StampsTransfer(plans, others, IdOnly);
    assert DistinctIds(others) by {
      forall i, j | 0 <= i < j < |others|
        ensures others[i].id != others[j].id
      {
        assert IdOnly(others[i]) != IdOnly(others[j]);
      }
    }
    StampsAreOfPlans(plans);
    StampsAreOfPlans(others);
    SamePlansSameOrder(plans, others);
  }

  // ----- deleting and planning again -----

  /** The plans left after a decision has been carried out. */
  function Surviving(plans: seq<Plan>, keep: seq<string>): seq<Plan> {
    Filter(plans, (plan: Plan) => plan.id in keep)
  }

  lemma {:induction false} FilterKeepsDistinct(plans: seq<Plan>, test: Plan -> bool)
    requires DistinctIds(plans)
    ensures DistinctIds(Filter(plans, test))
  {
    if plans != [] {
      var front, last := plans[..|plans| - 1], plans[|plans| - 1];
      FilterKeepsDistinct(front, test);
      FilterKeeps(front, test);
      forall other <- Filter(front, test)
        ensures other.id != last.id
      {
        var i :| 0 <= i < |front| && front[i] == other;
        assert plans[i].id != last.id;
      }
    }
  }

  lemma OneStampPerName(plans: seq<Plan>, a: Stamp, b: Stamp)
    requires DistinctIds(plans) && a in Stamps(plans) && b in Stamps(plans) && a.name == b.name
    ensures a == b
  {
    StampsMean(plans);
    var i :| 0 <= i < |plans| && Stamps(plans)[i] == a;
    var j :| 0 <= j < |plans| && Stamps(plans)[j] == b;
    assert plans[i].id == plans[j].id;
  }

  /** The surviving plans are in the same order as before, and are the front of it. */
  lemma SurvivorsAreTheFront(plans: seq<Plan>, policy: Policy, now: int, decision: Decision)
    requires AllAcceptable(plans) && Decides(Order(plans), policy, now, decision)
    ensures AllAcceptable(Surviving(plans, decision.keep))
    ensures |decision.keep| <= |Order(plans)|
    ensures Order(Surviving(plans, decision.keep)) == Order(plans)[..|decision.keep|]
  {
    var order, left, n := Order(plans), Surviving(plans, decision.keep), |decision.keep|;
    DecisionParts(order, policy, now, decision);
    FilterKeeps(plans, (plan: Plan) => plan.id in decision.keep);
    FilterKeepsDistinct(plans, (plan: Plan) => plan.id in decision.keep);
    OrderIsInOrder(plans);
    OrderIsInOrder(left);
    SameMembers(order, Stamps(plans));
    hide Order, Decides, Acceptable, Filter;
    forall stamp
      ensures stamp in Stamps(left) <==> stamp in order[..n]
    {
      FrontMembers(plans, order, n, left, decision.keep, stamp);
    }
    FrontIsInOrder(order, n);
    InOrderIsDistinct(order[..n], Self);
    SameEntries(Stamps(left), order[..n], Self);
    OrderIsUnique(Order(left), order[..n], Self);
  }

  lemma FrontIsInOrder(order: seq<Stamp>, n: nat)
    requires InOrder(order, Self) && n <= |order|
    ensures InOrder(order[..n], Self)
  {
  }

  lemma FrontMembers(
    plans: seq<Plan>, order: seq<Stamp>, n: nat, left: seq<Plan>, keep: seq<string>, stamp: Stamp)
    requires DistinctIds(plans) && n <= |order| && keep == Names(order[..n])
    requires forall other :: other in order <==> other in Stamps(plans)
    requires forall plan :: plan in left <==> plan in plans && plan.id in keep
    ensures stamp in Stamps(left) <==> stamp in order[..n]
  {
    StampsAreOfPlans(plans);
    StampsAreOfPlans(left);
    NamesMean(order[..n]);
    hide Stamps, Names, DistinctIds;
    assert forall i :: 0 <= i < n ==> order[..n][i] in order;
    if stamp in Stamps(left) {
      var plan :| plan in left && ById(plan) == stamp;
      var i :| 0 <= i < n && keep[i] == plan.id;
      OneStampPerName(plans, stamp, order[..n][i]);
    }
    if stamp in order[..n] {
      var i :| 0 <= i < n && order[..n][i] == stamp;
      assert stamp in Stamps(plans);
      var plan :| plan in plans && ById(plan) == stamp;
      assert keep[i] == plan.id;
    }
  }

  /** Deleting what one decision says and planning again later keeps what planning then on everything would
      have kept; at the same time nothing more is deleted. */
  lemma PlanningAgainAgrees(
    plans: seq<Plan>, policy: Policy, now: int, later: int, decision: Decision, again: Decision, direct: Decision)
    requires AllAcceptable(plans) && now <= later
    requires Decides(Order(plans), policy, now, decision)
    requires Decides(Order(Surviving(plans, decision.keep)), policy, later, again)
    requires Decides(Order(plans), policy, later, direct)
    ensures again.keep == direct.keep && again.delete + decision.delete == direct.delete
    ensures later == now ==> again == Decision(decision.keep, [])
  {
    hide Order, Names, Surviving, AllAcceptable, Decides;
    SurvivorsAreTheFront(plans, policy, now, decision);
    FrontDecidesAgain(Order(plans), policy, now, later, decision, again, direct);
  }

  /** The same of the order alone. */
  lemma FrontDecidesAgain(
    order: seq<Stamp>, policy: Policy, now: int, later: int, decision: Decision, again: Decision, direct: Decision)
    requires now <= later && |decision.keep| <= |order|
    requires Decides(order, policy, now, decision)
    requires Decides(order[..|decision.keep|], policy, later, again)
    requires Decides(order, policy, later, direct)
    ensures again.keep == direct.keep && again.delete + decision.delete == direct.delete
    ensures later == now ==> again == Decision(decision.keep, [])
  {
    hide Names;
    var n, m := |decision.keep|, |direct.keep|;
    DecisionParts(order, policy, now, decision);
    DecisionParts(order, policy, later, direct);
    DecisionParts(order[..n], policy, later, again);
    KeepsNoMore(order, policy, now, later, decision, again, direct);
    hide Decides;
    assert order[..n][..m] == order[..m];
    NamesSplit(order, m, n);
    if later == now {
      DecisionIsForced(order, policy, now, decision, direct);
      assert order[m..n] == [];
    }
  }

  /** Later the front keeps as many as everything would, and no more than before. */
  lemma KeepsNoMore(
    order: seq<Stamp>, policy: Policy, now: int, later: int, decision: Decision, again: Decision, direct: Decision)
    requires now <= later && |decision.keep| <= |order| && |direct.keep| <= |order|
    requires |again.keep| <= |decision.keep|
    requires Decides(order, policy, now, decision)
    requires Decides(order[..|decision.keep|], policy, later, again)
    requires Decides(order, policy, later, direct)
    ensures |again.keep| == |direct.keep| <= |decision.keep|
  {
    hide Names;
    var n, m, k := |decision.keep|, |direct.keep|, |again.keep|;
    assert n < |order| ==> (Kept(order, policy, later, n) ==> Kept(order, policy, now, n));
    assert m <= n;
    assert k < n ==> (Kept(order[..n], policy, later, k) <==> Kept(order, policy, later, k));
    assert m < n ==> (Kept(order[..n], policy, later, m) <==> Kept(order, policy, later, m));
  }

  lemma NamesSplit(order: seq<Stamp>, m: nat, n: nat)
    requires m <= n <= |order|
    ensures order[..n][m..] == order[m..n]
    ensures Names(order[m..n]) + Names(order[n..]) == Names(order[m..])
    ensures Names([]) == []
  {
    NamesMean(order[m..n]);
    NamesMean(order[n..]);
    NamesMean(order[m..]);
  }
}
