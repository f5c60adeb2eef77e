/**
 The reputation projector: it rebuilds, from verified contribution facts, one projection per agent
 and one per agent version.
 */
module Projector {
  import opened Common
  import opened Ledger
  import opened Tables

  datatype Attribution = PendingVerification | Verified | NotAttributed

  datatype Contribution = Contribution(
    id: string, agentId: string, versionId: string, taskId: string, repository: string, selfOwned: bool, status: Attribution)

  datatype Facts = Facts(contribution: Contribution, events: seq<Event>)

  datatype Scope = AgentLifetime | AgentVersion

  datatype OutcomeCounts = OutcomeCounts(
    attempts: nat, ciPassed: nat, ciFailed: nat, reviewed: nat, changesRequested: nat, approved: nat,
    merged: nat, closed: nat, reverted: nat, issueReopened: nat)

  datatype Signals = Signals(
    duplicateTaskAttempts: nat, selfOwned: nat, withoutFeedback: nat, revertedAfterMerge: nat,
    reopenedAfterMerge: nat, dominantShare: real)

  datatype Hint = Unverified | Low | Medium | High

  datatype Projection = Projection(
    scope: Scope, agentId: string, versionId: string, counts: OutcomeCounts, quality: nat, hint: Hint,
    stableMergeRate: real, ciPassRate: real, approvalRate: real,
    repositories: map<string, nat>, versions: map<string, nat>, signals: Signals, latestEventId: int, calculatedAt: int)

  datatype ProjectionSet = ProjectionSet(agentLifetime: seq<Projection>, agentVersions: seq<Projection>)

  /** What is collected for a group while its facts are read. */
  datatype Accumulator = Accumulator(
    agentId: string, versionId: string, counts: OutcomeCounts, quality: nat,
    repositories: map<string, nat>, versions: map<string, nat>, tasks: map<string, nat>,
    selfOwned: nat, withoutFeedback: nat, revertedAfterMerge: nat, reopenedAfterMerge: nat,
    ciObserved: nat, reviewObserved: nat, stableMerges: nat, latestEventId: int)

  function NewAccumulator(scope: Scope, c: Contribution): Accumulator {
    Accumulator(c.agentId, if scope == AgentVersion then c.versionId else "",
                OutcomeCounts(0, 0, 0, 0, 0, 0, 0, 0, 0, 0), 0, map[], map[], map[], 0, 0, 0, 0, 0, 0, 0, 0)
  }

  function KeyOf(scope: Scope, c: Contribution): string {
    if scope == AgentLifetime then c.agentId else c.agentId + "\0" + c.versionId
  }

  // ------------------------------------------------- one fact, as a set of events

  /** All that a contribution's events amount to: the order and repetition of a listing do not show. */
  datatype View = View(contribution: Contribution, events: set<Event>)

  function ViewOf(f: Facts): View {
    View(f.contribution, set e | e in f.events)
  }

  predicate Saw(v: View, o: Outcome) {
    exists e :: e in v.events && e.outcome == o
  }

  predicate HasFeedback(v: View) {
    exists e :: e in v.events && e.payload.independentMaintainer
  }

  /** The kinds of contribution a projection counts. */
  datatype Counter =
    | Attempts | WithOutcome(outcome: Outcome) | CIObserved | ReviewObserved | StableMerge | Terminal
    | SelfOwned | WithoutFeedback | RevertedAfterMerge | ReopenedAfterMerge

  predicate Hit(v: View, k: Counter) {
    match k
    case Attempts => true
    case WithOutcome(o) => Saw(v, o)
    case CIObserved => Saw(v, CIPassed) || Saw(v, CIFailed)
    case ReviewObserved => Saw(v, Reviewed) || Saw(v, ChangesRequested) || Saw(v, Approved)
    case StableMerge => Saw(v, Merged) && !Saw(v, Reverted) && !Saw(v, IssueReopened)
    case Terminal => Saw(v, Merged) || Saw(v, Closed) || Saw(v, Reverted) || Saw(v, IssueReopened)
    case SelfOwned => v.contribution.selfOwned
    case WithoutFeedback => !HasFeedback(v)
    case RevertedAfterMerge => Saw(v, Merged) && Saw(v, Reverted)
    case ReopenedAfterMerge => Saw(v, Merged) && Saw(v, IssueReopened)
  }

  function One(v: View, k: Counter): nat {
    if Hit(v, k) then 1 else 0
  }

  /** What one contribution adds to the numbers of its groups. */
  datatype Delta = Delta(
    ciPassed: nat, ciFailed: nat, reviewed: nat, changesRequested: nat, approved: nat, merged: nat, closed: nat,
    reverted: nat, issueReopened: nat, terminal: nat, selfOwned: nat, withoutFeedback: nat, revertedAfterMerge: nat,
    reopenedAfterMerge: nat, ciObserved: nat, reviewObserved: nat, stableMerge: nat)

  function DeltaOf(v: View): Delta {
    Delta(
      One(v, WithOutcome(CIPassed)), One(v, WithOutcome(CIFailed)), One(v, WithOutcome(Reviewed)),
      One(v, WithOutcome(ChangesRequested)), One(v, WithOutcome(Approved)), One(v, WithOutcome(Merged)),
      One(v, WithOutcome(Closed)), One(v, WithOutcome(Reverted)), One(v, WithOutcome(IssueReopened)),
      One(v, Terminal), One(v, SelfOwned), One(v, WithoutFeedback), One(v, RevertedAfterMerge),
      One(v, ReopenedAfterMerge), One(v, CIObserved), One(v, ReviewObserved), One(v, StableMerge))
  }

  function Add(a: Accumulator, c: Contribution, d: Delta, latest: int): Accumulator {
    a.(
      counts := OutcomeCounts(
        a.counts.attempts + 1,
        a.counts.ciPassed + d.ciPassed,
        a.counts.ciFailed + d.ciFailed,
        a.counts.reviewed + d.reviewed,
        a.counts.changesRequested + d.changesRequested,
        a.counts.approved + d.approved,
        a.counts.merged + d.merged,
        a.counts.closed + d.closed,
        a.counts.reverted + d.reverted,
        a.counts.issueReopened + d.issueReopened),
      quality := a.quality + d.terminal,
      repositories := Bump(a.repositories, c.repository),
      versions := Bump(a.versions, c.versionId),
      tasks := Bump(a.tasks, c.taskId),
      selfOwned := a.selfOwned + d.selfOwned,
      withoutFeedback := a.withoutFeedback + d.withoutFeedback,
      revertedAfterMerge := a.revertedAfterMerge + d.revertedAfterMerge,
      reopenedAfterMerge := a.reopenedAfterMerge + d.reopenedAfterMerge,
      ciObserved := a.ciObserved + d.ciObserved,
      reviewObserved := a.reviewObserved + d.reviewObserved,
      stableMerges := a.stableMerges + d.stableMerge,
      latestEventId := latest)
  }

  /** All that the projector reads of one contribution. */
  datatype Digest = Digest(contribution: Contribution, delta: Delta, eventIds: set<int>)

  function DigestOf(v: View): Digest {
    Digest(v.contribution, DeltaOf(v), set e | e in v.events :: e.id)
  }

  ghost function Apply(a: Accumulator, d: Digest): Accumulator {
    Add(a, d.contribution, d.delta, Latest(a.latestEventId, d.eventIds))
  }

  function Seed(groups: map<string, Accumulator>, scope: Scope, c: Contribution): Accumulator {
    if KeyOf(scope, c) in groups then groups[KeyOf(scope, c)] else NewAccumulator(scope, c)
  }

  ghost function Collect(groups: map<string, Accumulator>, scope: Scope, d: Digest): map<string, Accumulator> {
    if d.contribution.status != Verified then groups
    else groups[KeyOf(scope, d.contribution) := Apply(Seed(groups, scope, d.contribution), d)]
  }

  ghost function Groups(digests: seq<Digest>, scope: Scope): map<string, Accumulator>
    decreases |digests|
  {
    if digests == [] then map[] else Collect(Groups(digests[..|digests| - 1], scope), scope, digests[|digests| - 1])
  }

  function MapSeq<T, U>(s: seq<T>, f: T -> U): seq<U> {
    seq(|s|, i requires 0 <= i < |s| => f(s[i]))
  }

  function Digests(facts: seq<Facts>): seq<Digest> {
    MapSeq(facts, (f: Facts) => DigestOf(ViewOf(f)))
  }

  // ---------------------------------------------------------------- finalizing

  function HintOf(size: nat): Hint {
    if size == 0 then Unverified else if size < 5 then Low else if size < 20 then Medium else High
  }

  function Rate(part: nat, whole: nat): real {
    if whole > 0 then part as real / whole as real else 0.0
  }

  /** `p` is the finished projection of the group. */
  ghost predicate IsFinal(p: Projection, a: Accumulator, scope: Scope, at: int) {
    && p.scope == scope && p.agentId == a.agentId && p.versionId == a.versionId && p.calculatedAt == at
    && p.counts == a.counts && p.quality == a.quality && p.latestEventId == a.latestEventId
    && p.hint == HintOf(a.quality)
    && p.repositories == a.repositories
    && p.versions == (if scope == AgentVersion then map[] else a.versions)
    && p.stableMergeRate == Rate(a.stableMerges, a.quality)
    && p.ciPassRate == Rate(a.counts.ciPassed, a.ciObserved)
    && p.approvalRate == Rate(a.counts.approved, a.reviewObserved)
    && p.signals.duplicateTaskAttempts == Excess(a.tasks)
    && p.signals.selfOwned == a.selfOwned && p.signals.withoutFeedback == a.withoutFeedback
    && p.signals.revertedAfterMerge == a.revertedAfterMerge && p.signals.reopenedAfterMerge == a.reopenedAfterMerge
    && (exists largest :: IsLargest(a.repositories, largest) && p.signals.dominantShare == Rate(largest, a.counts.attempts))
  }

  /** The projections of all groups, in increasing order of their keys, each once. */
  ghost predicate AreFinal(ps: seq<Projection>, groups: map<string, Accumulator>, scope: Scope, at: int) {
    exists keys :: ListFinal(ps, keys, groups, scope, at)
  }

  ghost predicate ListFinal(ps: seq<Projection>, keys: seq<string>, groups: map<string, Accumulator>, scope: Scope, at: int) {
    && IsSortedListing(keys, groups.Keys)
    && |ps| == |keys|
    && forall i :: 0 <= i < |keys| ==> keys[i] in groups && IsFinal(ps[i], groups[keys[i]], scope, at)
  }

  // ----------------------------------------------------------------- the loops

  /** What the events of one contribution show: the outcomes seen, independent feedback, the greatest id. */
  method ReadEvents(events: seq<Event>, base: int) returns (seen: set<Outcome>, feedback: bool, latest: int)
    ensures forall o :: o in seen <==> exists e :: e in events && e.outcome == o
    ensures feedback <==> exists e :: e in events && e.payload.independentMaintainer
    ensures IsLatest(base, (set e | e in events :: e.id), latest)
  {
    seen, feedback, latest := {}, false, base;
    ghost var ids: set<int> := {};
    var i := 0;
    while i < |events|
      invariant i <= |events|
      invariant forall o :: o in seen <==> exists e :: e in events[..i] && e.outcome == o
      invariant feedback <==> exists e :: e in events[..i] && e.payload.independentMaintainer
      invariant ids == set e | e in events[..i] :: e.id
      invariant IsLatest(base, ids, latest)
    {
      var event := events[i];
      assert events[..i + 1] == events[..i] + [event];
      assert event in events[..i + 1];
      seen := seen + {event.outcome};
      if event.id > latest {
        latest := event.id;
      }
      if event.payload.independentMaintainer {
        feedback := true;
      }
      ids := ids + {event.id};
      i := i + 1;
    }
    assert events[..i] == events;
  }

  function Flag(b: bool): nat {
    if b then 1 else 0
  }

  /** The increments, from what was read of one contribution. */
  function DeltaFrom(seen: set<Outcome>, feedback: bool, selfOwned: bool): Delta {
    Delta(
      Flag(CIPassed in seen), Flag(CIFailed in seen), Flag(Reviewed in seen), Flag(ChangesRequested in seen),
      Flag(Approved in seen), Flag(Merged in seen), Flag(Closed in seen), Flag(Reverted in seen),
      Flag(IssueReopened in seen),
      Flag(Merged in seen || Closed in seen || Reverted in seen || IssueReopened in seen),
      Flag(selfOwned),
      Flag(!feedback),
      Flag(Merged in seen && Reverted in seen),
      Flag(Merged in seen && IssueReopened in seen),
      Flag(CIPassed in seen || CIFailed in seen),
      Flag(Reviewed in seen || ChangesRequested in seen || Approved in seen),
      Flag(Merged in seen && Reverted !in seen && IssueReopened !in seen))
  }

  lemma DeltaIsRead(v: View, seen: set<Outcome>, feedback: bool)
    requires forall o :: o in seen <==> Saw(v, o)
    requires feedback <==> HasFeedback(v)
    ensures DeltaFrom(seen, feedback, v.contribution.selfOwned) == DeltaOf(v)
  {
  }

  method ApplyFacts(a: Accumulator, item: Facts) returns (r: Accumulator)
    ensures r == Apply(a, DigestOf(ViewOf(item)))
  {
    var seen, feedback, latest := ReadEvents(item.events, a.latestEventId);
    DeltaIsRead(ViewOf(item), seen, feedback);
    assert (set e | e in item.events :: e.id) == (set e | e in ViewOf(item).events :: e.id);
    LatestIsUnique(a.latestEventId, DigestOf(ViewOf(item)).eventIds, latest);
    r := Add(a, item.contribution, DeltaFrom(seen, feedback, item.contribution.selfOwned), latest);
  }

  lemma ExcessStep(over: map<string, nat>, keys: set<string>, rest: set<string>, k: string)
    requires over.Keys == keys && rest <= keys && k in rest
    ensures Total(over - (keys - rest)) == over[k] + Total(over - (keys - (rest - {k})))
  {
    TotalWithout(over - (keys - rest), k);
    assert over - (keys - rest) - {k} == over - (keys - (rest - {k}));
  }

  method CountDuplicates(tasks: map<string, nat>) returns (n: nat)
    ensures n == Excess(tasks)
  {
    ghost var over := map k | k in tasks :: if tasks[k] > 1 then tasks[k] - 1 else 0;
    n := 0;
    var rest := tasks.Keys;
    assert over - (tasks.Keys - rest) == over;
    while rest != {}
      invariant rest <= tasks.Keys && n + Total(over - (tasks.Keys - rest)) == Total(over)
      decreases |rest|
    {
      var k :| k in rest;
      ExcessStep(over, tasks.Keys, rest, k);
      if tasks[k] > 1 {
        n := n + tasks[k] - 1;
      }
      rest := rest - {k};
    }
    assert over - tasks.Keys == map[];
  }

  method LargestCount(m: map<string, nat>) returns (largest: nat)
    ensures IsLargest(m, largest)
  {
    largest := 0;
    var rest := m.Keys;
    while rest != {}
      invariant rest <= m.Keys
      invariant forall k :: k in m.Keys - rest ==> m[k] <= largest
      invariant largest == 0 || exists k :: k in m && m[k] == largest
      decreases |rest|
    {
      var k :| k in rest;
      if m[k] > largest {
        largest := m[k];
      }
      rest := rest - {k};
    }
  }

  method Finalize(a: Accumulator, scope: Scope, at: int) returns (p: Projection)
    ensures IsFinal(p, a, scope, at)
  {
    var duplicates := CountDuplicates(a.tasks);
    var largest := LargestCount(a.repositories);
    var share := 0.0;
    if a.counts.attempts > 0 {
      share := largest as real / a.counts.attempts as real;
    }
    var stableMergeRate, ciPassRate, approvalRate := 0.0, 0.0, 0.0;
    if a.quality > 0 {
      stableMergeRate := a.stableMerges as real / a.quality as real;
    }
    if a.ciObserved > 0 {
      ciPassRate := a.counts.ciPassed as real / a.ciObserved as real;
    }
    if a.reviewObserved > 0 {
      approvalRate := a.counts.approved as real / a.reviewObserved as real;
    }
    p := Projection(
      scope, a.agentId, a.versionId, a.counts, a.quality, HintOf(a.quality), stableMergeRate, ciPassRate, approvalRate,
      a.repositories, if scope == AgentVersion then map[] else a.versions,
      Signals(duplicates, a.selfOwned, a.withoutFeedback, a.revertedAfterMerge, a.reopenedAfterMerge, share),
      a.latestEventId, at);
    assert share == Rate(largest, a.counts.attempts);
  }

  method FinalizeAccumulators(groups: map<string, Accumulator>, scope: Scope, at: int) returns (ps: seq<Projection>)
    ensures AreFinal(ps, groups, scope, at)
  {
    var keys := SortedKeys(groups.Keys);
    ps := [];
    var i := 0;
    while i < |keys|
      invariant i == |ps| <= |keys|
      invariant forall j :: 0 <= j < i ==> keys[j] in groups && IsFinal(ps[j], groups[keys[j]], scope, at)
    {
      assert keys[i] in keys;
      var p := Finalize(groups[keys[i]], scope, at);
      ps := ps + [p];
      i := i + 1;
    }
    assert ListFinal(ps, keys, groups, scope, at);
  }

  /** The groups of the first `i` facts. */
  ghost function GroupsUpTo(facts: seq<Facts>, i: nat, scope: Scope): map<string, Accumulator>
    requires i <= |facts|
  {
    Groups(Digests(facts[..i]), scope)
  }

  lemma GroupsStep(facts: seq<Facts>, i: nat, scope: Scope)
    requires i < |facts|
    ensures GroupsUpTo(facts, i + 1, scope) == Collect(GroupsUpTo(facts, i, scope), scope, DigestOf(ViewOf(facts[i])))
  {
    assert Digests(facts[..i + 1])[..i] == Digests(facts[..i]);
  }

  lemma GroupsSkip(facts: seq<Facts>, i: nat, scope: Scope)
    requires i < |facts| && facts[i].contribution.status != Verified
    ensures GroupsUpTo(facts, i + 1, scope) == GroupsUpTo(facts, i, scope)
  {
    GroupsStep(facts, i, scope);
  }

  /** Get or create the group's accumulator, and apply the next fact to it. */
  method CollectFacts(groups: map<string, Accumulator>, scope: Scope, facts: seq<Facts>, i: nat) returns (r: map<string, Accumulator>)
    requires i < |facts| && facts[i].contribution.status == Verified
    requires groups == GroupsUpTo(facts, i, scope)
    ensures r == GroupsUpTo(facts, i + 1, scope)
  {
    var item := facts[i];
    var key := KeyOf(scope, item.contribution);
    var accumulator := NewAccumulator(scope, item.contribution);
    if key in groups {
      accumulator := groups[key];
    }
    accumulator := ApplyFacts(accumulator, item);
    r := groups[key := accumulator];
    GroupsStep(facts, i, scope);
  }

  predicate Unnamed(f: Facts) {
    f.contribution.status == Verified && (f.contribution.agentId == "" || f.contribution.versionId == "")
  }

  /** Both levels after the first `i` facts. */
  ghost predicate Collected(facts: seq<Facts>, i: nat, agents: map<string, Accumulator>, versions: map<string, Accumulator>)
    requires i <= |facts|
  {
    agents == GroupsUpTo(facts, i, AgentLifetime) && versions == GroupsUpTo(facts, i, AgentVersion)
  }

  lemma CollectedNone(facts: seq<Facts>)
    ensures Collected(facts, 0, map[], map[])
  {
  }

  lemma CollectedSkip(facts: seq<Facts>, i: nat, agents: map<string, Accumulator>, versions: map<string, Accumulator>)
    requires i < |facts| && facts[i].contribution.status != Verified && Collected(facts, i, agents, versions)
    ensures Collected(facts, i + 1, agents, versions)
  {
    GroupsSkip(facts, i, AgentLifetime);
    GroupsSkip(facts, i, AgentVersion);
  }

  lemma CollectedAll(facts: seq<Facts>, agents: map<string, Accumulator>, versions: map<string, Accumulator>)
    requires Collected(facts, |facts|, agents, versions)
    ensures agents == Groups(Digests(facts), AgentLifetime) && versions == Groups(Digests(facts), AgentVersion)
  {
    assert facts[..|facts|] == facts;
  }

  /** The next fact, applied to its agent and to its version. */
  method CollectNext(facts: seq<Facts>, i: nat, agents: map<string, Accumulator>, versions: map<string, Accumulator>)
    returns (a: map<string, Accumulator>, v: map<string, Accumulator>)
    requires i < |facts| && facts[i].contribution.status == Verified && Collected(facts, i, agents, versions)
    ensures Collected(facts, i + 1, a, v)
  {
    a := CollectFacts(agents, AgentLifetime, facts, i);
    v := CollectFacts(versions, AgentVersion, facts, i);
  }

  /** The loop over the facts; it stops at the first verified fact without a name. */
  method CollectAll(facts: seq<Facts>) returns (named: bool, agents: map<string, Accumulator>, versions: map<string, Accumulator>)
    ensures named <==> forall i :: 0 <= i < |facts| ==> !Unnamed(facts[i])
    ensures named ==> agents == Groups(Digests(facts), AgentLifetime) && versions == Groups(Digests(facts), AgentVersion)
  {
    named, agents, versions := true, map[], map[];
    CollectedNone(facts);
    var i := 0;
    while i < |facts|
      invariant i <= |facts| && named && forall j :: 0 <= j < i ==> !Unnamed(facts[j])
      invariant Collected(facts, i, agents, versions)
    {
      var item := facts[i];
      if item.contribution.status != Verified {
        CollectedSkip(facts, i, agents, versions);
      } else {
        if item.contribution.agentId == "" || item.contribution.versionId == "" {
          assert Unnamed(facts[i]);
          named := false;
          return;
        }
        agents, versions := CollectNext(facts, i, agents, versions);
      }
      i := i + 1;
    }
    CollectedAll(facts, agents, versions);
  }

  /** `calculatedAt` is absent for the zero time. */
  method Project(facts: seq<Facts>, calculatedAt: Option<int>) returns (r: Result<ProjectionSet>)
    ensures r.Err? <==> calculatedAt.None? || exists i :: 0 <= i < |facts| && Unnamed(facts[i])
    ensures r.Err? ==> r.code == InvalidArgument
    ensures r.Ok? ==> AreFinal(r.value.agentLifetime, Groups(Digests(facts), AgentLifetime), AgentLifetime, calculatedAt.value)
    ensures r.Ok? ==> AreFinal(r.value.agentVersions, Groups(Digests(facts), AgentVersion), AgentVersion, calculatedAt.value)
  {
    if calculatedAt.None? {
      return Err(InvalidArgument);
    }
    var named, agents, versions := CollectAll(facts);
    if !named {
      return Err(InvalidArgument);
    }
    var agentLifetime := FinalizeAccumulators(agents, AgentLifetime, calculatedAt.value);
    var agentVersions := FinalizeAccumulators(versions, AgentVersion, calculatedAt.value);
    return Ok(ProjectionSet(agentLifetime, agentVersions));
  }
}
