/**
 What the projections mean: every number counts contributions, so projections do not depend on the
 order or repetition of facts and events, add up across levels, and stay within their bounds.
 */
module ProjectorTheorems {
  import opened Common
  import opened Ledger
  import opened Tables
  import opened Projector

  // ------------------------------------------------------------------ counting

  predicate Belongs(d: Digest, scope: Scope, key: string) {
    d.contribution.status == Verified && KeyOf(scope, d.contribution) == key
  }

  /** The weights of the group's contributions, added up. */
  ghost function Sum(digests: seq<Digest>, scope: Scope, key: string, weight: Digest -> nat): nat
    decreases |digests|
  {
    if digests == [] then 0
    else
      var last := digests[|digests| - 1];
      Sum(digests[..|digests| - 1], scope, key, weight) + if Belongs(last, scope, key) then weight(last) else 0
  }

  /** The numbers an accumulator keeps; the plain outcome `Attempt` has none of its own. */
  datatype Selector = Counting(counter: Counter) | InRepository(repository: string) | OfVersion(versionId: string) | OnTask(taskId: string)

  predicate HasNumber(s: Selector) {
    s != Counting(WithOutcome(Attempt))
  }

  function ReadOutcome(c: OutcomeCounts, o: Outcome): nat
    requires o != Attempt
  {
    match o
    case CIPassed => c.ciPassed
    case CIFailed => c.ciFailed
    case Reviewed => c.reviewed
    case ChangesRequested => c.changesRequested
    case Approved => c.approved
    case Merged => c.merged
    case Closed => c.closed
    case Reverted => c.reverted
    case IssueReopened => c.issueReopened
  }

  function Read(a: Accumulator, s: Selector): nat
    requires HasNumber(s)
  {
    match s
    case InRepository(r) => Entry(a.repositories, r)
    case OfVersion(id) => Entry(a.versions, id)
    case OnTask(id) => Entry(a.tasks, id)
    case Counting(k) =>
      match k
      case Attempts => a.counts.attempts
      case WithOutcome(o) => ReadOutcome(a.counts, o)
      case CIObserved => a.ciObserved
      case ReviewObserved => a.reviewObserved
      case StableMerge => a.stableMerges
      case Terminal => a.quality
      case SelfOwned => a.selfOwned
      case WithoutFeedback => a.withoutFeedback
      case RevertedAfterMerge => a.revertedAfterMerge
      case ReopenedAfterMerge => a.reopenedAfterMerge
  }

  function DeltaOutcome(d: Delta, o: Outcome): nat
    requires o != Attempt
  {
    match o
    case CIPassed => d.ciPassed
    case CIFailed => d.ciFailed
    case Reviewed => d.reviewed
    case ChangesRequested => d.changesRequested
    case Approved => d.approved
    case Merged => d.merged
    case Closed => d.closed
    case Reverted => d.reverted
    case IssueReopened => d.issueReopened
  }

  function DeltaReads(d: Delta, k: Counter): nat
    requires k != WithOutcome(Attempt)
  {
    match k
    case Attempts => 1
    case WithOutcome(o) => DeltaOutcome(d, o)
    case CIObserved => d.ciObserved
    case ReviewObserved => d.reviewObserved
    case StableMerge => d.stableMerge
    case Terminal => d.terminal
    case SelfOwned => d.selfOwned
    case WithoutFeedback => d.withoutFeedback
    case RevertedAfterMerge => d.revertedAfterMerge
    case ReopenedAfterMerge => d.reopenedAfterMerge
  }

  function Weigh(d: Digest, s: Selector): nat
    requires HasNumber(s)
  {
    match s
    case Counting(k) => DeltaReads(d.delta, k)
    case InRepository(r) => if d.contribution.repository == r then 1 else 0
    case OfVersion(id) => if d.contribution.versionId == id then 1 else 0
    case OnTask(id) => if d.contribution.taskId == id then 1 else 0
  }

  function Weight(s: Selector): Digest -> nat
    requires HasNumber(s)
  {
    (d: Digest) => Weigh(d, s)
  }

  lemma ApplyReads(a: Accumulator, d: Digest, s: Selector)
    requires HasNumber(s)
    ensures Read(Apply(a, d), s) == Read(a, s) + Weigh(d, s)
  {
  }

  lemma {:induction false} NumbersAreSums(digests: seq<Digest>, scope: Scope, key: string, s: Selector)
    requires HasNumber(s)
    ensures key in Groups(digests, scope) <==> Sum(digests, scope, key, Weight(Counting(Attempts))) > 0
    ensures key in Groups(digests, scope) ==> Read(Groups(digests, scope)[key], s) == Sum(digests, scope, key, Weight(s))
    ensures key !in Groups(digests, scope) ==> Sum(digests, scope, key, Weight(s)) == 0
    decreases |digests|
  {
    if digests != [] {
      var last := digests[|digests| - 1];
      var before := Groups(digests[..|digests| - 1], scope);
      NumbersAreSums(digests[..|digests| - 1], scope, key, s);
      if Belongs(last, scope, key) {
        ApplyReads(Seed(before, scope, last.contribution), last, s);
      }
    }
  }

  // ------------------------------------------------- what the numbers count

  predicate Picks(v: View, s: Selector) {
    match s
    case Counting(k) => Hit(v, k)
    case InRepository(r) => v.contribution.repository == r
    case OfVersion(id) => v.contribution.versionId == id
    case OnTask(id) => v.contribution.taskId == id
  }

  function Picked(facts: seq<Facts>, scope: Scope, key: string, s: Selector): set<nat> {
    set i | 0 <= i < |facts| && facts[i].contribution.status == Verified && KeyOf(scope, facts[i].contribution) == key
            && Picks(ViewOf(facts[i]), s)
  }

  lemma WeighsPicked(v: View, s: Selector)
    requires HasNumber(s)
    ensures Weigh(DigestOf(v), s) == if Picks(v, s) then 1 else 0
  {
    if s.Counting? {
      match s.counter {
        case WithOutcome(o) => assert DeltaOutcome(DeltaOf(v), o) == One(v, WithOutcome(o));
        case _ =>
      }
    }
  }

  function Indices(flags: seq<bool>): set<nat> {
    set i | 0 <= i < |flags| && flags[i]
  }

  function CountTrue(flags: seq<bool>): nat
    decreases |flags|
  {
    if flags == [] then 0 else CountTrue(flags[..|flags| - 1]) + if flags[|flags| - 1] then 1 else 0
  }

  lemma {:induction false} CountTrueIsIndices(flags: seq<bool>)
    ensures CountTrue(flags) == |Indices(flags)|
    decreases |flags|
  {
    if flags == [] {
      assert Indices(flags) == {};
    } else {
      var n := |flags| - 1;
      CountTrueIsIndices(flags[..n]);
      assert Indices(flags) == Indices(flags[..n]) + if flags[n] then {n} else {};
    }
  }

  lemma {:induction false} SumIsCount(digests: seq<Digest>, scope: Scope, key: string, weight: Digest -> nat, flags: seq<bool>)
    requires |flags| == |digests|
    requires forall i :: 0 <= i < |digests| ==>
               (if Belongs(digests[i], scope, key) then weight(digests[i]) else 0) == if flags[i] then 1 else 0
    ensures Sum(digests, scope, key, weight) == CountTrue(flags)
    decreases |digests|
  {
    if digests != [] {
      SumIsCount(digests[..|digests| - 1], scope, key, weight, flags[..|digests| - 1]);
    }
  }

  lemma SumIsPicked(facts: seq<Facts>, scope: Scope, key: string, s: Selector)
    requires HasNumber(s)
    ensures Sum(Digests(facts), scope, key, Weight(s)) == |Picked(facts, scope, key, s)|
  {
    var flags := MapSeq(facts, (f: Facts) =>
      f.contribution.status == Verified && KeyOf(scope, f.contribution) == key && Picks(ViewOf(f), s));
    forall i | 0 <= i < |facts|
      ensures (if Belongs(Digests(facts)[i], scope, key) then Weight(s)(Digests(facts)[i]) else 0) == if flags[i] then 1 else 0
    {
      WeighsPicked(ViewOf(facts[i]), s);
    }
    SumIsCount(Digests(facts), scope, key, Weight(s), flags);
    CountTrueIsIndices(flags);
    assert Indices(flags) == Picked(facts, scope, key, s);
  }

  /**
   A group exists exactly when a verified contribution belongs to it, and each of its numbers is how
   many of its contributions have the property counted, however many events show it.
   */
  lemma NumbersCountContributions(facts: seq<Facts>, scope: Scope, key: string, s: Selector)
    requires HasNumber(s)
    ensures var groups := Groups(Digests(facts), scope);
            && (key in groups <==> Picked(facts, scope, key, Counting(Attempts)) != {})
            && (key in groups ==> Read(groups[key], s) == |Picked(facts, scope, key, s)|)
  {
    NumbersAreSums(Digests(facts), scope, key, s);
    SumIsPicked(facts, scope, key, s);
    SumIsPicked(facts, scope, key, Counting(Attempts));
  }

  // ------------------------------------------------------- order and repetition

  /** Agent ids hold no NUL, as no text column can: then a version's key names its agent and version. */
  ghost predicate NulFree(digests: seq<Digest>) {
    forall i :: 0 <= i < |digests| ==> '\0' !in digests[i].contribution.agentId
  }

  lemma KeyNamesGroup(a: Contribution, b: Contribution, scope: Scope)
    requires '\0' !in a.agentId && '\0' !in b.agentId && KeyOf(scope, a) == KeyOf(scope, b)
    ensures a.agentId == b.agentId && (scope == AgentVersion ==> a.versionId == b.versionId)
  {
    if scope == AgentVersion {
      JoinedApart(a.agentId, a.versionId, b.agentId, b.versionId, '\0');
      assert KeyOf(scope, a) == Join(a.agentId, '\0', a.versionId) && KeyOf(scope, b) == Join(b.agentId, '\0', b.versionId);
    }
  }

  /** The contribution, by version `v` of agent `s`. */
  function By(c: Contribution, s: string, v: string): Contribution {
    c.(agentId := s, versionId := v)
  }

  /** Two agents have versions merged into one group exactly when one id, followed by NUL, starts the other. */
  lemma KeysCollideIff(c: Contribution, s: string, t: string)
    ensures (exists v, w :: KeyOf(AgentVersion, By(c, s, v)) == KeyOf(AgentVersion, By(c, t, w))) <==>
              s + "\0" <= t + "\0" || t + "\0" <= s + "\0"
  {
    JoinedIff(s, t, '\0');
    if v, w :| KeyOf(AgentVersion, By(c, s, v)) == KeyOf(AgentVersion, By(c, t, w)) {
      assert Join(s, '\0', v) == Join(t, '\0', w);
    }
    if v, w :| Join(s, '\0', v) == Join(t, '\0', w) {
      assert KeyOf(AgentVersion, By(c, s, v)) == KeyOf(AgentVersion, By(c, t, w));
    }
  }

  lemma LatestCommutes(base: int, a: set<int>, b: set<int>)
    ensures Latest(Latest(base, a), b) == Latest(Latest(base, b), a)
  {
    var ab, ba := Latest(Latest(base, a), b), Latest(Latest(base, b), a);
    assert IsLatest(Latest(base, a), b, ab) && IsLatest(Latest(base, b), a, ba);
    assert IsLatest(base, a, Latest(base, a)) && IsLatest(base, b, Latest(base, b));
  }

  lemma AddCommutes(a: Accumulator, x: Contribution, dx: Delta, lx: int, y: Contribution, dy: Delta, ly: int, latest: int)
    ensures Add(Add(a, x, dx, lx), y, dy, latest) == Add(Add(a, y, dy, ly), x, dx, latest)
  {
    BumpsCommute(a.repositories, x.repository, y.repository);
    BumpsCommute(a.versions, x.versionId, y.versionId);
    BumpsCommute(a.tasks, x.taskId, y.taskId);
  }

  lemma ApplyCommutes(a: Accumulator, x: Digest, y: Digest)
    ensures Apply(Apply(a, x), y) == Apply(Apply(a, y), x)
  {
    var lx, ly := Latest(a.latestEventId, x.eventIds), Latest(a.latestEventId, y.eventIds);
    LatestCommutes(a.latestEventId, x.eventIds, y.eventIds);
    AddCommutes(a, x.contribution, x.delta, lx, y.contribution, y.delta, ly, Latest(lx, y.eventIds));
  }

  lemma CollectTwice(g: map<string, Accumulator>, scope: Scope, x: Digest, y: Digest)
    requires x.contribution.status == Verified && y.contribution.status == Verified
    requires KeyOf(scope, x.contribution) == KeyOf(scope, y.contribution)
    ensures Collect(Collect(g, scope, x), scope, y)
            == g[KeyOf(scope, x.contribution) := Apply(Apply(Seed(g, scope, x.contribution), x), y)]
  {
  }

  lemma CollectApart(g: map<string, Accumulator>, scope: Scope, x: Digest, y: Digest)
    requires x.contribution.status == Verified && y.contribution.status == Verified
    requires KeyOf(scope, x.contribution) != KeyOf(scope, y.contribution)
    ensures Collect(Collect(g, scope, x), scope, y) == Collect(Collect(g, scope, y), scope, x)
  {
  }

  lemma CollectCommutes(g: map<string, Accumulator>, scope: Scope, x: Digest, y: Digest)
    requires '\0' !in x.contribution.agentId && '\0' !in y.contribution.agentId
    ensures Collect(Collect(g, scope, x), scope, y) == Collect(Collect(g, scope, y), scope, x)
  {
    if x.contribution.status == Verified && y.contribution.status == Verified {
      if KeyOf(scope, x.contribution) == KeyOf(scope, y.contribution) {
        KeyNamesGroup(x.contribution, y.contribution, scope);
        assert Seed(g, scope, x.contribution) == Seed(g, scope, y.contribution);
        CollectTwice(g, scope, x, y);
        CollectTwice(g, scope, y, x);
        ApplyCommutes(Seed(g, scope, x.contribution), x, y);
      } else {
        CollectApart(g, scope, x, y);
      }
    }
  }

  /** Any fact may as well have been read last. */
  lemma {:induction false} CollectLast(digests: seq<Digest>, scope: Scope, i: nat)
    requires NulFree(digests) && i < |digests|
    ensures Groups(digests, scope) == Collect(Groups(Without(digests, i), scope), scope, digests[i])
    decreases |digests|
  {
    var n := |digests| - 1;
    if i == n {
      assert Without(digests, i) == digests[..n];
    } else {
      CollectLast(digests[..n], scope, i);
      assert Without(digests, i) == Without(digests[..n], i) + [digests[n]];
      assert Without(digests, i)[..n - 1] == Without(digests[..n], i);
      CollectCommutes(Groups(Without(digests[..n], i), scope), scope, digests[i], digests[n]);
    }
  }

  lemma {:induction false} MappedMultiset<T, U>(a: seq<T>, b: seq<T>, f: T -> U)
    requires multiset(a) == multiset(b)
    ensures multiset(MapSeq(a, f)) == multiset(MapSeq(b, f))
    decreases |a|
  {
    if a == [] {
      assert |multiset(b)| == 0;
    } else {
      var n := |a| - 1;
      var i := Cancel(a, b, a[n]);
      MappedMultiset(a[..n], Without(b, i), f);
      WithoutMultiset(MapSeq(a, f), n);
      WithoutMultiset(MapSeq(b, f), i);
      assert MapSeq(a[..n], f) == Without(MapSeq(a, f), n);
      assert MapSeq(Without(b, i), f) == Without(MapSeq(b, f), i);
    }
  }

  /** The order in which facts are read does not matter. */
  lemma {:induction false} GroupsIgnoreOrder(a: seq<Digest>, b: seq<Digest>, scope: Scope)
    requires NulFree(a) && multiset(a) == multiset(b)
    ensures Groups(a, scope) == Groups(b, scope)
    decreases |a|
  {
    if a == [] {
      assert |multiset(b)| == 0;
    } else {
      var n := |a| - 1;
      var i := Cancel(a, b, a[n]);
      GroupsIgnoreOrder(a[..n], Without(b, i), scope);
      NulFreePermutes(a, b);
      CollectLast(b, scope, i);
    }
  }

  lemma NulFreePermutes(a: seq<Digest>, b: seq<Digest>)
    requires NulFree(a) && multiset(a) == multiset(b)
    ensures NulFree(b)
  {
    forall i | 0 <= i < |b| ensures '\0' !in b[i].contribution.agentId {
      assert b[i] in multiset(a);
    }
  }

  lemma FinalIsUnique(p: Projection, q: Projection, a: Accumulator, scope: Scope, at: int)
    requires IsFinal(p, a, scope, at) && IsFinal(q, a, scope, at)
    ensures p == q
  {
  }

  lemma FinalsAreUnique(ps: seq<Projection>, qs: seq<Projection>, groups: map<string, Accumulator>, scope: Scope, at: int)
    requires AreFinal(ps, groups, scope, at) && AreFinal(qs, groups, scope, at)
    ensures ps == qs
  {
    var a :| ListFinal(ps, a, groups, scope, at);
    var b :| ListFinal(qs, b, groups, scope, at);
    SortedListingIsUnique(a, b, groups.Keys);
    forall i | 0 <= i < |ps| ensures ps[i] == qs[i] {
      FinalIsUnique(ps[i], qs[i], groups[a[i]], scope, at);
    }
  }

  function Views(facts: seq<Facts>): seq<View> {
    MapSeq(facts, ViewOf)
  }

  /**
   The projections depend on each contribution and the set of its events alone: reordering the facts,
   reordering the events of a fact, and listing an event again all give the same output.
   */
  lemma ProjectionIgnoresOrderAndRepetition(
    facts: seq<Facts>, others: seq<Facts>, ps: seq<Projection>, qs: seq<Projection>, scope: Scope, at: int)
    requires NulFree(Digests(facts)) && multiset(Views(facts)) == multiset(Views(others))
    requires AreFinal(ps, Groups(Digests(facts), scope), scope, at) && AreFinal(qs, Groups(Digests(others), scope), scope, at)
    ensures ps == qs
  {
    MappedMultiset(Views(facts), Views(others), DigestOf);
    assert MapSeq(Views(facts), DigestOf) == Digests(facts);
    assert MapSeq(Views(others), DigestOf) == Digests(others);
    GroupsIgnoreOrder(Digests(facts), Digests(others), scope);
    FinalsAreUnique(ps, qs, Groups(Digests(facts), scope), scope, at);
  }

  // -------------------------------------------------------- facts of the ledger

  function ContributionsIn(facts: seq<Facts>): seq<Contribution> {
    MapSeq(facts, (f: Facts) => f.contribution)
  }

  /** The facts read from the tables: each contribution with a listing of its events, in any order. */
  ghost predicate FactsOf(facts: seq<Facts>, contributions: multiset<Contribution>, rows: seq<Event>) {
    multiset(ContributionsIn(facts)) == contributions && forall i :: 0 <= i < |facts| ==> Lists(facts[i], rows)
  }

  ghost predicate Lists(f: Facts, rows: seq<Event>) {
    forall e :: e in f.events <==> e in rows && e.contributionId == f.contribution.id
  }

  function InTables(rows: seq<Event>): Contribution -> View {
    (c: Contribution) => View(c, set e | e in rows && e.contributionId == c.id)
  }

  lemma ViewsOfFacts(facts: seq<Facts>, rows: seq<Event>)
    requires forall i :: 0 <= i < |facts| ==> Lists(facts[i], rows)
    ensures Views(facts) == MapSeq(ContributionsIn(facts), InTables(rows))
  {
    forall i | 0 <= i < |facts| ensures ViewOf(facts[i]) == InTables(rows)(facts[i].contribution) {
      assert Lists(facts[i], rows);
    }
  }

  /**
   End to end: whatever the providers deliver again, and in whatever order the tables are read, the
   rebuilt projections are the same.
   */
  lemma RedeliveryLeavesProjections(
    known: set<(string, Provider)>, contributions: multiset<Contribution>, log: seq<Delivery>, again: seq<Delivery>,
    facts: seq<Facts>, others: seq<Facts>, ps: seq<Projection>, qs: seq<Projection>, scope: Scope, at: int)
    requires forall j :: 0 <= j < |again| ==> exists i :: 0 <= i < |log| && log[i].event == again[j].event
    requires FactsOf(facts, contributions, AppendAll([], known, log))
    requires FactsOf(others, contributions, AppendAll([], known, log + again))
    requires forall c :: c in contributions ==> '\0' !in c.agentId
    requires AreFinal(ps, Groups(Digests(facts), scope), scope, at) && AreFinal(qs, Groups(Digests(others), scope), scope, at)
    ensures ps == qs
  {
    RedeliveryIsNoOp([], known, log, again);
    var rows := AppendAll([], known, log);
    ViewsOfFacts(facts, rows);
    ViewsOfFacts(others, rows);
    MappedMultiset(ContributionsIn(facts), ContributionsIn(others), InTables(rows));
    forall i | 0 <= i < |facts| ensures '\0' !in Digests(facts)[i].contribution.agentId {
      assert ContributionsIn(facts)[i] in multiset(ContributionsIn(facts));
    }
    ProjectionIgnoresOrderAndRepetition(facts, others, ps, qs, scope, at);
  }

  // --------------------------------------------------------------- conservation

  ghost function VersionsOf(digests: seq<Digest>, agentId: string): set<string>
    decreases |digests|
  {
    if digests == [] then {}
    else
      var last := digests[|digests| - 1];
      VersionsOf(digests[..|digests| - 1], agentId) +
      if Belongs(last, AgentLifetime, agentId) then {last.contribution.versionId} else {}
  }

  function VersionKey(agentId: string, versionId: string): string {
    agentId + "\0" + versionId
  }

  /** The weights of an agent's contributions, collected by version. */
  ghost function ByVersion(digests: seq<Digest>, agentId: string, weight: Digest -> nat): map<string, nat>
    decreases |digests|
  {
    if digests == [] then map[]
    else
      var last, before := digests[|digests| - 1], ByVersion(digests[..|digests| - 1], agentId, weight);
      if !Belongs(last, AgentLifetime, agentId) then before
      else before[last.contribution.versionId := Entry(before, last.contribution.versionId) + weight(last)]
  }

  lemma {:induction false} ByVersionTotals(digests: seq<Digest>, agentId: string, weight: Digest -> nat)
    ensures Total(ByVersion(digests, agentId, weight)) == Sum(digests, AgentLifetime, agentId, weight)
    decreases |digests|
  {
    if digests != [] {
      var last := digests[|digests| - 1];
      var before := ByVersion(digests[..|digests| - 1], agentId, weight);
      ByVersionTotals(digests[..|digests| - 1], agentId, weight);
      TotalUpdate(before, last.contribution.versionId, Entry(before, last.contribution.versionId) + weight(last));
    }
  }

  lemma BelongsToVersion(d: Digest, agentId: string, versionId: string)
    requires '\0' !in d.contribution.agentId && '\0' !in agentId
    ensures Belongs(d, AgentVersion, VersionKey(agentId, versionId)) <==>
              Belongs(d, AgentLifetime, agentId) && d.contribution.versionId == versionId
  {
    if KeyOf(AgentVersion, d.contribution) == VersionKey(agentId, versionId) {
      KeyNamesGroup(d.contribution, d.contribution.(agentId := agentId, versionId := versionId), AgentVersion);
    }
  }

  lemma {:induction false} VersionSum(digests: seq<Digest>, agentId: string, versionId: string, weight: Digest -> nat)
    requires NulFree(digests) && '\0' !in agentId
    ensures versionId in ByVersion(digests, agentId, weight) <==> versionId in VersionsOf(digests, agentId)
    ensures Entry(ByVersion(digests, agentId, weight), versionId)
            == Sum(digests, AgentVersion, VersionKey(agentId, versionId), weight)
    decreases |digests|
  {
    if digests != [] {
      VersionSum(digests[..|digests| - 1], agentId, versionId, weight);
      BelongsToVersion(digests[|digests| - 1], agentId, versionId);
    }
  }

  lemma {:induction false} SomeInside(digests: seq<Digest>, agentId: string, versionId: string)
    requires NulFree(digests) && '\0' !in agentId && versionId in VersionsOf(digests, agentId)
    ensures Sum(digests, AgentVersion, VersionKey(agentId, versionId), Weight(Counting(Attempts))) > 0
    decreases |digests|
  {
    BelongsToVersion(digests[|digests| - 1], agentId, versionId);
    if versionId in VersionsOf(digests[..|digests| - 1], agentId) {
      SomeInside(digests[..|digests| - 1], agentId, versionId);
    }
  }

  /** Every number of an agent's accumulator is the total of that number over its versions' accumulators. */
  lemma VersionsAddUp(digests: seq<Digest>, agentId: string, s: Selector)
    requires NulFree(digests) && HasNumber(s) && agentId in Groups(digests, AgentLifetime) && '\0' !in agentId
    ensures forall v :: v in VersionsOf(digests, agentId) ==> VersionKey(agentId, v) in Groups(digests, AgentVersion)
    ensures Read(Groups(digests, AgentLifetime)[agentId], s) ==
              Total(map v | v in VersionsOf(digests, agentId) :: Read(Groups(digests, AgentVersion)[VersionKey(agentId, v)], s))
  {
    NumbersAreSums(digests, AgentLifetime, agentId, s);
    ByVersionTotals(digests, agentId, Weight(s));
    forall v
      ensures v in ByVersion(digests, agentId, Weight(s)) <==> v in VersionsOf(digests, agentId)
      ensures v in VersionsOf(digests, agentId) ==> VersionKey(agentId, v) in Groups(digests, AgentVersion)
      ensures v in VersionsOf(digests, agentId) ==>
                Read(Groups(digests, AgentVersion)[VersionKey(agentId, v)], s) == ByVersion(digests, agentId, Weight(s))[v]
    {
      VersionSum(digests, agentId, v, Weight(s));
      if v in VersionsOf(digests, agentId) {
        SomeInside(digests, agentId, v);
        NumbersAreSums(digests, AgentVersion, VersionKey(agentId, v), s);
      }
    }
    assert ByVersion(digests, agentId, Weight(s)) ==
             map v | v in VersionsOf(digests, agentId) :: Read(Groups(digests, AgentVersion)[VersionKey(agentId, v)], s);
  }

  // --------------------------------------------------------------------- bounds

  /** The distributions of a group are positive and add up to its attempts. */
  ghost predicate Balanced(a: Accumulator) {
    && Positive(a.repositories) && Positive(a.versions) && Positive(a.tasks)
    && Total(a.repositories) == Total(a.versions) == Total(a.tasks) == a.counts.attempts
  }

  lemma AddBalances(a: Accumulator, d: Digest)
    requires Balanced(a)
    ensures Balanced(Apply(a, d))
  {
    var c := d.contribution;
    TotalUpdate(a.repositories, c.repository, Entry(a.repositories, c.repository) + 1);
    TotalUpdate(a.versions, c.versionId, Entry(a.versions, c.versionId) + 1);
    TotalUpdate(a.tasks, c.taskId, Entry(a.tasks, c.taskId) + 1);
  }

  lemma {:induction false} GroupsBalanced(digests: seq<Digest>, scope: Scope, key: string)
    requires key in Groups(digests, scope)
    ensures Balanced(Groups(digests, scope)[key])
    decreases |digests|
  {
    var before := Groups(digests[..|digests| - 1], scope);
    var last := digests[|digests| - 1];
    if key in before {
      GroupsBalanced(digests[..|digests| - 1], scope, key);
    }
    if Belongs(last, scope, key) {
      AddBalances(Seed(before, scope, last.contribution), last);
    }
  }

  /** Every digest counts a property no more often than any property it implies. */
  predicate Consistent(d: Delta) {
    && d.stableMerge <= d.terminal && d.ciPassed <= d.ciObserved && d.approved <= d.reviewObserved
    && d.revertedAfterMerge <= d.merged && d.reopenedAfterMerge <= d.merged
    && d.stableMerge + d.revertedAfterMerge <= d.merged && d.terminal <= 1 && d.ciObserved <= 1 && d.reviewObserved <= 1
    && d.withoutFeedback <= 1 && d.selfOwned <= 1
  }

  ghost predicate Bounded(a: Accumulator) {
    && a.stableMerges <= a.quality <= a.counts.attempts
    && a.counts.ciPassed <= a.ciObserved <= a.counts.attempts
    && a.counts.approved <= a.reviewObserved <= a.counts.attempts
    && a.stableMerges + a.revertedAfterMerge <= a.counts.merged
    && a.withoutFeedback <= a.counts.attempts && a.selfOwned <= a.counts.attempts
  }

  lemma {:induction false} GroupsBounded(digests: seq<Digest>, scope: Scope, key: string)
    requires key in Groups(digests, scope) && forall i :: 0 <= i < |digests| ==> Consistent(digests[i].delta)
    ensures Bounded(Groups(digests, scope)[key])
    decreases |digests|
  {
    var before := Groups(digests[..|digests| - 1], scope);
    if key in before {
      GroupsBounded(digests[..|digests| - 1], scope, key);
    }
    assert Consistent(digests[|digests| - 1].delta);
  }

  lemma DigestsConsistent(v: View)
    ensures Consistent(DigestOf(v).delta)
  {
  }

  lemma RateBounds(part: nat, whole: nat)
    requires part <= whole
    ensures 0.0 <= Rate(part, whole) <= 1.0
    ensures 0 < part ==> 0.0 < Rate(part, whole)
  {
    if whole > 0 {
      assert part as real <= 1.0 * whole as real;
    }
  }

  /**
   The bounds of every projection: its distribution adds up to its attempts, its duplicate attempts
   are the attempts beyond one per task, and its rates and dominant share lie between 0 and 1.
   */
  lemma ProjectionBounds(facts: seq<Facts>, scope: Scope, key: string, p: Projection, at: int)
    requires key in Groups(Digests(facts), scope) && IsFinal(p, Groups(Digests(facts), scope)[key], scope, at)
    ensures Total(p.repositories) == p.counts.attempts > 0
    ensures scope == AgentLifetime ==> Total(p.versions) == p.counts.attempts
    ensures p.signals.duplicateTaskAttempts + |Groups(Digests(facts), scope)[key].tasks.Keys| == p.counts.attempts
    ensures 0.0 <= p.stableMergeRate <= 1.0 && 0.0 <= p.ciPassRate <= 1.0 && 0.0 <= p.approvalRate <= 1.0
    ensures 0.0 < p.signals.dominantShare <= 1.0
    ensures p.signals.withoutFeedback <= p.counts.attempts && p.signals.selfOwned <= p.counts.attempts
  {
    var a := Groups(Digests(facts), scope)[key];
    GroupsBalanced(Digests(facts), scope, key);
    forall i | 0 <= i < |facts| ensures Consistent(Digests(facts)[i].delta) {
      DigestsConsistent(ViewOf(facts[i]));
    }
    GroupsBounded(Digests(facts), scope, key);
    NumbersAreSums(Digests(facts), scope, key, Counting(Attempts));
    ExcessIsTotalLessKeys(a.tasks);
    RateBounds(a.stableMerges, a.quality);
    RateBounds(a.counts.ciPassed, a.ciObserved);
    RateBounds(a.counts.approved, a.reviewObserved);
    var largest :| IsLargest(a.repositories, largest) && p.signals.dominantShare == Rate(largest, a.counts.attempts);
    LargestWithinTotal(a.repositories, largest);
    RateBounds(largest, a.counts.attempts);
    var repository :| repository in a.repositories;
    assert largest >= a.repositories[repository] > 0;
  }

  /** The tasks of a group are the tasks of its contributions. */
  lemma TasksAreDistinctTasks(facts: seq<Facts>, scope: Scope, key: string, taskId: string)
    requires key in Groups(Digests(facts), scope)
    ensures taskId in Groups(Digests(facts), scope)[key].tasks.Keys <==> Picked(facts, scope, key, OnTask(taskId)) != {}
  {
    GroupsBalanced(Digests(facts), scope, key);
    NumbersCountContributions(facts, scope, key, OnTask(taskId));
  }
}
