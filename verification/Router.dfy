/** internal/router/router.go: matching issues to routes, evaluating handoff gates, and enqueuing each match once. */
module Router {
  import opened Wrappers
  import opened Ordering
  import opened Model
  import opened Queries
  import opened Sqlite
  import opened Keys
  import TimeText

  /** An issue as stored; `bodyHash` is the hash of its body. */
  datatype Issue = Issue(ref: IssueRef, labels: seq<string>, open: bool, updated: Time, bodyHash: string)
  {
    function Key(): string
    {
      IssueKey(ref)
    }
  }

  datatype NextRoute = AnyRoute | CurrentRoute | ExactRoute(name: string)

  datatype Gate = Gate(required: bool, from: seq<string>, decisions: seq<string>, nextRoute: NextRoute, freshness: string)

  datatype Route = Route(name: string, kind: string, priority: int, includes: seq<string>, excludes: seq<string>, gate: Gate)

  datatype Handoff = Handoff(id: string, issueKey: string, routeName: string, decision: string, nextRoute: string,
                             sourceKind: string, sourceKey: string, sourceFingerprint: string, createdAt: Time)

  datatype Reason = MissingHandoff | DecisionNotAllowed | NextRouteMismatch | SourceStale | TargetStale

  datatype GateDecision = Pass(handoff: Option<Handoff>) | Blocked(reason: Reason, handoff: Option<Handoff>)

  predicate Matches(capabilities: seq<string>, route: Route, issue: Issue)
  {
    && issue.open && (capabilities == [] || route.kind in capabilities)
    && (forall want :: want in route.includes ==> want in issue.labels)
    && (forall blocked :: blocked in route.excludes ==> blocked !in issue.labels)
  }

  predicate GateEnabled(gate: Gate)
  {
    gate.required || gate.from != [] || gate.decisions != [] || gate.nextRoute != AnyRoute || !Blank(gate.freshness)
  }

  // ---- The latest matching handoff ----

  /** WHERE issue_key = ? AND route_name IN (...); blank route names are dropped, and an empty list filters nothing */
  predicate HandoffMatches(h: Handoff, issueKey: string, from: seq<string>)
  {
    (Blank(issueKey) || h.issueKey == issueKey)
    && ((exists name :: name in from && !Blank(name)) ==> !Blank(h.routeName) && h.routeName in from)
  }

  /** ORDER BY created_at DESC, id DESC */
  predicate NotLater(a: Handoff, b: Handoff)
  {
    a.createdAt < b.createdAt || (a.createdAt == b.createdAt && TextLe(a.id, b.id))
  }

  function LatestMatching(rows: seq<Handoff>, issueKey: string, from: seq<string>): Option<Handoff>
  {
    if rows == [] then None
    else
      var rest := LatestMatching(rows[1..], issueKey, from);
      if !HandoffMatches(rows[0], issueKey, from) then rest
      else if rest.Some? && NotLater(rows[0], rest.value) then rest
      else Some(rows[0])
  }

  /** LIMIT 1 returns a matching row that no matching row is later than, and nothing only when no row matches. */
  lemma {:induction false} LatestMatchingIsLatest(rows: seq<Handoff>, issueKey: string, from: seq<string>)
    ensures match LatestMatching(rows, issueKey, from)
            case None => forall h :: h in rows ==> !HandoffMatches(h, issueKey, from)
            case Some(top) =>
              top in rows && HandoffMatches(top, issueKey, from)
              && forall h :: h in rows && HandoffMatches(h, issueKey, from) ==> NotLater(h, top)
  {
    if rows != [] {
      LatestMatchingIsLatest(rows[1..], issueKey, from);
      TextLeOrders();
      assert rows == [rows[0]] + rows[1..];
    }
  }

  // ---- Gates ----

  predicate SourceFresh(h: Handoff, issue: Issue)
  {
    && (h.sourceKind == "" || h.sourceKind == "github_issue")
    && (h.sourceKey == "" || h.sourceKey == issue.Key() || h.sourceKey == "#" + TimeText.Pad(issue.ref.number, 1))
    && h.sourceFingerprint != ""
    && ((issue.updated != 0 && h.sourceFingerprint == TimeText.NanoText(issue.updated))
        || h.sourceFingerprint == issue.bodyHash)
  }

  function NextRouteWanted(next: NextRoute, current: string): string
  {
    match next
    case AnyRoute => ""
    case CurrentRoute => current
    case ExactRoute(name) => name
  }

  /** strings.TrimSpace(freshness) == name, for a name without space */
  predicate Trims(freshness: string, name: string)
  {
    exists i, j :: 0 <= i <= j <= |freshness| && Blank(freshness[..i]) && freshness[i..j] == name && Blank(freshness[j..])
  }

  lemma BlankParts(s: string, i: nat, j: nat)
    requires i <= j <= |s| && Blank(s[..i]) && Blank(s[j..])
    ensures forall k :: 0 <= k < |s| && (k < i || j <= k) ==> IsSpace(s[k])
  {
    forall k | 0 <= k < |s| && (k < i || j <= k) ensures IsSpace(s[k]) {
      if k < i {
        assert s[..i][k] == s[k];
      } else {
        assert s[j..][k - j] == s[k];
      }
    }
  }

  /** Without space at its ends a setting is taken as it stands. */
  lemma TrimsOnlyEnds(freshness: string, name: string)
    requires name != "" && !IsSpace(name[0]) && !IsSpace(name[|name| - 1])
    requires freshness != "" ==> !IsSpace(freshness[0]) && !IsSpace(freshness[|freshness| - 1])
    ensures Trims(freshness, name) <==> freshness == name
  {
    if freshness == name {
      assert freshness[..0] == "" && freshness[0..|name|] == name && freshness[|name|..] == "";
    }
    if Trims(freshness, name) {
      var i, j :| 0 <= i <= j <= |freshness| && Blank(freshness[..i]) && freshness[i..j] == name && Blank(freshness[j..]);
      BlankParts(freshness, i, j);
      assert freshness[0..|freshness|] == freshness;
    }
  }

  /** A handoff is fresh for two states of an issue only if they share the update time or the body, given that no body hash
      reads like a time; and only a GitHub issue under its own name or number is a source that can be fresh. */
  lemma FreshSource(h: Handoff, a: Issue, b: Issue)
    requires SourceFresh(h, a) && SourceFresh(h, b)
    requires a.bodyHash != TimeText.NanoText(b.updated) && b.bodyHash != TimeText.NanoText(a.updated)
    requires TimeText.FourDigitYear(a.updated) && TimeText.FourDigitYear(b.updated)
    ensures a.updated == b.updated || a.bodyHash == b.bodyHash
    ensures h.sourceKind in {"", "github_issue"} && h.sourceFingerprint != ""
    ensures h.sourceKey != "" ==>
              h.sourceKey in {a.Key(), "#" + TimeText.Pad(a.ref.number, 1)} * {b.Key(), "#" + TimeText.Pad(b.ref.number, 1)}
  {
    TimeText.ParseReadsNanoText(a.updated);
    TimeText.ParseReadsNanoText(b.updated);
  }

  function EvaluateGate(handoffs: seq<Handoff>, route: Route, issue: Issue): GateDecision
  {
    var gate := route.gate;
    if !GateEnabled(gate) then Pass(None)
    else
      var found := LatestMatching(handoffs, issue.Key(), gate.from);
      var wanted := NextRouteWanted(gate.nextRoute, route.name);
      if found.None? then if gate.required then Blocked(MissingHandoff, None) else Pass(None)
      else if gate.decisions != [] && found.value.decision !in gate.decisions then Blocked(DecisionNotAllowed, found)
      else if wanted != "" && found.value.nextRoute != wanted then Blocked(NextRouteMismatch, found)
      else if Trims(gate.freshness, "source_unchanged") then
        if SourceFresh(found.value, issue) then Pass(found) else Blocked(SourceStale, found)
      else if Trims(gate.freshness, "target_head_unchanged") then Blocked(TargetStale, found)
      else Pass(found)
  }

  // ---- What gates let through, on the fields of issue, route and handoffs ----

  /** Labels, state and kind are those the route asks for. */
  predicate Wanted(capabilities: seq<string>, route: Route, issue: Issue)
  {
    && issue.open && (capabilities == [] || route.kind in capabilities)
    && (forall i :: 0 <= i < |route.includes| ==> route.includes[i] in issue.labels)
    && (forall i :: 0 <= i < |issue.labels| ==> issue.labels[i] !in route.excludes)
  }

  /** A handoff of this issue, from one of the routes named if any is named. */
  predicate Relevant(h: Handoff, issue: Issue, from: seq<string>)
  {
    h.issueKey == issue.Key() && ((h.routeName in from && !Blank(h.routeName)) || forall i :: 0 <= i < |from| ==> Blank(from[i]))
  }

  /** A relevant handoff that no relevant one is later than. */
  ghost predicate IsLatest(handoffs: seq<Handoff>, issue: Issue, from: seq<string>, h: Handoff)
  {
    && h in handoffs && Relevant(h, issue, from)
    && forall k :: k in handoffs && Relevant(k, issue, from) ==>
         k.createdAt < h.createdAt || (k.createdAt == h.createdAt && TextLe(k.id, h.id))
  }

  predicate DecisionAllowed(gate: Gate, h: Handoff)
  {
    gate.decisions == [] || h.decision in gate.decisions
  }

  /** The handoff hands over to this route, or to the route the gate names; an empty name asks for nothing. */
  predicate HandsOver(gate: Gate, current: string, h: Handoff)
  {
    && (gate.nextRoute == CurrentRoute && current != "" ==> h.nextRoute == current)
    && (gate.nextRoute.ExactRoute? && gate.nextRoute.name != "" ==> h.nextRoute == gate.nextRoute.name)
  }

  /** The pair is enqueued: the route wants the issue, and its gate, when it is enabled, has no handoff and needs none, or
      accepts the latest one. */
  ghost predicate Admitted(world: Setting, route: Route, issue: Issue)
  {
    var gate := route.gate;
    && Wanted(world.capabilities, route, issue)
    && (gate.required || gate.from != [] || gate.decisions != [] || gate.nextRoute != AnyRoute || !Blank(gate.freshness) ==>
          || (!gate.required && forall h :: h in world.handoffs ==> !Relevant(h, issue, gate.from))
          || exists h :: IsLatest(world.handoffs, issue, gate.from, h) && DecisionAllowed(gate, h) && HandsOver(gate, route.name, h)
                         && (Trims(gate.freshness, "source_unchanged") ==> SourceFresh(h, issue))
                         && (Trims(gate.freshness, "target_head_unchanged") ==> Trims(gate.freshness, "source_unchanged")))
  }

  /** The pair is blocked for this reason. */
  ghost predicate Refused(world: Setting, route: Route, issue: Issue, reason: Reason)
  {
    var gate := route.gate;
    && Wanted(world.capabilities, route, issue)
    && (gate.required || gate.from != [] || gate.decisions != [] || gate.nextRoute != AnyRoute || !Blank(gate.freshness))
    && if reason == MissingHandoff then gate.required && forall h :: h in world.handoffs ==> !Relevant(h, issue, gate.from)
       else exists h :: IsLatest(world.handoffs, issue, gate.from, h) && RefusedBy(gate, route.name, issue, h, reason)
  }

  /** The first of the gate's demands that the handoff does not meet. */
  predicate RefusedBy(gate: Gate, current: string, issue: Issue, h: Handoff, reason: Reason)
  {
    match reason
    case MissingHandoff => false
    case DecisionNotAllowed => !DecisionAllowed(gate, h)
    case NextRouteMismatch => DecisionAllowed(gate, h) && !HandsOver(gate, current, h)
    case SourceStale =>
      DecisionAllowed(gate, h) && HandsOver(gate, current, h) && Trims(gate.freshness, "source_unchanged") && !SourceFresh(h, issue)
    case TargetStale =>
      DecisionAllowed(gate, h) && HandsOver(gate, current, h) && !Trims(gate.freshness, "source_unchanged")
      && Trims(gate.freshness, "target_head_unchanged")
  }

  lemma KeyIsNotBlank(issue: Issue)
    ensures !Blank(issue.Key())
  {
    assert exists i :: 0 <= i < |issue.Key()| && issue.Key()[i] == '/' by {
      assert issue.Key()[|issue.ref.host|] == '/';
    }
  }

  lemma RelevantMatches(h: Handoff, issue: Issue, from: seq<string>)
    ensures HandoffMatches(h, issue.Key(), from) <==> Relevant(h, issue, from)
  {
    KeyIsNotBlank(issue);
    if forall i :: 0 <= i < |from| ==> Blank(from[i]) {
    } else {
      var i :| 0 <= i < |from| && !Blank(from[i]);
      assert from[i] in from;
    }
  }

  lemma LatestIsLatest(handoffs: seq<Handoff>, issue: Issue, from: seq<string>)
    ensures match LatestMatching(handoffs, issue.Key(), from)
            case None => forall h :: h in handoffs ==> !Relevant(h, issue, from)
            case Some(top) => IsLatest(handoffs, issue, from, top)
  {
    LatestMatchingIsLatest(handoffs, issue.Key(), from);
    forall h ensures HandoffMatches(h, issue.Key(), from) <==> Relevant(h, issue, from) {
      RelevantMatches(h, issue, from);
    }
  }

  /** Handoff ids are the primary key, so there is one latest handoff at most. */
  ghost predicate DistinctIds(handoffs: seq<Handoff>)
  {
    forall h, k :: h in handoffs && k in handoffs && h.id == k.id ==> h == k
  }

  lemma OneLatest(handoffs: seq<Handoff>, issue: Issue, from: seq<string>, h: Handoff, k: Handoff)
    requires DistinctIds(handoffs) && IsLatest(handoffs, issue, from, h) && IsLatest(handoffs, issue, from, k)
    ensures h == k
  {
    TextLeOrders();
  }

  lemma WantedMatches(capabilities: seq<string>, route: Route, issue: Issue)
    ensures Matches(capabilities, route, issue) <==> Wanted(capabilities, route, issue)
  {
    if Wanted(capabilities, route, issue) {
      forall blocked | blocked in route.excludes ensures blocked !in issue.labels {
      }
    }
  }

  /** What is enqueued was admitted, and what is blocked was refused for the reason recorded. */
  lemma DecidedRightly(world: Setting, route: Route, issue: Issue)
    ensures Enqueues(world, route, issue) ==> Admitted(world, route, issue)
    ensures Blocks(world, route, issue) ==> Refused(world, route, issue, EvaluateGate(world.handoffs, route, issue).reason)
  {
    WantedMatches(world.capabilities, route, issue);
    LatestIsLatest(world.handoffs, issue, route.gate.from);
  }

  /** A pair is enqueued exactly when it is admitted, and blocked for a reason exactly when it is refused for it. */
  lemma GateDecides(world: Setting, route: Route, issue: Issue, reason: Reason)
    requires DistinctIds(world.handoffs)
    ensures Enqueues(world, route, issue) <==> Admitted(world, route, issue)
    ensures Blocks(world, route, issue) && EvaluateGate(world.handoffs, route, issue).reason == reason
            <==> Refused(world, route, issue, reason)
  {
    DecidedRightly(world, route, issue);
    WantedMatches(world.capabilities, route, issue);
    LatestIsLatest(world.handoffs, issue, route.gate.from);
    var top := LatestMatching(world.handoffs, issue.Key(), route.gate.from);
    if top.Some? {
      forall h | IsLatest(world.handoffs, issue, route.gate.from, h) ensures h == top.value {
        OneLatest(world.handoffs, issue, route.gate.from, h, top.value);
      }
    }
  }

  // ---- One pass ----

  datatype BlockKey = BlockKey(issueKey: string, generation: int, routeName: string, reason: Reason, scope: string)

  datatype Result = Result(issuesEvaluated: nat, routesMatched: nat, jobsCreated: nat, jobsExisting: nat,
                           gateBlocked: nat, gateBlocksRecorded: nat, gateBlocksExisting: nat)

  const NOTHING := Result(0, 0, 0, 0, 0, 0, 0)

  /** Everything a pass reads and does not change. */
  datatype Setting = Setting(capabilities: seq<string>, routes: seq<Route>, handoffs: seq<Handoff>,
                             generations: map<string, int>, hash: string -> string)

  function JobKey(world: Setting, route: Route, issue: Issue): string
  {
    DedupeKey(issue.ref, route.name, world.hash(LabelBytes(issue.labels)), issue.updated)
  }

  /** One job for each issue, route, set of labels and update: two pairs have one dedupe key exactly when they agree in all of
      these, given a hash that is hexadecimal and does not collide on their labels. */
  lemma JobKeysAgree(world: Setting, r1: Route, i1: Issue, r2: Route, i2: Issue)
    requires Repository(i1.ref) == Repository(i2.ref) || (Free(Repository(i1.ref), '#') && Free(Repository(i2.ref), '#'))
    requires NulFree(i1.labels) && NulFree(i2.labels) && TimeText.FourDigitYear(i1.updated) && TimeText.FourDigitYear(i2.updated)
    requires Free(world.hash(LabelBytes(i1.labels)), ':') && Free(world.hash(LabelBytes(i2.labels)), ':')
    requires world.hash(LabelBytes(i1.labels)) == world.hash(LabelBytes(i2.labels)) ==> LabelBytes(i1.labels) == LabelBytes(i2.labels)
    ensures JobKey(world, r1, i1) == JobKey(world, r2, i2)
            <==> i1.Key() == i2.Key() && r1.name == r2.name && multiset(i1.labels) == multiset(i2.labels) && i1.updated == i2.updated
  {
    DedupeKeyInjective(i1.ref, r1.name, world.hash(LabelBytes(i1.labels)), i1.updated,
                       i2.ref, r2.name, world.hash(LabelBytes(i2.labels)), i2.updated);
    LabelBytesIffSameLabels(i1.labels, i2.labels);
  }

  /** gateScopeHash */
  function GateScope(world: Setting, issue: Issue, decision: GateDecision): string
  {
    world.hash(if decision.handoff.Some? then ScopeBytes("handoff", [decision.handoff.value.id])
              else ScopeBytes("issue", [issue.Key(), TimeText.NanoText(issue.updated)]))
  }

  function BlockKeyOf(world: Setting, route: Route, issue: Issue): BlockKey
    requires EvaluateGate(world.handoffs, route, issue).Blocked?
    requires issue.Key() in world.generations
  {
    var decision := EvaluateGate(world.handoffs, route, issue);
    BlockKey(issue.Key(), world.generations[issue.Key()], route.name, decision.reason, GateScope(world, issue, decision))
  }

  /** A gate_blocks row. */
  datatype BlockRow = BlockRow(count: nat, applied: bool)

  predicate Enqueues(world: Setting, route: Route, issue: Issue)
  {
    Matches(world.capabilities, route, issue) && EvaluateGate(world.handoffs, route, issue).Pass?
  }

  predicate Blocks(world: Setting, route: Route, issue: Issue)
  {
    Matches(world.capabilities, route, issue) && EvaluateGate(world.handoffs, route, issue).Blocked?
  }

  predicate HasKey(jobs: map<string, Job>, key: string)
  {
    exists id :: id in jobs && jobs[id].task.dedupeKey == key
  }

  /** Job rows keep their task, and no row of either table is removed. */
  predicate Kept(jobs: map<string, Job>, blocks: map<BlockKey, BlockRow>, jobs': map<string, Job>, blocks': map<BlockKey, BlockRow>)
  {
    (forall id :: id in jobs ==> id in jobs' && jobs'[id].task == jobs[id].task) && blocks.Keys <= blocks'.Keys
  }

  /** No row is added. */
  predicate Unmoved(jobs: map<string, Job>, blocks: map<BlockKey, BlockRow>, jobs': map<string, Job>, blocks': map<BlockKey, BlockRow>)
  {
    jobs' == jobs && blocks'.Keys == blocks.Keys
  }

  /** This pair of issue and route needs nothing more: its job or its gate block is there. */
  ghost predicate Settled(world: Setting, jobs: map<string, Job>, blocks: map<BlockKey, BlockRow>, route: Route, issue: Issue)
  {
    && (Enqueues(world, route, issue) ==> HasKey(jobs, JobKey(world, route, issue)))
    && (Blocks(world, route, issue) ==> issue.Key() in world.generations && BlockKeyOf(world, route, issue) in blocks)
  }

  /** The first `n` routes are settled for the issue. */
  ghost predicate IssueSettled(world: Setting, jobs: map<string, Job>, blocks: map<BlockKey, BlockRow>, issue: Issue, n: nat)
  {
    forall r :: 0 <= r < n && r < |world.routes| ==> Settled(world, jobs, blocks, world.routes[r], issue)
  }

  /** Every route is settled for the first `n` issues. */
  ghost predicate AllSettled(world: Setting, jobs: map<string, Job>, blocks: map<BlockKey, BlockRow>, issues: seq<Issue>, n: nat)
  {
    forall i :: 0 <= i < n && i < |issues| ==> IssueSettled(world, jobs, blocks, issues[i], |world.routes|)
  }

  predicate Balanced(r: Result)
  {
    r.routesMatched == r.gateBlocked + r.jobsCreated + r.jobsExisting
    && r.gateBlocked == r.gateBlocksRecorded + r.gateBlocksExisting
  }

  /** Rows are only added, and the counters count the additions. */
  ghost predicate Advances(jobs: map<string, Job>, blocks: map<BlockKey, BlockRow>, r: Result,
                           jobs': map<string, Job>, blocks': map<BlockKey, BlockRow>, r': Result)
  {
    && Balanced(r')
    && Kept(jobs, blocks, jobs', blocks')
    && r'.jobsCreated - r.jobsCreated == |jobs'| - |jobs|
    && r'.gateBlocksRecorded - r.gateBlocksRecorded == |blocks'| - |blocks|
  }

  lemma StaysSettled(world: Setting, jobs: map<string, Job>, blocks: map<BlockKey, BlockRow>,
                     jobs': map<string, Job>, blocks': map<BlockKey, BlockRow>, route: Route, issue: Issue)
    requires Settled(world, jobs, blocks, route, issue) && Kept(jobs, blocks, jobs', blocks')
    ensures Settled(world, jobs', blocks', route, issue)
  {
    if Enqueues(world, route, issue) {
      var id :| id in jobs && jobs[id].task.dedupeKey == JobKey(world, route, issue);
      assert id in jobs' && jobs'[id].task.dedupeKey == JobKey(world, route, issue);
    }
  }

  lemma IssueStaysSettled(world: Setting, jobs: map<string, Job>, blocks: map<BlockKey, BlockRow>,
                          jobs': map<string, Job>, blocks': map<BlockKey, BlockRow>, issue: Issue, n: nat)
    requires IssueSettled(world, jobs, blocks, issue, n) && Kept(jobs, blocks, jobs', blocks')
    ensures IssueSettled(world, jobs', blocks', issue, n)
  {
    forall r | 0 <= r < n && r < |world.routes| ensures Settled(world, jobs', blocks', world.routes[r], issue) {
      StaysSettled(world, jobs, blocks, jobs', blocks', world.routes[r], issue);
    }
  }

  /** A settled pass stays settled as long as rows are kept, whatever the runners do to the jobs meanwhile. */
  lemma AllStaySettled(world: Setting, jobs: map<string, Job>, blocks: map<BlockKey, BlockRow>,
                       jobs': map<string, Job>, blocks': map<BlockKey, BlockRow>, issues: seq<Issue>, n: nat)
    requires AllSettled(world, jobs, blocks, issues, n) && Kept(jobs, blocks, jobs', blocks')
    ensures AllSettled(world, jobs', blocks', issues, n)
  {
    forall i | 0 <= i < n && i < |issues| ensures IssueSettled(world, jobs', blocks', issues[i], |world.routes|) {
      IssueStaysSettled(world, jobs, blocks, jobs', blocks', issues[i], |world.routes|);
    }
  }

  lemma OneMoreRoute(world: Setting, jobs: map<string, Job>, blocks: map<BlockKey, BlockRow>,
                     jobs': map<string, Job>, blocks': map<BlockKey, BlockRow>, issue: Issue, q: nat)
    requires q < |world.routes| && IssueSettled(world, jobs, blocks, issue, q) && Kept(jobs, blocks, jobs', blocks')
    requires Settled(world, jobs', blocks', world.routes[q], issue)
    ensures IssueSettled(world, jobs', blocks', issue, q + 1)
  {
    IssueStaysSettled(world, jobs, blocks, jobs', blocks', issue, q);
  }

  lemma OneMoreIssue(world: Setting, jobs: map<string, Job>, blocks: map<BlockKey, BlockRow>,
                     jobs': map<string, Job>, blocks': map<BlockKey, BlockRow>, issues: seq<Issue>, i: nat)
    requires i < |issues| && AllSettled(world, jobs, blocks, issues, i) && Kept(jobs, blocks, jobs', blocks')
    requires IssueSettled(world, jobs', blocks', issues[i], |world.routes|)
    ensures AllSettled(world, jobs', blocks', issues, i + 1)
  {
    AllStaySettled(world, jobs, blocks, jobs', blocks', issues, i);
  }

  lemma AdvancesOn(jobs0: map<string, Job>, blocks0: map<BlockKey, BlockRow>, r0: Result,
                   jobs1: map<string, Job>, blocks1: map<BlockKey, BlockRow>, r1: Result,
                   jobs2: map<string, Job>, blocks2: map<BlockKey, BlockRow>, r2: Result)
    requires Advances(jobs0, blocks0, r0, jobs1, blocks1, r1) && Advances(jobs1, blocks1, r1, jobs2, blocks2, r2)
    ensures Advances(jobs0, blocks0, r0, jobs2, blocks2, r2)
  {
  }

  /** The task of a job that this pair of issue and route was admitted for. */
  ghost predicate TaskFor(world: Setting, route: Route, issue: Issue, now: Time, task: Task)
  {
    && Admitted(world, route, issue)
    && task == Task(issue.Key(), route.name, route.kind, route.priority, JobKey(world, route, issue), now, now)
  }

  /** The key of a gate block that this pair was refused with. */
  ghost predicate BlockFor(world: Setting, route: Route, issue: Issue, key: BlockKey)
  {
    && Refused(world, route, issue, key.reason)
    && key.issueKey == issue.Key() && key.routeName == route.name
    && issue.Key() in world.generations && key.generation == world.generations[issue.Key()]
    && (key.reason == MissingHandoff ==>
          key.scope == world.hash(ScopeBytes("issue", [issue.Key(), TimeText.NanoText(issue.updated)])))
    && (key.reason != MissingHandoff ==>
          exists h :: IsLatest(world.handoffs, issue, route.gate.from, h) && key.scope == world.hash(ScopeBytes("handoff", [h.id])))
  }

  /** Every row added stands for one of these issues and a configured route. */
  ghost predicate Accounted(world: Setting, issues: seq<Issue>, now: Time, jobs: map<string, Job>, blocks: map<BlockKey, BlockRow>,
                            jobs': map<string, Job>, blocks': map<BlockKey, BlockRow>)
  {
    && (forall id :: id in jobs' && id !in jobs ==>
          exists route, issue :: route in world.routes && issue in issues && TaskFor(world, route, issue, now, jobs'[id].task))
    && (forall key :: key in blocks' && key !in blocks ==>
          exists route, issue :: route in world.routes && issue in issues && BlockFor(world, route, issue, key))
  }

  lemma AccountedOn(world: Setting, issues: seq<Issue>, more: seq<Issue>, now: Time,
                    jobs0: map<string, Job>, blocks0: map<BlockKey, BlockRow>, jobs1: map<string, Job>, blocks1: map<BlockKey, BlockRow>,
                    jobs2: map<string, Job>, blocks2: map<BlockKey, BlockRow>)
    requires Accounted(world, issues, now, jobs0, blocks0, jobs1, blocks1)
    requires Accounted(world, more, now, jobs1, blocks1, jobs2, blocks2) && Kept(jobs1, blocks1, jobs2, blocks2)
    requires forall issue :: issue in more ==> issue in issues
    ensures Accounted(world, issues, now, jobs0, blocks0, jobs2, blocks2)
  {
    forall id | id in jobs2 && id !in jobs0
      ensures exists route, issue :: route in world.routes && issue in issues && TaskFor(world, route, issue, now, jobs2[id].task)
    {
      if id in jobs1 {
        var route, issue :| route in world.routes && issue in issues && TaskFor(world, route, issue, now, jobs1[id].task);
        assert TaskFor(world, route, issue, now, jobs2[id].task);
      }
    }
  }

  lemma CountsAgree(a: map<BlockKey, BlockRow>, b: map<BlockKey, BlockRow>)
    ensures a.Keys == b.Keys ==> |a| == |b|
  {
    assert |a| == |a.Keys| && |b| == |b.Keys|;
  }

  class Router {
    const store: Store
    const world: Setting
    const ids: nat -> string
    var blocks: map<BlockKey, BlockRow>
    var nextId: nat

    constructor (store: Store, world: Setting, ids: nat -> string)
      ensures this.store == store && this.world == world && this.ids == ids && blocks == map[]
    {
      this.store, this.world, this.ids, blocks, nextId := store, world, ids, map[], 0;
    }

    /** RecordGateBlock: blank columns are refused; otherwise insert with count 1, or count one more and keep the mark of an
        applied action. A reason is never blank. */
    method RecordGateBlock(key: BlockKey) returns (ok: bool, inserted: bool, row: BlockRow)
      modifies this`blocks
      ensures ok <==> !Blank(key.issueKey) && !Blank(key.routeName) && !Blank(key.scope)
      ensures inserted <==> ok && key !in old(blocks)
      ensures ok ==> row == if inserted then BlockRow(1, false) else old(blocks)[key].(count := old(blocks)[key].count + 1)
      ensures blocks == if ok then old(blocks)[key := row] else old(blocks)
    {
      ok, inserted, row := true, false, BlockRow(0, false);
      if Blank(key.issueKey) || Blank(key.routeName) || Blank(key.scope) {
        ok := false;
        return;
      }
      inserted := key !in blocks;
      row := if inserted then BlockRow(1, false) else blocks[key].(count := blocks[key].count + 1);
      blocks := blocks[key := row];
    }

    method BlockPair(route: Route, issue: Issue, before: Result) returns (ok: bool, result: Result)
      requires Balanced(before) && Blocks(world, route, issue)
      modifies this`blocks
      ensures Advances(store.jobs, old(blocks), before, store.jobs, blocks, result)
      ensures ok ==> Settled(world, store.jobs, blocks, route, issue) && result.routesMatched == before.routesMatched + 1
      ensures Settled(world, store.jobs, old(blocks), route, issue) ==> blocks.Keys == old(blocks).Keys
      ensures forall key :: key in blocks && key !in old(blocks) ==> BlockFor(world, route, issue, key)
    {
      DecidedRightly(world, route, issue);
      LatestIsLatest(world.handoffs, issue, route.gate.from);
      ok, result := true, before;
      if issue.Key() !in world.generations {
        return false, before;
      }
      ghost var had := blocks;
      var inserted, row;
      ok, inserted, row := RecordGateBlock(BlockKeyOf(world, route, issue));
      if !ok {
        return;
      }
      assert |blocks| == |blocks.Keys| && |had| == |had.Keys|;
      result := result.(routesMatched := result.routesMatched + 1, gateBlocked := result.gateBlocked + 1);
      if inserted {
        result := result.(gateBlocksRecorded := result.gateBlocksRecorded + 1);
      } else {
        result := result.(gateBlocksExisting := result.gateBlocksExisting + 1);
        assert blocks.Keys == had.Keys;
      }
    }

    method EnqueuePair(route: Route, issue: Issue, now: Time, before: Result) returns (ok: bool, result: Result)
      requires Balanced(before) && Enqueues(world, route, issue)
      modifies this`nextId, store`jobs
      ensures Advances(old(store.jobs), blocks, before, store.jobs, blocks, result)
      ensures ok ==> Settled(world, store.jobs, blocks, route, issue) && result.routesMatched == before.routesMatched + 1
      ensures HasKey(old(store.jobs), JobKey(world, route, issue)) ==> store.jobs == old(store.jobs)
      ensures forall id :: id in store.jobs && id !in old(store.jobs) ==>
                store.jobs[id].status.Pending? && TaskFor(world, route, issue, now, store.jobs[id].task)
    {
      DecidedRightly(world, route, issue);
      var task := Task(issue.Key(), route.name, route.kind, route.priority, JobKey(world, route, issue), 0, 0);
      ok, result := true, before;
      var row, inserted := store.EnqueueJob(ids(nextId), task, now);
      nextId := nextId + 1;
      if row.None? {
        return false, before;
      }
      assert HasKey(store.jobs, task.dedupeKey);
      result := result.(routesMatched := result.routesMatched + 1);
      if inserted {
        result := result.(jobsCreated := result.jobsCreated + 1);
      } else {
        result := result.(jobsExisting := result.jobsExisting + 1);
      }
    }

    /** One pair of issue and route. It ends settled, and a settled pair is left alone. */
    method RoutePair(route: Route, issue: Issue, now: Time, before: Result) returns (ok: bool, result: Result)
      requires Balanced(before) && route in world.routes
      modifies this, store`jobs
      ensures Advances(old(store.jobs), old(blocks), before, store.jobs, blocks, result)
      ensures ok ==> Settled(world, store.jobs, blocks, route, issue)
      ensures ok ==> result.routesMatched == before.routesMatched + (if Matches(world.capabilities, route, issue) then 1 else 0)
      ensures Settled(world, old(store.jobs), old(blocks), route, issue) ==>
                Unmoved(old(store.jobs), old(blocks), store.jobs, blocks)
      ensures Accounted(world, [issue], now, old(store.jobs), old(blocks), store.jobs, blocks)
    {
      if !Matches(world.capabilities, route, issue) {
        return true, before;
      }
      if EvaluateGate(world.handoffs, route, issue).Blocked? {
        ok, result := BlockPair(route, issue, before);
      } else {
        ok, result := EnqueuePair(route, issue, now, before);
      }
    }

    /** The inner loop: every route for one issue. */
    method RouteIssue(issue: Issue, now: Time, before: Result) returns (ok: bool, result: Result)
      requires Balanced(before)
      modifies this, store`jobs
      ensures Advances(old(store.jobs), old(blocks), before, store.jobs, blocks, result)
      ensures ok ==> IssueSettled(world, store.jobs, blocks, issue, |world.routes|)
      ensures IssueSettled(world, old(store.jobs), old(blocks), issue, |world.routes|) ==>
                Unmoved(old(store.jobs), old(blocks), store.jobs, blocks)
      ensures Accounted(world, [issue], now, old(store.jobs), old(blocks), store.jobs, blocks)
    {
      ok, result := true, before;
      ghost var jobs0, blocks0 := store.jobs, blocks;
      ghost var settled := IssueSettled(world, jobs0, blocks0, issue, |world.routes|);
      for q := 0 to |world.routes|
        invariant Advances(jobs0, blocks0, before, store.jobs, blocks, result)
        invariant IssueSettled(world, store.jobs, blocks, issue, q)
        invariant Accounted(world, [issue], now, jobs0, blocks0, store.jobs, blocks)
        invariant settled ==> Unmoved(jobs0, blocks0, store.jobs, blocks)
      {
        ghost var jobs1, blocks1, so := store.jobs, blocks, result;
        if settled {
          StaysSettled(world, jobs0, blocks0, jobs1, blocks1, world.routes[q], issue);
        }
        ok, result := RoutePair(world.routes[q], issue, now, result);
        AdvancesOn(jobs0, blocks0, before, jobs1, blocks1, so, store.jobs, blocks, result);
        AccountedOn(world, [issue], [issue], now, jobs0, blocks0, jobs1, blocks1, store.jobs, blocks);
        if !ok {
          return;
        }
        OneMoreRoute(world, jobs1, blocks1, store.jobs, blocks, issue, q);
      }
    }

    /** RouteWithGitHub without a GitHub client. The counters add up and count what was really inserted; a pass without
        error settles every pair, and an error returns no counters; a pass over settled pairs inserts no job and no block. */
    method Route(issues: seq<Issue>, now: Time) returns (ok: bool, result: Result)
      modifies this, store`jobs
      ensures Kept(old(store.jobs), old(blocks), store.jobs, blocks)
      ensures ok ==> Advances(old(store.jobs), old(blocks), NOTHING.(issuesEvaluated := |issues|), store.jobs, blocks, result)
      ensures ok ==> AllSettled(world, store.jobs, blocks, issues, |issues|)
      ensures !ok ==> result == NOTHING
      ensures Accounted(world, issues, now, old(store.jobs), old(blocks), store.jobs, blocks)
      ensures AllSettled(world, old(store.jobs), old(blocks), issues, |issues|) ==>
                result.jobsCreated == 0 && result.gateBlocksRecorded == 0 && Unmoved(old(store.jobs), old(blocks), store.jobs, blocks)
    {
      ok, result := true, NOTHING.(issuesEvaluated := |issues|);
      ghost var jobs0, blocks0, zero := store.jobs, blocks, result;
      ghost var settled := AllSettled(world, jobs0, blocks0, issues, |issues|);
      for i := 0 to |issues|
        invariant ok && Advances(jobs0, blocks0, zero, store.jobs, blocks, result)
        invariant AllSettled(world, store.jobs, blocks, issues, i)
        invariant Accounted(world, issues, now, jobs0, blocks0, store.jobs, blocks)
        invariant settled ==> Unmoved(jobs0, blocks0, store.jobs, blocks)
      {
        ghost var jobs1, blocks1, so := store.jobs, blocks, result;
        if settled {
          IssueStaysSettled(world, jobs0, blocks0, jobs1, blocks1, issues[i], |world.routes|);
        }
        ok, result := RouteIssue(issues[i], now, result);
        AdvancesOn(jobs0, blocks0, zero, jobs1, blocks1, so, store.jobs, blocks, result);
        AccountedOn(world, issues, [issues[i]], now, jobs0, blocks0, jobs1, blocks1, store.jobs, blocks);
        if !ok {
          return false, NOTHING;
        }
        OneMoreIssue(world, jobs1, blocks1, store.jobs, blocks, issues, i);
      }
      CountsAgree(blocks0, blocks);
    }

    /** Idempotence: whatever the runners and other routers do to the rows in between, as long as job rows keep their
        tasks and gate blocks stay, a second pass over the same issues creates no job and records no new gate block. */
    method RouteTwice(issues: seq<Issue>, now: Time, jobs': map<string, Job>, blocks': map<BlockKey, BlockRow>, later: Time)
      returns (ok: bool, second: Result)
      modifies this, store`jobs
      ensures ok ==> second.jobsCreated == 0 && second.gateBlocksRecorded == 0
                     && second.routesMatched == second.jobsExisting + second.gateBlocksExisting
    {
      ok, second := Route(issues, now);
      if ok {
        if Kept(store.jobs, blocks, jobs', blocks') {
          AllStaySettled(world, store.jobs, blocks, jobs', blocks', issues, |issues|);
          store.jobs, blocks := jobs', blocks';
        }
        ok, second := Route(issues, later);
      }
    }
  }
}
