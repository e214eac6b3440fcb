/** `knowledge_base_status`: counts of groups and topics, a health
    classification with an issue and a recommendation, the list of managed
    groups and a warning about orphaned topics. */
module KnowledgeBaseStatus {
  import opened Values
  import opened Text
  import opened Models

  datatype Status = NoManagedGroups | NoTopics | Healthy | Error

  /** The status string the endpoint reports. */
  function StatusName(s: Status): string {
    match s
    case NoManagedGroups => "no_managed_groups"
    case NoTopics => "no_topics"
    case Healthy => "healthy"
    case Error => "error"
  }

  /** Distinct statuses have distinct names. */
  lemma StatusNamesDistinct(s: Status, t: Status)
    ensures StatusName(s) == StatusName(t) <==> s == t
  {
    if s != t {
      assert StatusName(s)[0] != StatusName(t)[0] || StatusName(s)[3] != StatusName(t)[3];
    }
  }

  datatype Statistics = Statistics(
    totalGroups: nat,
    managedGroups: nat,
    totalTopics: nat,
    validTopics: nat,
    orphanedTopics: nat)

  /** One entry of `managed_groups_list`. */
  datatype ManagedGroupEntry = ManagedGroupEntry(groupJid: string, groupName: string, lastIngest: Option<string>)

  /** The response body; `statistics` is absent for the empty object of the
      error response. */
  datatype StatusReport = StatusReport(
    status: Status,
    healthy: bool,
    issue: Option<string>,
    recommendation: Option<string>,
    statistics: Option<Statistics>,
    managedGroupsList: seq<ManagedGroupEntry>,
    warnings: seq<string>)

  // ---------------------------------------------------------------------------
  // The counting queries

  /** `WHERE managed == True`, in table order. */
  function ManagedGroups(groups: seq<Group>): (r: seq<Group>)
    ensures |r| <= |groups|
    decreases |groups|
  {
    if |groups| == 0 then []
    else (if groups[0].managed then [groups[0]] else []) + ManagedGroups(groups[1..])
  }

  /** The managed groups are exactly the groups marked managed. */
  lemma {:induction false} ManagedGroupsSpec(groups: seq<Group>)
    ensures forall g :: g in ManagedGroups(groups) <==> g in groups && g.managed
    decreases |groups|
  {
    if |groups| > 0 {
      ManagedGroupsSpec(groups[1..]);
      assert groups == [groups[0]] + groups[1..];
    }
  }

  /** `WHERE group_jid != None`. */
  function ValidTopics(topics: seq<Topic>): seq<Topic>
    decreases |topics|
  {
    if |topics| == 0 then []
    else (if topics[0].groupJid.Some? then [topics[0]] else []) + ValidTopics(topics[1..])
  }

  /** `WHERE group_jid == None`. */
  function OrphanedTopics(topics: seq<Topic>): seq<Topic>
    decreases |topics|
  {
    if |topics| == 0 then []
    else (if topics[0].groupJid.None? then [topics[0]] else []) + OrphanedTopics(topics[1..])
  }

  /** Every topic is valid or orphaned and not both, so the two counts add up
      to the total; they hold exactly the topics with and without a group. */
  lemma {:induction false} TopicsPartition(topics: seq<Topic>)
    ensures |ValidTopics(topics)| + |OrphanedTopics(topics)| == |topics|
    ensures forall t :: t in ValidTopics(topics) <==> t in topics && t.groupJid.Some?
    ensures forall t :: t in OrphanedTopics(topics) <==> t in topics && t.groupJid.None?
    decreases |topics|
  {
    if |topics| > 0 {
      TopicsPartition(topics[1..]);
      assert topics == [topics[0]] + topics[1..];
    }
  }

  function Counts(groups: seq<Group>, topics: seq<Topic>): Statistics {
    Statistics(|groups|, |ManagedGroups(groups)|, |topics|, |ValidTopics(topics)|, |OrphanedTopics(topics)|)
  }

  /** The statistics are consistent: managed groups are at most all groups, and
      valid plus orphaned topics are all topics. */
  lemma CountsConsistent(groups: seq<Group>, topics: seq<Topic>)
    ensures Counts(groups, topics).managedGroups <= Counts(groups, topics).totalGroups
    ensures Counts(groups, topics).validTopics + Counts(groups, topics).orphanedTopics == Counts(groups, topics).totalTopics
  {
    TopicsPartition(topics);
  }

  // ---------------------------------------------------------------------------
  // Classification and the report

  /** The if/elif: no managed groups first, then no valid topics, else healthy. */
  function Classify(managedGroups: nat, validTopics: nat): (s: Status)
    ensures s == NoManagedGroups <==> managedGroups == 0
    ensures s == NoTopics <==> managedGroups > 0 && validTopics == 0
    ensures s == Healthy <==> managedGroups > 0 && validTopics > 0
    ensures s != Error
  {
    if managedGroups == 0 then NoManagedGroups
    else if validTopics == 0 then NoTopics
    else Healthy
  }

  function Issue(s: Status): Option<string> {
    match s
    case NoManagedGroups => Some("No groups configured for topic loading")
    case NoTopics => Some("No topics loaded yet")
    case _ => None
  }

  function Recommendation(s: Status): Option<string> {
    match s
    case NoManagedGroups => Some("Set managed=true for groups in database")
    case NoTopics => Some("Run topic loading process via /load_new_kbtopics")
    case _ => None
  }

  /** A managed group as listed: a missing or empty name shows as `"Unknown"`,
      the last ingest time in ISO form when there is one. */
  function Entry(g: Group, iso: Timestamp -> string): ManagedGroupEntry {
    ManagedGroupEntry(
      g.groupJid,
      if Truthy(g.groupName) then g.groupName.value else "Unknown",
      if g.lastIngest.Some? then Some(iso(g.lastIngest.value)) else None)
  }

  function ManagedGroupsList(groups: seq<Group>, iso: Timestamp -> string): (list: seq<ManagedGroupEntry>)
    ensures |list| == |ManagedGroups(groups)|
    ensures forall i | 0 <= i < |list| :: list[i] == Entry(ManagedGroups(groups)[i], iso)
  {
    var managed := ManagedGroups(groups);
    seq(|managed|, i requires 0 <= i < |managed| => Entry(managed[i], iso))
  }

  function OrphanWarning(orphaned: nat): string {
    "Found " + NatToString(orphaned) + " orphaned topics with NULL group_jid"
  }

  /** The report for the tables' contents. */
  function Report(groups: seq<Group>, topics: seq<Topic>, iso: Timestamp -> string): StatusReport {
    var stats := Counts(groups, topics);
    var status := Classify(stats.managedGroups, stats.validTopics);
    StatusReport(
      status,
      status == Healthy,
      Issue(status),
      Recommendation(status),
      Some(stats),
      ManagedGroupsList(groups, iso),
      if stats.orphanedTopics > 0 then [OrphanWarning(stats.orphanedTopics)] else [])
  }

  /** The report when a query raises. */
  function ErrorReport(error: string): StatusReport {
    StatusReport(Error, false, Some("Database error: " + error),
      Some("Check database connection and table structure"), None, [], [])
  }

  /** `knowledge_base_status`: the tables' contents, or the error a query raised. */
  function KnowledgeBaseStatus(db: Result<(seq<Group>, seq<Topic>), string>, iso: Timestamp -> string): StatusReport {
    match db
    case Ok((groups, topics)) => Report(groups, topics, iso)
    case Err(e) => ErrorReport(e)
  }

  /** The status is `no_managed_groups` whenever no group is managed, even with
      no topics at all; `no_topics` when some group is managed but no topic has
      a group; `healthy` otherwise. `healthy` holds exactly for the `"healthy"`
      status, and then there is neither issue nor recommendation. */
  lemma ReportClassification(groups: seq<Group>, topics: seq<Topic>, iso: Timestamp -> string)
    ensures var r := Report(groups, topics, iso);
      && (r.status == NoManagedGroups <==> forall g | g in groups :: !g.managed)
      && (r.status == NoTopics <==> (exists g | g in groups :: g.managed) && forall t | t in topics :: t.groupJid.None?)
      && (r.healthy <==> StatusName(r.status) == "healthy")
      && (r.healthy <==> r.issue.None?)
      && (r.healthy <==> r.recommendation.None?)
  {
    ManagedGroupsSpec(groups);
    TopicsPartition(topics);
    var r := Report(groups, topics, iso);
    StatusNamesDistinct(r.status, Healthy);
    if |ManagedGroups(groups)| > 0 {
      assert ManagedGroups(groups)[0] in ManagedGroups(groups);
    }
    if |ValidTopics(topics)| > 0 {
      assert ValidTopics(topics)[0] in ValidTopics(topics);
    }
  }

  /** One warning exactly when some topic has no group, naming their count. */
  lemma ReportWarnings(groups: seq<Group>, topics: seq<Topic>, iso: Timestamp -> string)
    ensures var r := Report(groups, topics, iso);
      && (|r.warnings| == 1 <==> exists t | t in topics :: t.groupJid.None?)
      && (r.warnings == [] <==> forall t | t in topics :: t.groupJid.Some?)
      && (|r.warnings| == 1 ==> r.warnings[0] == OrphanWarning(r.statistics.value.orphanedTopics))
  {
    TopicsPartition(topics);
    var orphans := OrphanedTopics(topics);
    if |orphans| > 0 {
      assert orphans[0] in orphans;
    }
  }

  /** One list entry per managed group, in table order, for managed groups only. */
  lemma ReportManagedList(groups: seq<Group>, topics: seq<Topic>, iso: Timestamp -> string)
    ensures var r := Report(groups, topics, iso);
      && |r.managedGroupsList| == r.statistics.value.managedGroups
      && forall e | e in r.managedGroupsList :: exists g | g in groups :: g.managed && e == Entry(g, iso)
  {
    ManagedGroupsSpec(groups);
    var list := ManagedGroupsList(groups, iso);
    assert Report(groups, topics, iso).managedGroupsList == list;
    forall e | e in list
      ensures exists g | g in groups :: g.managed && e == Entry(g, iso)
    {
      var i :| 0 <= i < |list| && list[i] == e;
      assert ManagedGroups(groups)[i] in ManagedGroups(groups);
    }
  }

  /** Any database error gives the `error` status, unhealthy, with empty
      statistics, list and warnings. */
  lemma ErrorReportSpec(e: string, iso: Timestamp -> string)
    ensures var r := KnowledgeBaseStatus(Err(e), iso);
      && StatusName(r.status) == "error" && !r.healthy
      && r.statistics.None? && r.managedGroupsList == [] && r.warnings == []
      && r.issue == Some("Database error: " + e)
  {
  }
}
