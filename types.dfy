/** The records the application stores, its enumerations and its two constant
    tables. Timestamps are readings of an injected clock (a `nat`, ordered
    like the ISO-8601 strings the application writes); a technician's rating
    is kept in tenths of a star so that the one-decimal arithmetic is exact. */
module Types {
  import opened Wrappers
  import opened Seqs

  type Timestamp = nat

  datatype UserRole = RoleUser | RoleTechnician | RoleAdmin

  datatype JobStatus = Requested | Assigned | Enroute | InProgress | Completed

  datatype IssueType = Battery | Panel | Wiring | Inverter

  datatype Gender = Male | Female

  datatype User = User(
    id: string,
    name: string,
    email: string,
    phone: string,
    role: UserRole,
    cluster: string,
    createdAt: Timestamp)

  /** `rating` is in tenths of a star; 0 means "not rated yet". */
  datatype Technician = Technician(
    id: string,
    userId: string,
    name: string,
    email: string,
    phone: string,
    gender: Gender,
    cluster: string,
    online: bool,
    rating: int,
    totalJobs: nat,
    earningsToday: int,
    earningsWeekly: int,
    earningsTotal: int,
    createdAt: Timestamp)

  datatype StatusHistoryEntry = StatusHistoryEntry(status: JobStatus, timestamp: Timestamp)

  datatype Job = Job(
    id: string,
    userId: string,
    userName: string,
    technicianId: Option<string>,
    technicianName: Option<string>,
    issueType: IssueType,
    description: string,
    imageUrl: Option<string>,
    cluster: string,
    location: string,
    preferredTime: string,
    status: JobStatus,
    rating: Option<int>,
    createdAt: Timestamp,
    updatedAt: Timestamp,
    statusHistory: seq<StatusHistoryEntry>)

  datatype Rating = Rating(
    id: string,
    jobId: string,
    userId: string,
    technicianId: string,
    score: int,
    comment: string,
    createdAt: Timestamp)

  datatype Cluster = Cluster(id: string, name: string, location: string, description: string)

  datatype IssueTypeInfo = IssueTypeInfo(value: IssueType, labelText: string, description: string)

  /** The five service zones; jobs and technicians name their zone by `name`. */
  const CLUSTERS: seq<Cluster> := [
    Cluster("cl-1", "Belgaum North", "Belgaum, Karnataka",
            "Urban cluster covering north Belgaum residential areas"),
    Cluster("cl-2", "Belgaum South", "Belgaum, Karnataka",
            "Southern residential and semi-urban areas"),
    Cluster("cl-3", "Belgaum Rural East", "Belgaum, Karnataka",
            "Eastern rural villages with solar installations"),
    Cluster("cl-4", "Belgaum Rural West", "Belgaum, Karnataka",
            "Western rural cluster near agricultural zones"),
    Cluster("cl-5", "Khanapur", "Belgaum, Karnataka", "Khanapur taluk solar service zone")
  ]

  const ISSUE_TYPES: seq<IssueTypeInfo> := [
    IssueTypeInfo(Battery, "Battery Issue", "Battery not charging, swollen, or leaking"),
    IssueTypeInfo(Panel, "Solar Panel", "Panel damage, low output, or dirty panels"),
    IssueTypeInfo(Wiring, "Wiring Problem", "Loose connections, burnt wires, or short circuit"),
    IssueTypeInfo(Inverter, "Inverter Fault", "Inverter not working, overheating, or error codes")
  ]

  /** The cluster names, in table order. */
  function ClusterNames(): (names: seq<string>)
    ensures |names| == |CLUSTERS|
    ensures forall i :: 0 <= i < |CLUSTERS| ==> names[i] == CLUSTERS[i].name
  {
    seq(|CLUSTERS|, i requires 0 <= i < |CLUSTERS| => CLUSTERS[i].name)
  }

  /** The issue-type values, in table order. */
  function IssueTypeValues(): (values: seq<IssueType>)
    ensures |values| == |ISSUE_TYPES|
    ensures forall i :: 0 <= i < |ISSUE_TYPES| ==> values[i] == ISSUE_TYPES[i].value
  {
    seq(|ISSUE_TYPES|, i requires 0 <= i < |ISSUE_TYPES| => ISSUE_TYPES[i].value)
  }

  /** Every job status, in lifecycle order. */
  const JOB_STATUSES: seq<JobStatus> := [Requested, Assigned, Enroute, InProgress, Completed]

  /** A job status is one of exactly five values. */
  lemma JobStatusHasFiveValues()
    ensures |JOB_STATUSES| == 5 && Distinct(JOB_STATUSES)
    ensures forall s: JobStatus :: s in JOB_STATUSES
  {
    forall s: JobStatus ensures s in JOB_STATUSES {
      match s
      case Requested => assert JOB_STATUSES[0] == s;
      case Assigned => assert JOB_STATUSES[1] == s;
      case Enroute => assert JOB_STATUSES[2] == s;
      case InProgress => assert JOB_STATUSES[3] == s;
      case Completed => assert JOB_STATUSES[4] == s;
    }
  }

  /** An issue type is one of exactly four values, a role one of three, a
      gender one of two. */
  lemma EnumerationSizes(it: IssueType, role: UserRole, g: Gender)
    ensures it == Battery || it == Panel || it == Wiring || it == Inverter
    ensures role == RoleUser || role == RoleTechnician || role == RoleAdmin
    ensures g == Male || g == Female
  {
  }

  /** The cluster table has five entries whose ids, and whose names, are
      pairwise distinct. */
  lemma ClustersDistinct()
    ensures |CLUSTERS| == 5
    ensures forall i, j :: 0 <= i < j < |CLUSTERS| ==> CLUSTERS[i].id != CLUSTERS[j].id
    ensures Distinct(ClusterNames())
  {
  }

  /** The issue-type table lists every issue type exactly once. */
  lemma IssueTypesListedOnce()
    ensures Distinct(IssueTypeValues())
    ensures forall it: IssueType :: it in IssueTypeValues()
  {
    var v := IssueTypeValues();
    assert v == [Battery, Panel, Wiring, Inverter];
    forall it: IssueType ensures it in v {
      match it
      case Battery => assert v[0] == it;
      case Panel => assert v[1] == it;
      case Wiring => assert v[2] == it;
      case Inverter => assert v[3] == it;
    }
  }
}
