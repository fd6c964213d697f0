/** The administrator's dashboard: the headline counts, the per-cluster and
    per-issue-type bars, and the ten most recent requests. */
module AdminDashboard {
  import opened Wrappers
  import opened Seqs
  import opened Types
  import TechService

  datatype Stats = Stats(
    total: nat,
    completed: nat,
    pending: nat,
    inProgress: nat,
    onlineTechs: nat,
    totalEarnings: int,
    womenTechs: nat)

  /** The predicate `j.status === status`. */
  function HasStatus(status: JobStatus): Job -> bool {
    (j: Job) => j.status == status
  }

  /** The predicate "assigned, en route or in progress". */
  function IsUnderway(): Job -> bool {
    (j: Job) => j.status == Assigned || j.status == Enroute || j.status == InProgress
  }

  /** The predicate `t.online`. */
  function IsOnline(): Technician -> bool {
    (t: Technician) => t.online
  }

  /** The predicate `t.gender === "female"`. */
  function IsWoman(): Technician -> bool {
    (t: Technician) => t.gender == Female
  }

  /** `technicians.reduce((sum, t) => sum + t.earningsTotal, 0)`. */
  function TotalEarnings(techs: seq<Technician>): (r: int)
    ensures (forall t :: t in techs ==> t.earningsTotal >= 0) ==> r >= 0
    decreases |techs|
  {
    if |techs| == 0 then 0
    else
      assert forall t :: t in techs[1..] ==> t in techs;
      techs[0].earningsTotal + TotalEarnings(techs[1..])
  }

  /** Replacing one technician changes the total by the change in that
      technician's earnings. */
  lemma {:induction false} TotalEarningsReplace(techs: seq<Technician>, i: nat, t: Technician)
    requires i < |techs|
    ensures TotalEarnings(techs[i := t]) == TotalEarnings(techs) - techs[i].earningsTotal + t.earningsTotal
    decreases |techs|
  {
    if i > 0 {
      assert techs[i := t][1..] == techs[1..][i - 1 := t];
      TotalEarningsReplace(techs[1..], i - 1, t);
    } else {
      assert techs[i := t][1..] == techs[1..];
    }
  }

  /** Crediting a known technician raises the sum of total earnings by the
      amount; an unknown id leaves it alone. */
  lemma CreditRaisesTotal(techs: seq<Technician>, id: string, amount: int)
    ensures TotalEarnings(TechService.Credited(techs, id, amount)) ==
            TotalEarnings(techs) + (if TechService.TechIndex(techs, id).Some? then amount else 0)
  {
    match TechService.TechIndex(techs, id)
    case None =>
    case Some(i) =>
      var t := techs[i];
      var u := t.(earningsToday := t.earningsToday + amount,
                  earningsWeekly := t.earningsWeekly + amount,
                  earningsTotal := t.earningsTotal + amount,
                  totalJobs := t.totalJobs + 1);
      assert TechService.Credited(techs, id, amount) == techs[i := u];
      TotalEarningsReplace(techs, i, u);
  }

  /** A completion payout raises the dashboard's total earnings by exactly the
      amount paid, and an unknown technician id leaves it alone. */
  lemma PayoutRaisesTotalEarnings(jobs: seq<Job>, techs: seq<Technician>, id: string, amount: int)
    ensures DashboardStats(jobs, TechService.Credited(techs, id, amount)).totalEarnings ==
            DashboardStats(jobs, techs).totalEarnings +
            (if TechService.TechIndex(techs, id).Some? then amount else 0)
  {
    CreditRaisesTotal(techs, id, amount);
  }

  /** The `stats` block. Every job is exactly one of completed, pending or
      underway, so those three counts add up to the total. */
  function DashboardStats(jobs: seq<Job>, techs: seq<Technician>): (r: Stats)
    ensures r.total == |jobs| && r.completed + r.pending + r.inProgress == r.total
    ensures r.onlineTechs <= |techs| && r.womenTechs <= |techs|
    ensures (forall t :: t in techs ==> t.earningsTotal >= 0) ==> r.totalEarnings >= 0
    ensures r.pending == 0 <==> forall j :: j in jobs ==> j.status != Requested
    ensures r.completed == Count(jobs, HasStatus(Completed)) && r.pending == Count(jobs, HasStatus(Requested))
    ensures r.onlineTechs == Count(techs, IsOnline()) && r.womenTechs == Count(techs, IsWoman())
    ensures r.totalEarnings == TotalEarnings(techs)
  {
    CountPartition3(jobs, HasStatus(Completed), HasStatus(Requested), IsUnderway());
    Stats(|jobs|, Count(jobs, HasStatus(Completed)), Count(jobs, HasStatus(Requested)),
          Count(jobs, IsUnderway()), Count(techs, IsOnline()), TotalEarnings(techs),
          Count(techs, IsWoman()))
  }

  /** `s.replace(pat, rep)` for a string pattern: the first occurrence, if
      any, is replaced. */
  function ReplaceFirst(s: string, pat: string, rep: string): (r: string)
    requires |pat| > 0
    ensures |pat| <= |s| && s[..|pat|] == pat ==> r == rep + s[|pat|..]
    ensures |s| < |pat| ==> r == s
    decreases |s|
  {
    if |s| < |pat| then s
    else if s[..|pat|] == pat then rep + s[|pat|..]
    else [s[0]] + ReplaceFirst(s[1..], pat, rep)
  }

  /** The pattern occurs in `s` starting at index `i`. */
  predicate OccursAt(s: string, pat: string, i: nat) {
    i + |pat| <= |s| && s[i..i + |pat|] == pat
  }

  /** Shifting an occurrence by the dropped first character. */
  lemma OccursAtTail(s: string, pat: string, k: nat)
    requires |s| > 0
    ensures OccursAt(s[1..], pat, k) <==> OccursAt(s, pat, k + 1)
  {
    if k + 1 + |pat| <= |s| {
      assert s[1..][k..k + |pat|] == s[k + 1..k + 1 + |pat|];
    }
  }

  /** The replacement happens at the first index where the pattern occurs:
      everything before it and after the match is kept. */
  lemma {:induction false} ReplaceFirstAt(s: string, pat: string, rep: string, i: nat)
    requires |pat| > 0 && OccursAt(s, pat, i)
    requires forall k: nat :: k < i ==> !OccursAt(s, pat, k)
    ensures ReplaceFirst(s, pat, rep) == s[..i] + rep + s[i + |pat|..]
    decreases i
  {
    if i == 0 {
      ReplaceFirstAtHead(s, pat, rep);
    } else {
      ReplaceFirstSkipsHead(s, pat, rep);
      FirstOccurrenceInTail(s, pat, i);
      ReplaceFirstAt(s[1..], pat, rep, i - 1);
      SplitAfterHead(s, i, |pat|, rep);
    }
  }

  /** An occurrence at index 0 is the one replaced. */
  lemma ReplaceFirstAtHead(s: string, pat: string, rep: string)
    requires |pat| > 0 && OccursAt(s, pat, 0)
    ensures ReplaceFirst(s, pat, rep) == s[..0] + rep + s[|pat|..]
  {
    assert s[0..|pat|] == s[..|pat|];
    assert s[..0] + rep == rep;
  }

  /** Without an occurrence at index 0 the first character is kept and the
      search goes on in the tail. */
  lemma ReplaceFirstSkipsHead(s: string, pat: string, rep: string)
    requires |pat| > 0 && |pat| < |s| && !OccursAt(s, pat, 0)
    ensures ReplaceFirst(s, pat, rep) == [s[0]] + ReplaceFirst(s[1..], pat, rep)
  {
    assert s[0..|pat|] == s[..|pat|];
  }

  /** A first occurrence past index 0 is, one place earlier, the first
      occurrence in the tail. */
  lemma FirstOccurrenceInTail(s: string, pat: string, i: nat)
    requires 0 < i && OccursAt(s, pat, i)
    requires forall k: nat :: k < i ==> !OccursAt(s, pat, k)
    ensures OccursAt(s[1..], pat, i - 1)
    ensures forall k: nat :: k < i - 1 ==> !OccursAt(s[1..], pat, k)
  {
    OccursAtTail(s, pat, i - 1);
    forall k: nat | k < i - 1 ensures !OccursAt(s[1..], pat, k) {
      OccursAtTail(s, pat, k);
    }
  }

  /** Putting back the first character in front of a split of the tail. */
  lemma SplitAfterHead(s: string, i: nat, n: nat, rep: string)
    requires 0 < i && i + n <= |s|
    ensures [s[0]] + (s[1..][..i - 1] + rep + s[1..][i - 1 + n..]) == s[..i] + rep + s[i + n..]
  {
    assert s[1..][..i - 1] == s[1..i] && s[1..][i - 1 + n..] == s[i + n..];
    assert [s[0]] + s[1..i] == s[..i];
  }

  /** A pattern that occurs nowhere leaves the string as it is. */
  lemma {:induction false} ReplaceFirstAbsent(s: string, pat: string, rep: string)
    requires |pat| > 0
    requires forall k: nat :: !OccursAt(s, pat, k)
    ensures ReplaceFirst(s, pat, rep) == s
    decreases |s|
  {
    if |pat| <= |s| {
      assert !OccursAt(s, pat, 0);
      forall k: nat ensures !OccursAt(s[1..], pat, k) {
        OccursAtTail(s, pat, k);
      }
      ReplaceFirstAbsent(s[1..], pat, rep);
      assert [s[0]] + s[1..] == s;
    }
  }

  /** The bar label of a cluster: "Belgaum " dropped, "Rural " shortened. */
  function ClusterLabel(name: string): string {
    ReplaceFirst(ReplaceFirst(name, "Belgaum ", ""), "Rural ", "R.")
  }

  /** The label of a "Belgaum <rest>" cluster whose rest does not start with
      "Rural " and is shorter than that word. */
  lemma UrbanLabel(name: string, rest: string)
    requires name == "Belgaum " + rest && |rest| < 6
    ensures ClusterLabel(name) == rest
  {
    assert name[..8] == "Belgaum " && name[8..] == rest;
  }

  /** The label of a "Belgaum Rural <side>" cluster. */
  lemma RuralLabel(name: string, side: string)
    requires name == "Belgaum Rural " + side
    ensures ClusterLabel(name) == "R." + side
  {
    assert name[..8] == "Belgaum " && name[8..] == "Rural " + side;
    var rest := "Rural " + side;
    assert rest[..6] == "Rural " && rest[6..] == side;
  }

  /** The five bar labels. */
  lemma ClusterLabels()
    ensures ClusterLabel(CLUSTERS[0].name) == "North"
    ensures ClusterLabel(CLUSTERS[1].name) == "South"
    ensures ClusterLabel(CLUSTERS[2].name) == "R.East"
    ensures ClusterLabel(CLUSTERS[3].name) == "R.West"
    ensures ClusterLabel(CLUSTERS[4].name) == "Khanapur"
  {
    UrbanClusterLabels();
    RuralClusterLabels();
    KhanapurLabel();
  }

  /** The labels of the two town clusters. */
  lemma UrbanClusterLabels()
    ensures ClusterLabel(CLUSTERS[0].name) == "North"
    ensures ClusterLabel(CLUSTERS[1].name) == "South"
  {
    var c := CLUSTERS;
    assert c[0].name == "Belgaum " + "North";
    UrbanLabel(c[0].name, "North");
    assert c[1].name == "Belgaum " + "South";
    UrbanLabel(c[1].name, "South");
  }

  /** The labels of the two rural clusters. */
  lemma RuralClusterLabels()
    ensures ClusterLabel(CLUSTERS[2].name) == "R.East"
    ensures ClusterLabel(CLUSTERS[3].name) == "R.West"
  {
    var c := CLUSTERS;
    assert c[2].name == "Belgaum Rural " + "East";
    RuralLabel(c[2].name, "East");
    assert "R." + "East" == "R.East";
    assert c[3].name == "Belgaum Rural " + "West";
    RuralLabel(c[3].name, "West");
    assert "R." + "West" == "R.West";
  }

  /** "Khanapur" contains neither word and keeps its name. */
  lemma KhanapurLabel()
    ensures ClusterLabel("Khanapur") == "Khanapur"
  {
    var k := "Khanapur";
    assert k[..8] != "Belgaum " by { assert k[0] != "Belgaum "[0]; }
    assert k == [k[0]] + k[1..];
    assert ReplaceFirst(k, "Belgaum ", "") == k;
    assert k[..6] != "Rural " by { assert k[0] != 'R'; }
    assert k[1..][..6] != "Rural " by { assert k[1] != 'R'; }
    assert k[2..][..6] != "Rural " by { assert k[2] != 'R'; }
    assert k[2..][1..] == k[3..] && k[1..][1..] == k[2..];
    assert ReplaceFirst(k[2..], "Rural ", "R.") == k[2..];
    assert ReplaceFirst(k[1..], "Rural ", "R.") == k[1..];
  }

  datatype ClusterBar = ClusterBar(name: string, jobs: nat, techs: nat)

  /** The key `j.cluster`. */
  function JobCluster(): Job -> string {
    (j: Job) => j.cluster
  }

  /** The key `t.cluster`. */
  function TechCluster(): Technician -> string {
    (t: Technician) => t.cluster
  }

  /** `clusterData`: one bar per cluster, in table order, counting the jobs
      and technicians whose cluster string is that cluster's name. */
  function ClusterData(jobs: seq<Job>, techs: seq<Technician>): (r: seq<ClusterBar>)
    ensures |r| == |ClusterNames()|
    ensures forall i :: 0 <= i < |r| ==>
              r[i].name == ClusterLabel(ClusterNames()[i]) &&
              r[i].jobs == Count(jobs, KeyIs(JobCluster(), ClusterNames()[i])) &&
              r[i].techs == Count(techs, KeyIs(TechCluster(), ClusterNames()[i]))
  {
    var names := ClusterNames();
    seq(|names|, i requires 0 <= i < |names| =>
      ClusterBar(ClusterLabel(names[i]), Count(jobs, KeyIs(JobCluster(), names[i])),
                 Count(techs, KeyIs(TechCluster(), names[i]))))
  }

  /** The job counts of the bars, in order. */
  function BarJobs(bars: seq<ClusterBar>): (r: seq<nat>)
    ensures |r| == |bars| && forall i :: 0 <= i < |bars| ==> r[i] == bars[i].jobs
  {
    seq(|bars|, i requires 0 <= i < |bars| => bars[i].jobs)
  }

  /** The cluster bars count every job whose cluster is one of the five
      names exactly once, so together they count at most every job. */
  lemma ClusterBarsCountKnownClusters(jobs: seq<Job>, techs: seq<Technician>)
    ensures Sum(BarJobs(ClusterData(jobs, techs))) == Count(jobs, KeyIn(JobCluster(), ClusterNames()))
    ensures Sum(BarJobs(ClusterData(jobs, techs))) <= |jobs|
  {
    ClustersDistinct();
    assert BarJobs(ClusterData(jobs, techs)) == CountsByKey(jobs, JobCluster(), ClusterNames());
    SumCountsByKey(jobs, JobCluster(), ClusterNames());
  }

  datatype IssueSlice = IssueSlice(name: string, value: nat)

  /** The key `j.issueType`. */
  function JobIssue(): Job -> IssueType {
    (j: Job) => j.issueType
  }

  /** `issueData`: one slice per issue type, labelled from the table, counting
      the jobs of that type. */
  function IssueData(jobs: seq<Job>): (r: seq<IssueSlice>)
    ensures |r| == |ISSUE_TYPES|
    ensures forall i :: 0 <= i < |r| ==>
              r[i].name == ISSUE_TYPES[i].labelText &&
              r[i].value == Count(jobs, KeyIs(JobIssue(), ISSUE_TYPES[i].value))
  {
    seq(|ISSUE_TYPES|, i requires 0 <= i < |ISSUE_TYPES| =>
      IssueSlice(ISSUE_TYPES[i].labelText, Count(jobs, KeyIs(JobIssue(), ISSUE_TYPES[i].value))))
  }

  /** The slice values, in order. */
  function SliceValues(slices: seq<IssueSlice>): (r: seq<nat>)
    ensures |r| == |slices| && forall i :: 0 <= i < |slices| ==> r[i] == slices[i].value
  {
    seq(|slices|, i requires 0 <= i < |slices| => slices[i].value)
  }

  /** Every job has exactly one issue type, so the slices add up to the number
      of jobs. */
  lemma IssueSlicesCountEveryJob(jobs: seq<Job>)
    ensures Sum(SliceValues(IssueData(jobs))) == |jobs|
  {
    IssueTypesListedOnce();
    var values := IssueTypeValues();
    assert SliceValues(IssueData(jobs)) == CountsByKey(jobs, JobIssue(), values);
    SumCountsByKey(jobs, JobIssue(), values);
    FilterAll(jobs, KeyIn(JobIssue(), values));
  }

  /** `jobs.slice().reverse().slice(0, 10)`: the latest ten requests (or all
      of them when there are fewer), newest first. */
  function RecentJobs(jobs: seq<Job>): (r: seq<Job>)
    ensures |r| == if |jobs| < 10 then |jobs| else 10
    ensures forall k :: 0 <= k < |r| ==> r[k] == jobs[|jobs| - 1 - k]
  {
    Take(Reverse(jobs), 10)
  }
}
