/** The administrator's cluster overview: one card of counts per cluster. */
module AdminClusters {
  import opened Seqs
  import opened Types
  import AdminDashboard

  datatype ClusterStat = ClusterStat(
    cluster: Cluster,
    totalJobs: nat,
    completed: nat,
    active: nat,
    pending: nat,
    totalTechs: nat,
    onlineTechs: nat,
    womenTechs: nat)

  /** The predicate "neither completed nor requested". */
  function IsActive(): Job -> bool {
    (j: Job) => j.status != Completed && j.status != Requested
  }

  /** The card of one cluster: each figure counts the cluster's jobs or
      technicians passing one test. Its jobs are split three ways, and its
      online and women technicians are among its technicians. */
  function StatFor(c: Cluster, jobs: seq<Job>, techs: seq<Technician>): (r: ClusterStat)
    ensures r.cluster == c
    ensures r.totalJobs == Count(jobs, KeyIs(AdminDashboard.JobCluster(), c.name))
    ensures r.totalTechs == Count(techs, KeyIs(AdminDashboard.TechCluster(), c.name))
    ensures r.completed + r.active + r.pending == r.totalJobs
    ensures r.onlineTechs <= r.totalTechs && r.womenTechs <= r.totalTechs
    ensures var cj := Filter(jobs, KeyIs(AdminDashboard.JobCluster(), c.name));
            r.completed == Count(cj, AdminDashboard.HasStatus(Completed)) &&
            r.active == Count(cj, IsActive()) &&
            r.pending == Count(cj, AdminDashboard.HasStatus(Requested))
    ensures var ct := Filter(techs, KeyIs(AdminDashboard.TechCluster(), c.name));
            r.onlineTechs == Count(ct, AdminDashboard.IsOnline()) &&
            r.womenTechs == Count(ct, AdminDashboard.IsWoman())
  {
    var clusterJobs := Filter(jobs, KeyIs(AdminDashboard.JobCluster(), c.name));
    var clusterTechs := Filter(techs, KeyIs(AdminDashboard.TechCluster(), c.name));
    CountPartition3(clusterJobs, AdminDashboard.HasStatus(Completed), IsActive(),
                    AdminDashboard.HasStatus(Requested));
    ClusterStat(c, |clusterJobs|,
                Count(clusterJobs, AdminDashboard.HasStatus(Completed)),
                Count(clusterJobs, IsActive()),
                Count(clusterJobs, AdminDashboard.HasStatus(Requested)),
                |clusterTechs|,
                Count(clusterTechs, AdminDashboard.IsOnline()),
                Count(clusterTechs, AdminDashboard.IsWoman()))
  }

  /** `clusterStats`: one card per cluster, in table order. */
  function ClusterStats(jobs: seq<Job>, techs: seq<Technician>): (r: seq<ClusterStat>)
    ensures |r| == |CLUSTERS|
    ensures forall i :: 0 <= i < |r| ==> r[i] == StatFor(CLUSTERS[i], jobs, techs)
  {
    seq(|CLUSTERS|, i requires 0 <= i < |CLUSTERS| => StatFor(CLUSTERS[i], jobs, techs))
  }

  /** The cluster cards and the dashboard's cluster bars show the same job and
      technician counts for every cluster. */
  lemma CardsAgreeWithDashboard(jobs: seq<Job>, techs: seq<Technician>)
    ensures var cards := ClusterStats(jobs, techs);
            var bars := AdminDashboard.ClusterData(jobs, techs);
            |cards| == |bars| &&
            forall i :: 0 <= i < |cards| ==>
              cards[i].totalJobs == bars[i].jobs && cards[i].totalTechs == bars[i].techs
  {
  }
}
