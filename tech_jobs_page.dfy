/** The technician's job list: the transition table behind its single action
    button, the button's effect, and the split into active and completed
    jobs. */
module TechJobsPage {
  import opened Wrappers
  import opened Seqs
  import opened Types
  import opened AppStore
  import JobService

  /** The `nextStatus` table: the status the action button moves a job to. */
  function NextStatus(s: JobStatus): (r: Option<JobStatus>)
    ensures r.Some? <==> s != Requested && s != Completed
    ensures r.Some? ==> exists i :: 0 <= i < |JOB_STATUSES| - 1 &&
                                   JOB_STATUSES[i] == s && JOB_STATUSES[i + 1] == r.value
  {
    match s
    case Assigned => assert JOB_STATUSES[1] == s && JOB_STATUSES[2] == Enroute; Some(Enroute)
    case Enroute => assert JOB_STATUSES[2] == s && JOB_STATUSES[3] == InProgress; Some(InProgress)
    case InProgress => assert JOB_STATUSES[3] == s && JOB_STATUSES[4] == Completed; Some(Completed)
    case _ => None
  }

  /** The `nextStatusLabel` table: the action button's caption. */
  function NextStatusLabel(s: JobStatus): (r: Option<string>)
    ensures r.Some? <==> NextStatus(s).Some?
    ensures r.Some? ==> |r.value| > 0
  {
    match s
    case Assigned => Some("Accept & Go")
    case Enroute => Some("Start Work")
    case InProgress => Some("Mark Completed")
    case _ => None
  }

  /** The status after pressing the action button `n` times; once no
      successor exists, further presses do nothing. */
  function Advanced(s: JobStatus, n: nat): JobStatus
    decreases n
  {
    if n == 0 then s
    else match NextStatus(s)
      case None => s
      case Some(next) => Advanced(next, n - 1)
  }

  /** A completed job stays completed however often the button is pressed. */
  lemma {:induction false} CompletedStaysCompleted(n: nat)
    ensures Advanced(Completed, n) == Completed
  {
  }

  /** From `assigned`, three presses reach `completed`, fewer do not, and
      more change nothing. */
  lemma ThreeStepsToCompleted(n: nat)
    ensures Advanced(Assigned, n) == Completed <==> n >= 3
  {
    if n >= 3 {
      assert Advanced(Assigned, n) == Advanced(Enroute, n - 1);
      assert Advanced(Enroute, n - 1) == Advanced(InProgress, n - 2);
      assert Advanced(InProgress, n - 2) == Advanced(Completed, n - 3);
      CompletedStaysCompleted(n - 3);
    } else if n == 2 {
      assert Advanced(Assigned, n) == InProgress;
    }
  }

  /** `handleStatusUpdate`: moves the job to its successor status through
      `updateJobStatus`; a job without a successor is left alone. */
  method HandleStatusUpdate(st: Store, job: Job, now: Timestamp, payout: int)
    requires 200 <= payout <= 299
    modifies st`jobs, st`technicians
    ensures NextStatus(job.status).None? ==>
              st.jobs == old(st.jobs) && st.technicians == old(st.technicians)
    ensures NextStatus(job.status).Some? ==>
              st.jobs == JobService.StatusUpdated(old(st.jobs), job.id, NextStatus(job.status).value, now) &&
              st.technicians == JobService.PaidOut(old(st.jobs), old(st.technicians), job.id,
                                                   NextStatus(job.status).value, payout)
  {
    var next := NextStatus(job.status);
    if next.None? {
      return;
    }
    var updated := JobService.UpdateJobStatus(st, job.id, next.value, now, payout);
  }

  /** The predicate `j.status !== "completed"`. */
  function IsActive(): Job -> bool {
    (j: Job) => j.status != Completed
  }

  /** The predicate `j.status === "completed"`. */
  function IsDone(): Job -> bool {
    (j: Job) => j.status == Completed
  }

  /** `activeJobs`: the technician's jobs that are not completed. */
  function ActiveJobs(jobs: seq<Job>, techId: string): (r: seq<Job>)
    ensures forall j :: j in r <==> j in jobs && j.technicianId == Some(techId) && j.status != Completed
  {
    Filter(JobService.GetJobsByTechnician(jobs, techId), IsActive())
  }

  /** `completedJobs`: the technician's completed jobs. */
  function CompletedJobs(jobs: seq<Job>, techId: string): (r: seq<Job>)
    ensures forall j :: j in r <==> j in jobs && j.technicianId == Some(techId) && j.status == Completed
  {
    Filter(JobService.GetJobsByTechnician(jobs, techId), IsDone())
  }

  /** The two tabs split the technician's jobs: every job is on exactly one,
      and their sizes add up to the number of the technician's jobs. */
  lemma TabsPartitionMyJobs(jobs: seq<Job>, techId: string)
    ensures |ActiveJobs(jobs, techId)| + |CompletedJobs(jobs, techId)| ==
            |JobService.GetJobsByTechnician(jobs, techId)|
    ensures forall j :: j in JobService.GetJobsByTechnician(jobs, techId) ==>
              (j in ActiveJobs(jobs, techId) <==> j !in CompletedJobs(jobs, techId))
  {
    CountPartition2(JobService.GetJobsByTechnician(jobs, techId), IsActive(), IsDone());
  }
}
