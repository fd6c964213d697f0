/** The job lifecycle engine: matching a technician to a new request, creating
    the job, advancing its status with a timestamped history, paying the
    technician on completion, and recording the customer's rating. */
module JobService {
  import opened Wrappers
  import opened Seqs
  import opened Types
  import opened AppStore
  import TechService

  datatype CreateJobData = CreateJobData(
    userId: string,
    userName: string,
    issueType: IssueType,
    description: string,
    imageUrl: Option<string>,
    cluster: string,
    location: string,
    preferredTime: string)

  // ---------------------------------------------------------------------
  // Matching

  /** The predicate `t.cluster === cluster && t.online`. */
  function IsEligible(cluster: string): Technician -> bool {
    (t: Technician) => t.cluster == cluster && t.online
  }

  /** The online technicians of the cluster, in store order. */
  function Candidates(techs: seq<Technician>, cluster: string): (r: seq<Technician>)
    ensures forall t :: t in r <==> t in techs && t.cluster == cluster && t.online
  {
    Filter(techs, IsEligible(cluster))
  }

  /** The matching comparator: negative when `a` ranks before `b`. Women rank
      before men; within a gender the higher rating ranks first. */
  function Compare(a: Technician, b: Technician): int {
    if a.gender == Female && b.gender != Female then -1
    else if a.gender != Female && b.gender == Female then 1
    else b.rating - a.rating
  }

  /** `s` is in comparator order. */
  predicate Sorted(s: seq<Technician>) {
    forall i :: 0 <= i < |s| - 1 ==> Compare(s[i], s[i + 1]) <= 0
  }

  /** Inserts `x`, which came before every element of `s`, in front of the
      first element that does not rank strictly before it. */
  function Insert(x: Technician, s: seq<Technician>): (r: seq<Technician>)
    ensures multiset(r) == multiset(s) + multiset{x}
    ensures |s| > 0 ==> r[0] == x || r[0] == s[0]
    decreases |s|
  {
    if |s| == 0 then [x]
    else if Compare(x, s[0]) <= 0 then [x] + s
    else
      assert s == [s[0]] + s[1..];
      [s[0]] + Insert(x, s[1..])
  }

  /** Inserting into a sorted list keeps it sorted. */
  lemma {:induction false} InsertKeepsSorted(x: Technician, s: seq<Technician>)
    requires Sorted(s)
    ensures Sorted(Insert(x, s))
    decreases |s|
  {
    if |s| > 0 && Compare(x, s[0]) > 0 {
      var tail := s[1..];
      assert Sorted(tail);
      InsertKeepsSorted(x, tail);
      var rest := Insert(x, tail);
      assert Insert(x, s) == [s[0]] + rest;
      assert Compare(s[0], rest[0]) <= 0 by {
        if |tail| > 0 {
          assert Compare(s[0], tail[0]) <= 0;
        }
      }
    }
  }

  /** A stable sort of the candidates by the matching comparator, as the
      source's `Array.prototype.sort` (stable) produces. */
  function PrioritySort(s: seq<Technician>): (r: seq<Technician>)
    ensures multiset(r) == multiset(s) && |r| == |s|
    ensures Sorted(r)
    decreases |s|
  {
    if |s| == 0 then []
    else
      assert s == [s[0]] + s[1..];
      var rest := PrioritySort(s[1..]);
      InsertKeepsSorted(s[0], rest);
      Insert(s[0], rest)
  }

  /** Ranking first is transitive through a middle technician. */
  lemma CompareTransitive(a: Technician, b: Technician, c: Technician)
    requires Compare(a, b) <= 0 && Compare(b, c) <= 0
    ensures Compare(a, c) <= 0
  {
  }

  /** The comparator is antisymmetric. */
  lemma CompareAntisymmetric(a: Technician, b: Technician)
    ensures Compare(a, b) == -Compare(b, a)
  {
  }

  /** `s[i]` ranks no later than any candidate, and strictly before every
      candidate that precedes it. */
  predicate RanksFirstAt(s: seq<Technician>, i: nat)
    requires i < |s|
  {
    (forall k :: 0 <= k < |s| ==> Compare(s[i], s[k]) <= 0) &&
    (forall k :: 0 <= k < i ==> Compare(s[i], s[k]) < 0)
  }

  /** `best` is the technician a stable sort puts first: no candidate ranks
      strictly before it, and every candidate that comes before it in `s`
      ranks strictly after it. */
  ghost predicate IsFirstRanked(best: Technician, s: seq<Technician>) {
    exists i: nat :: i < |s| && s[i] == best && RanksFirstAt(s, i)
  }

  /** Where `Insert` puts its new element relative to the old head. */
  lemma InsertHead(x: Technician, s: seq<Technician>)
    requires |s| > 0
    ensures Insert(x, s)[0] == if Compare(x, s[0]) <= 0 then x else s[0]
  {
  }

  /** A new front that ranks no later than the first-ranked technician of
      the tail ranks first. */
  lemma NewHeadRanksFirst(s: seq<Technician>, j: nat)
    requires |s| > 1 && j < |s| - 1 && RanksFirstAt(s[1..], j) && Compare(s[0], s[j + 1]) <= 0
    ensures RanksFirstAt(s, 0)
  {
    var rest := s[1..];
    forall k | 0 <= k < |s| ensures Compare(s[0], s[k]) <= 0 {
      if k > 0 {
        assert s[k] == rest[k - 1] && s[j + 1] == rest[j];
        CompareTransitive(s[0], s[j + 1], s[k]);
      }
    }
  }

  /** A tail's first-ranked candidate that the new front ranks strictly after
      stays first-ranked. */
  lemma OldHeadRanksFirst(s: seq<Technician>, j: nat)
    requires |s| > 1 && j < |s| - 1 && RanksFirstAt(s[1..], j) && Compare(s[0], s[j + 1]) > 0
    ensures RanksFirstAt(s, j + 1)
  {
    var rest := s[1..];
    CompareAntisymmetric(s[0], s[j + 1]);
    assert forall k :: 1 <= k < |s| ==> s[k] == rest[k - 1];
  }

  /** The head of the sorted list is the first-ranked candidate, at an index
      the lemma names. */
  lemma {:induction false} SortHeadRanksFirst(s: seq<Technician>) returns (i: nat)
    requires |s| > 0
    ensures i < |s| && s[i] == PrioritySort(s)[0] && RanksFirstAt(s, i)
    decreases |s|
  {
    var ps := PrioritySort(s[1..]);
    assert PrioritySort(s) == Insert(s[0], ps);
    if |s| == 1 {
      assert ps == [];
      i := 0;
      assert Compare(s[0], s[0]) == 0;
    } else {
      var j := SortHeadRanksFirst(s[1..]);
      assert ps[0] == s[j + 1];
      InsertHead(s[0], ps);
      if Compare(s[0], s[j + 1]) <= 0 {
        i := 0;
        NewHeadRanksFirst(s, j);
      } else {
        i := j + 1;
        OldHeadRanksFirst(s, j);
      }
    }
  }

  /** The head of the sorted list is the first-ranked candidate. */
  lemma SortHeadIsFirstRanked(s: seq<Technician>)
    requires |s| > 0
    ensures IsFirstRanked(PrioritySort(s)[0], s)
  {
    var i := SortHeadRanksFirst(s);
  }

  /** At most one candidate is first-ranked: the policy selects a single
      technician. */
  lemma FirstRankedIsUnique(a: Technician, b: Technician, s: seq<Technician>)
    requires IsFirstRanked(a, s) && IsFirstRanked(b, s)
    ensures a == b
  {
    var i: nat :| i < |s| && s[i] == a && RanksFirstAt(s, i);
    var j: nat :| j < |s| && s[j] == b && RanksFirstAt(s, j);
    assert Compare(a, s[j]) <= 0 && Compare(b, s[i]) <= 0;
  }

  /** `matchTechnician`: the first technician of the sorted candidates, or
      `None` when the cluster has no online technician. */
  function MatchTechnician(techs: seq<Technician>, cluster: string): (r: Option<Technician>)
    ensures r.None? <==> forall t :: t in techs ==> !(t.cluster == cluster && t.online)
    ensures r.Some? ==> r.value in techs && r.value.cluster == cluster && r.value.online
  {
    var candidates := Candidates(techs, cluster);
    var available := PrioritySort(candidates);
    if |available| == 0 then
      assert candidates == [];
      None
    else
      assert available[0] in multiset(available);
      assert available[0] in candidates;
      Some(available[0])
  }

  /** The matching policy: the match is the first-ranked candidate; it is a
      woman whenever an eligible woman exists; no eligible technician of its
      gender has a higher rating; and ties go to the earliest candidate in
      store order. */
  lemma MatchFollowsPolicy(techs: seq<Technician>, cluster: string)
    ensures var r := MatchTechnician(techs, cluster);
            r.Some? ==> IsFirstRanked(r.value, Candidates(techs, cluster))
    ensures var r := MatchTechnician(techs, cluster);
            r.Some? ==> forall t :: t in techs && t.cluster == cluster && t.online ==>
                          (t.gender == Female ==> r.value.gender == Female) &&
                          (t.gender == r.value.gender ==> t.rating <= r.value.rating)
    ensures var r := MatchTechnician(techs, cluster);
            var c := Candidates(techs, cluster);
            r.Some? ==> exists i :: 0 <= i < |c| && c[i] == r.value &&
                          forall k :: 0 <= k < i ==>
                            c[k].gender != r.value.gender || c[k].rating < r.value.rating
  {
    var c := Candidates(techs, cluster);
    if |c| > 0 {
      SortHeadIsFirstRanked(c);
      var best := PrioritySort(c)[0];
      forall t | t in techs && t.cluster == cluster && t.online
        ensures (t.gender == Female ==> best.gender == Female) &&
                (t.gender == best.gender ==> t.rating <= best.rating)
      {
        assert t in c;
        var k :| 0 <= k < |c| && c[k] == t;
        assert Compare(best, c[k]) <= 0;
      }
    }
  }

  /** Example: a woman rated 3.0 and a man rated 5.0, both online in
      Khanapur; the woman is assigned. */
  lemma WomanBeatsHigherRatedMan(a: Technician, b: Technician)
    requires a.gender == Female && a.rating == 30 && a.online && a.cluster == "Khanapur"
    requires b.gender == Male && b.rating == 50 && b.online && b.cluster == "Khanapur"
    ensures MatchTechnician([a, b], "Khanapur") == Some(a)
  {
    assert Candidates([a, b], "Khanapur") == [a, b] by {
      FilterAll([a, b], IsEligible("Khanapur"));
    }
    assert PrioritySort([b]) == [b];
    assert [a, b][1..] == [b];
  }

  // ---------------------------------------------------------------------
  // Job records

  /** The invariant of every stored job: its history starts with `requested`,
      its status is that of the last history entry, and a technician id is
      present exactly when a technician name is. */
  predicate WellFormed(job: Job) {
    && |job.statusHistory| >= 1
    && job.statusHistory[0].status == Requested
    && job.status == job.statusHistory[|job.statusHistory| - 1].status
    && (job.technicianId.Some? <==> job.technicianName.Some?)
  }

  /** History timestamps never decrease. */
  predicate Chronological(h: seq<StatusHistoryEntry>) {
    forall i, j :: 0 <= i < j < |h| ==> h[i].timestamp <= h[j].timestamp
  }

  /** The job `createJob` builds: requested, plus assigned at the same instant
      when a technician was matched. */
  function NewJob(data: CreateJobData, id: string, now: Timestamp, matched: Option<Technician>)
    : (job: Job)
    ensures WellFormed(job) && Chronological(job.statusHistory)
    ensures matched.None? ==>
              job.status == Requested &&
              job.statusHistory == [StatusHistoryEntry(Requested, now)] &&
              job.technicianId == None && job.technicianName == None
    ensures matched.Some? ==>
              job.status == Assigned &&
              job.statusHistory == [StatusHistoryEntry(Requested, now), StatusHistoryEntry(Assigned, now)] &&
              job.technicianId == Some(matched.value.id) &&
              job.technicianName == Some(matched.value.name)
    ensures job.id == id && job.rating == None && job.createdAt == now && job.updatedAt == now
    ensures job.userId == data.userId && job.userName == data.userName
    ensures job.issueType == data.issueType && job.description == data.description
    ensures job.imageUrl == data.imageUrl && job.cluster == data.cluster
    ensures job.location == data.location && job.preferredTime == data.preferredTime
  {
    var requested := [StatusHistoryEntry(Requested, now)];
    var history := if matched.Some? then requested + [StatusHistoryEntry(Assigned, now)] else requested;
    Job(id, data.userId, data.userName,
        if matched.Some? then Some(matched.value.id) else None,
        if matched.Some? then Some(matched.value.name) else None,
        data.issueType, data.description, data.imageUrl, data.cluster, data.location,
        data.preferredTime, if matched.Some? then Assigned else Requested, None, now, now, history)
  }

  /** `createJob`: matches a technician of the request's cluster, builds the
      job and appends it; technicians are not touched. */
  method CreateJob(st: Store, data: CreateJobData, id: string, now: Timestamp) returns (job: Job)
    modifies st`jobs
    ensures job == NewJob(data, id, now, MatchTechnician(st.technicians, data.cluster))
    ensures st.jobs == old(st.jobs) + [job]
  {
    var matched := MatchTechnician(st.technicians, data.cluster);
    job := NewJob(data, id, now, matched);
    st.jobs := st.jobs + [job];
  }

  /** The predicate `j.id === id`. */
  function HasJobId(id: string): Job -> bool {
    (j: Job) => j.id == id
  }

  /** `jobs.findIndex((j) => j.id === jobId)`. */
  function JobIndex(jobs: seq<Job>, id: string): (r: Option<nat>)
    ensures r.Some? ==> r.value < |jobs| && jobs[r.value].id == id
    ensures r.Some? ==> forall k :: 0 <= k < r.value ==> jobs[k].id != id
    ensures r.None? <==> forall k :: 0 <= k < |jobs| ==> jobs[k].id != id
  {
    FindIndex(jobs, HasJobId(id))
  }

  /** `getJobById`: the first job with the id. */
  function GetJobById(jobs: seq<Job>, id: string): (r: Option<Job>)
    ensures r.None? <==> forall j :: j in jobs ==> j.id != id
    ensures r.Some? ==> exists i :: 0 <= i < |jobs| && jobs[i] == r.value && r.value.id == id &&
                                   forall k :: 0 <= k < i ==> jobs[k].id != id
  {
    Find(jobs, HasJobId(id))
  }

  /** A job created with a fresh id is found by that id afterwards. */
  lemma CreatedJobIsFound(jobs: seq<Job>, job: Job)
    requires forall j :: j in jobs ==> j.id != job.id
    ensures GetJobById(jobs + [job], job.id) == Some(job)
    ensures JobIndex(jobs + [job], job.id) == Some(|jobs|)
  {
    FindIndexAppend(jobs, job, HasJobId(job.id));
  }

  /** The predicate `j.userId === userId`. */
  function ForUser(userId: string): Job -> bool {
    (j: Job) => j.userId == userId
  }

  /** The predicate `j.technicianId === techId`. */
  function ForTechnician(techId: string): Job -> bool {
    (j: Job) => j.technicianId == Some(techId)
  }

  /** `getJobsByUser`: the user's jobs, in store order. */
  function GetJobsByUser(jobs: seq<Job>, userId: string): (r: seq<Job>)
    ensures forall j :: j in r <==> j in jobs && j.userId == userId
  {
    Filter(jobs, ForUser(userId))
  }

  /** `getJobsByTechnician`: the technician's jobs, in store order. */
  function GetJobsByTechnician(jobs: seq<Job>, techId: string): (r: seq<Job>)
    ensures forall j :: j in r <==> j in jobs && j.technicianId == Some(techId)
  {
    Filter(jobs, ForTechnician(techId))
  }

  /** A new job shows up, last, in its requester's list. */
  lemma CreatedJobListedForUser(jobs: seq<Job>, job: Job)
    ensures GetJobsByUser(jobs + [job], job.userId) == GetJobsByUser(jobs, job.userId) + [job]
  {
    FilterConcat(jobs, [job], ForUser(job.userId));
    assert [job][1..] == [];
  }

  // ---------------------------------------------------------------------
  // Status updates

  /** The job after its status is set to `s` at `now`. */
  function WithStatus(job: Job, s: JobStatus, now: Timestamp): Job {
    job.(status := s, updatedAt := now,
         statusHistory := job.statusHistory + [StatusHistoryEntry(s, now)])
  }

  /** The jobs after `updateJobStatus(id, s)` at `now`. */
  function StatusUpdated(jobs: seq<Job>, id: string, s: JobStatus, now: Timestamp): seq<Job> {
    match JobIndex(jobs, id)
    case None => jobs
    case Some(i) => jobs[i := WithStatus(jobs[i], s, now)]
  }

  /** Updating sets the new status whatever the current one is (there is no
      transition guard), stamps `updatedAt`, grows the history by exactly the
      entry `(s, now)`, and leaves every other job alone; an unknown id leaves
      every job alone. */
  lemma StatusUpdatedEffect(jobs: seq<Job>, id: string, s: JobStatus, now: Timestamp)
    ensures |StatusUpdated(jobs, id, s, now)| == |jobs|
    ensures JobIndex(jobs, id).None? ==> StatusUpdated(jobs, id, s, now) == jobs
    ensures forall k :: 0 <= k < |jobs| && JobIndex(jobs, id) != Some(k) ==>
              StatusUpdated(jobs, id, s, now)[k] == jobs[k]
    ensures forall k :: 0 <= k < |jobs| && JobIndex(jobs, id) == Some(k) ==>
              var u := StatusUpdated(jobs, id, s, now)[k];
              u.status == s && u.updatedAt == now &&
              u.statusHistory == jobs[k].statusHistory + [StatusHistoryEntry(s, now)] &&
              u.statusHistory[..|jobs[k].statusHistory|] == jobs[k].statusHistory &&
              u == jobs[k].(status := s, updatedAt := now, statusHistory := u.statusHistory)
  {
  }

  /** Setting a status keeps a job well formed, and keeps its history in time
      order when the clock has not gone back. */
  lemma WithStatusPreservesInvariants(job: Job, s: JobStatus, now: Timestamp)
    ensures WellFormed(job) ==> WellFormed(WithStatus(job, s, now))
    ensures Chronological(job.statusHistory) &&
            (forall e :: e in job.statusHistory ==> e.timestamp <= now) ==>
              Chronological(WithStatus(job, s, now).statusHistory)
  {
    var h := job.statusHistory;
    var h' := WithStatus(job, s, now).statusHistory;
    assert h' == h + [StatusHistoryEntry(s, now)];
    if |h| > 0 {
      assert h'[0] == h[0];
    }
    if Chronological(h) && forall e :: e in h ==> e.timestamp <= now {
      forall a, b | 0 <= a < b < |h'| ensures h'[a].timestamp <= h'[b].timestamp {
        if b == |h| {
          assert h'[a] == h[a] && h[a] in h;
        } else {
          assert h'[a] == h[a] && h'[b] == h[b];
        }
      }
    }
  }

  /** Status updates keep every stored job well formed, and keep histories in
      time order when the clock has not gone back. */
  lemma StatusUpdatePreservesInvariants(jobs: seq<Job>, id: string, s: JobStatus, now: Timestamp)
    ensures (forall k :: 0 <= k < |jobs| ==> WellFormed(jobs[k])) ==>
              forall k :: 0 <= k < |jobs| ==> WellFormed(StatusUpdated(jobs, id, s, now)[k])
    ensures (forall k :: 0 <= k < |jobs| ==> Chronological(jobs[k].statusHistory) &&
                                              forall e :: e in jobs[k].statusHistory ==> e.timestamp <= now)
            ==> forall k :: 0 <= k < |jobs| ==> Chronological(StatusUpdated(jobs, id, s, now)[k].statusHistory)
  {
    StatusUpdatedEffect(jobs, id, s, now);
    match JobIndex(jobs, id)
    case None =>
    case Some(i) =>
      WithStatusPreservesInvariants(jobs[i], s, now);
  }

  /** The technician credited when a job is set to `s`: its technician, when
      the status is `completed` and the job has a (non-empty) technician id. */
  function Payee(job: Job, s: JobStatus): (r: Option<string>)
    ensures r.Some? <==> s == Completed && job.technicianId.Some? && job.technicianId.value != ""
    ensures r.Some? ==> r == job.technicianId
  {
    if s == Completed && job.technicianId.Some? && job.technicianId.value != "" then job.technicianId
    else None
  }

  /** The technicians after `updateJobStatus(id, s)` with payout `amount`. */
  function PaidOut(jobs: seq<Job>, techs: seq<Technician>, id: string, s: JobStatus, amount: int)
    : seq<Technician>
  {
    match JobIndex(jobs, id)
    case None => techs
    case Some(i) =>
      match Payee(jobs[i], s)
      case None => techs
      case Some(techId) => TechService.Credited(techs, techId, amount)
  }

  /** Only a completion of a job with a technician pays anything: for any
      other status, a job without a technician, or an unknown id, no
      technician changes. A payout credits the job's technician. */
  lemma PaidOutEffect(jobs: seq<Job>, techs: seq<Technician>, id: string, s: JobStatus, amount: int)
    ensures JobIndex(jobs, id).None? ==> PaidOut(jobs, techs, id, s, amount) == techs
    ensures s != Completed ==> PaidOut(jobs, techs, id, s, amount) == techs
    ensures forall k :: (0 <= k < |jobs| && JobIndex(jobs, id) == Some(k) &&
                         jobs[k].technicianId.None?) ==> PaidOut(jobs, techs, id, s, amount) == techs
    ensures forall k :: (0 <= k < |jobs| && JobIndex(jobs, id) == Some(k) && s == Completed &&
                         jobs[k].technicianId.Some? && jobs[k].technicianId.value != "") ==>
              PaidOut(jobs, techs, id, s, amount) ==
                TechService.Credited(techs, jobs[k].technicianId.value, amount)
  {
  }

  /** Completing a job that is already complete pays its technician again:
      the payout is made on every such call. */
  lemma CompletingTwicePaysTwice(jobs: seq<Job>, techs: seq<Technician>, id: string,
                                 now: Timestamp, later: Timestamp, a: int, b: int)
    requires JobIndex(jobs, id).Some?
    requires var j := jobs[JobIndex(jobs, id).value];
             j.technicianId.Some? && j.technicianId.value != ""
    ensures var techId := jobs[JobIndex(jobs, id).value].technicianId.value;
            PaidOut(StatusUpdated(jobs, id, Completed, now),
                    PaidOut(jobs, techs, id, Completed, a), id, Completed, b)
              == TechService.Credited(TechService.Credited(techs, techId, a), techId, b)
  {
    var i := JobIndex(jobs, id).value;
    FindIndexReplace(jobs, i, WithStatus(jobs[i], Completed, now), HasJobId(id));
    assert JobIndex(StatusUpdated(jobs, id, Completed, now), id) == Some(i);
  }

  /** `updateJobStatus`: sets the status with no transition guard, appends the
      history entry, and on `completed` credits the job's technician with
      `payout`, the source's `200 + Math.floor(Math.random() * 100)`. Returns
      the updated job, or `None` for an unknown id. */
  method UpdateJobStatus(st: Store, id: string, s: JobStatus, now: Timestamp, payout: int)
    returns (r: Option<Job>)
    requires 200 <= payout <= 299
    modifies st`jobs, st`technicians
    ensures st.jobs == StatusUpdated(old(st.jobs), id, s, now)
    ensures st.technicians == PaidOut(old(st.jobs), old(st.technicians), id, s, payout)
    ensures r.None? <==> JobIndex(old(st.jobs), id).None?
    ensures r.Some? ==> r == Some(st.jobs[JobIndex(old(st.jobs), id).value])
  {
    var index := JobIndex(st.jobs, id);
    if index.None? {
      return None;
    }
    var i := index.value;
    var job := WithStatus(st.jobs[i], s, now);
    var payee := Payee(st.jobs[i], s);
    if payee.Some? {
      TechService.UpdateEarnings(st, payee.value, payout);
    }
    st.jobs := st.jobs[i := job];
    r := Some(st.jobs[i]);
  }

  /** The job after setting statuses one after another, each with its time. */
  function ApplyStatuses(job: Job, updates: seq<StatusHistoryEntry>): Job
    decreases |updates|
  {
    if |updates| == 0 then job
    else ApplyStatuses(WithStatus(job, updates[0].status, updates[0].timestamp), updates[1..])
  }

  /** A run of updates appends exactly its entries to the history, in order,
      and leaves the job well formed with the last status set. */
  lemma {:induction false} ApplyStatusesHistory(job: Job, updates: seq<StatusHistoryEntry>)
    ensures ApplyStatuses(job, updates).statusHistory == job.statusHistory + updates
    ensures |updates| > 0 ==> ApplyStatuses(job, updates).status == updates[|updates| - 1].status
    ensures WellFormed(job) ==> WellFormed(ApplyStatuses(job, updates))
    decreases |updates|
  {
    if |updates| > 0 {
      var next := WithStatus(job, updates[0].status, updates[0].timestamp);
      ApplyStatusesHistory(next, updates[1..]);
      assert updates == [updates[0]] + updates[1..];
    }
  }

  /** Example: an unmatched request taken through
      assigned, enroute, in-progress and completed has a five-entry history
      in exactly that order. */
  lemma FullLifecycleHistory(data: CreateJobData, id: string, t0: Timestamp, t1: Timestamp,
                             t2: Timestamp, t3: Timestamp, t4: Timestamp)
    ensures var updates := [StatusHistoryEntry(Assigned, t1), StatusHistoryEntry(Enroute, t2),
                            StatusHistoryEntry(InProgress, t3), StatusHistoryEntry(Completed, t4)];
            var h := ApplyStatuses(NewJob(data, id, t0, None), updates).statusHistory;
            |h| == 5 && h[0].status == Requested && h[1].status == Assigned &&
            h[2].status == Enroute && h[3].status == InProgress && h[4].status == Completed
  {
    var updates := [StatusHistoryEntry(Assigned, t1), StatusHistoryEntry(Enroute, t2),
                    StatusHistoryEntry(InProgress, t3), StatusHistoryEntry(Completed, t4)];
    ApplyStatusesHistory(NewJob(data, id, t0, None), updates);
  }

  // ---------------------------------------------------------------------
  // Ratings on jobs

  /** The jobs after `rateJob(id, rating)`. */
  function WithRating(jobs: seq<Job>, id: string, rating: int): seq<Job> {
    match JobIndex(jobs, id)
    case None => jobs
    case Some(i) => jobs[i := jobs[i].(rating := Some(rating))]
  }

  /** Rating overwrites the rating field of the first job with the id and
      nothing else; an unknown id changes nothing. */
  lemma WithRatingEffect(jobs: seq<Job>, id: string, rating: int)
    ensures |WithRating(jobs, id, rating)| == |jobs|
    ensures JobIndex(jobs, id).None? ==> WithRating(jobs, id, rating) == jobs
    ensures forall k :: 0 <= k < |jobs| && JobIndex(jobs, id) != Some(k) ==>
              WithRating(jobs, id, rating)[k] == jobs[k]
    ensures forall k :: 0 <= k < |jobs| && JobIndex(jobs, id) == Some(k) ==>
              WithRating(jobs, id, rating)[k] == jobs[k].(rating := Some(rating))
    ensures (forall k :: 0 <= k < |jobs| ==> WellFormed(jobs[k])) ==>
              forall k :: 0 <= k < |jobs| ==> WellFormed(WithRating(jobs, id, rating)[k])
  {
  }

  /** `rateJob`. */
  method RateJob(st: Store, id: string, rating: int)
    modifies st`jobs
    ensures st.jobs == WithRating(old(st.jobs), id, rating)
  {
    var index := JobIndex(st.jobs, id);
    if index.None? {
      return;
    }
    st.jobs := st.jobs[index.value := st.jobs[index.value].(rating := Some(rating))];
  }
}
