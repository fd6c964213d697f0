/** The administrator's job list: a status filter and a free-text search,
    newest first. */
module AdminJobs {
  import opened Seqs
  import opened Types

  /** The status drop-down: every status, or one. */
  datatype StatusFilter = AllStatuses | OnlyStatus(status: JobStatus)

  /** ASCII lower-casing of one character. */
  function LowerChar(c: char): (r: char)
    ensures 'A' <= c <= 'Z' ==> r as int == c as int + 32
    ensures !('A' <= c <= 'Z') ==> r == c
  {
    if 'A' <= c <= 'Z' then (c as int + 32) as char else c
  }

  /** `toLowerCase()`, restricted to ASCII letters. */
  function Lower(s: string): (r: string)
    ensures |r| == |s| && forall i :: 0 <= i < |s| ==> r[i] == LowerChar(s[i])
  {
    seq(|s|, i requires 0 <= i < |s| => LowerChar(s[i]))
  }

  /** `s.includes(sub)`. */
  predicate Includes(s: string, sub: string)
    decreases |s|
  {
    sub <= s || (|s| > 0 && Includes(s[1..], sub))
  }

  /** The search test on already lower-cased `q`: user name, technician name
      (when there is one), cluster or id contains it. */
  predicate MatchesSearch(j: Job, q: string) {
    || Includes(Lower(j.userName), q)
    || (j.technicianName.Some? && Includes(Lower(j.technicianName.value), q))
    || Includes(Lower(j.cluster), q)
    || Includes(Lower(j.id), q)
  }

  /** The filter callback. */
  function Keep(filter: StatusFilter, search: string): Job -> bool {
    (j: Job) => (filter.AllStatuses? || j.status == filter.status) &&
                (search == [] || MatchesSearch(j, Lower(search)))
  }

  /** `filtered`: the jobs passing the status filter and the search, newest
      first. Every job shown passes both tests, and no more jobs are shown
      than there are. */
  function Filtered(jobs: seq<Job>, filter: StatusFilter, search: string): (r: seq<Job>)
    ensures |r| <= |jobs|
    ensures forall j :: j in r ==> j in jobs
    ensures forall j :: j in r ==> filter.OnlyStatus? ==> j.status == filter.status
    ensures forall j :: j in r ==> search != [] ==> MatchesSearch(j, Lower(search))
  {
    var kept := Filter(jobs, Keep(filter, search));
    var r := Reverse(kept);
    assert forall j :: j in r ==> j in kept;
    r
  }

  /** With every status and no search, the list is all jobs, newest first. */
  lemma NoFilterShowsAllNewestFirst(jobs: seq<Job>)
    ensures Filtered(jobs, AllStatuses, []) == Reverse(jobs)
  {
    FilterAll(jobs, Keep(AllStatuses, []));
  }

  /** The list keeps the jobs that pass, in reverse store order: it is the
      reversed store filtered, and a job passing both tests is shown. */
  lemma FilteredIsReversedSubsequence(jobs: seq<Job>, filter: StatusFilter, search: string)
    ensures Filtered(jobs, filter, search) == Filter(Reverse(jobs), Keep(filter, search))
    ensures forall j :: j in jobs && Keep(filter, search)(j) ==> j in Filtered(jobs, filter, search)
  {
    ReverseFilter(jobs, Keep(filter, search));
    forall j | j in jobs ensures j in Reverse(jobs) {
      var k :| 0 <= k < |jobs| && jobs[k] == j;
      assert Reverse(jobs)[|jobs| - 1 - k] == j;
    }
  }

  /** Lower-casing twice is lower-casing once. */
  lemma LowerIdempotent(s: string)
    ensures Lower(Lower(s)) == Lower(s)
  {
  }

  /** The search ignores case: two searches that lower-case alike show the
      same list. */
  lemma SearchIgnoresCase(jobs: seq<Job>, filter: StatusFilter, a: string, b: string)
    requires Lower(a) == Lower(b)
    ensures Filtered(jobs, filter, a) == Filtered(jobs, filter, b)
  {
    assert |a| == |b|;
    FilterSame(jobs, Keep(filter, a), Keep(filter, b));
  }
}
