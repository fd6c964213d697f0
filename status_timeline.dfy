/** The status timeline shown on a job: the five statuses in lifecycle order
    (`ALL_STATUSES`, the list `JOB_STATUSES`), each classified as completed,
    current or upcoming, with the connector after it and the time it was
    reached. */
module StatusTimeline {
  import opened Wrappers
  import opened Seqs
  import opened Types

  /** The predicate `x === status`. */
  function IsStatus(status: JobStatus): JobStatus -> bool {
    (x: JobStatus) => x == status
  }

  /** `ALL_STATUSES.indexOf(status)`: never -1, since every status is listed,
      and the only position holding the status. */
  function IndexOf(status: JobStatus): (r: int)
    ensures 0 <= r < |JOB_STATUSES| && JOB_STATUSES[r] == status
    ensures forall k :: 0 <= k < |JOB_STATUSES| && JOB_STATUSES[k] == status ==> k == r
  {
    JobStatusHasFiveValues();
    match FindIndex(JOB_STATUSES, IsStatus(status))
    case None => -1
    case Some(i) => i
  }

  /** One row of the timeline. `connector` is `None` after the last step and
      otherwise says whether the line below the step is highlighted. */
  datatype StepView = StepView(
    status: JobStatus,
    completed: bool,
    current: bool,
    connector: Option<bool>,
    timestamp: Option<Timestamp>)

  /** The predicate `h.status === status`. */
  function EntryIs(status: JobStatus): StatusHistoryEntry -> bool {
    (h: StatusHistoryEntry) => h.status == status
  }

  /** Row `i` of the timeline for a job in status `current`. */
  function Step(current: JobStatus, history: seq<StatusHistoryEntry>, i: nat): StepView
    requires i < |JOB_STATUSES|
  {
    var currentIndex := IndexOf(current);
    var entry := Find(history, EntryIs(JOB_STATUSES[i]));
    StepView(JOB_STATUSES[i], i < currentIndex, i == currentIndex,
             if i < |JOB_STATUSES| - 1 then Some(i < currentIndex) else None,
             if entry.Some? then Some(entry.value.timestamp) else None)
  }

  /** The whole timeline, one row per status in lifecycle order. */
  function Timeline(current: JobStatus, history: seq<StatusHistoryEntry>): (r: seq<StepView>)
    ensures |r| == |JOB_STATUSES|
    ensures forall i :: 0 <= i < |r| ==> r[i].status == JOB_STATUSES[i]
  {
    seq(|JOB_STATUSES|, i requires 0 <= i < |JOB_STATUSES| => Step(current, history, i))
  }

  /** The predicate "this row is current". */
  function IsCurrent(): StepView -> bool {
    (v: StepView) => v.current
  }

  /** The predicate "this row is completed". */
  function IsCompleted(): StepView -> bool {
    (v: StepView) => v.completed
  }

  /** Exactly one row is current: the one showing the job's status. No row is
      both completed and current. */
  lemma ExactlyOneCurrent(current: JobStatus, history: seq<StatusHistoryEntry>)
    ensures var r := Timeline(current, history);
            forall i :: 0 <= i < |r| ==> (r[i].current <==> r[i].status == current) &&
                                          !(r[i].completed && r[i].current)
    ensures Count(Timeline(current, history), IsCurrent()) == 1
  {
    var r := Timeline(current, history);
    var c := IndexOf(current);
    assert forall i :: 0 <= i < |r| ==> r[i] == Step(current, history, i);
    assert forall i :: 0 <= i < |r| ==> (IsCurrent()(r[i]) <==> i == c);
    CountSingle(r, IsCurrent(), c);
  }

  /** The completed rows are exactly those before the current one, so there
      are as many as the current status's position: none for `requested`,
      four for `completed`. */
  lemma CompletedRowsArePrefix(current: JobStatus, history: seq<StatusHistoryEntry>)
    ensures var r := Timeline(current, history);
            forall i :: 0 <= i < |r| ==> (r[i].completed <==> i < IndexOf(current))
    ensures Count(Timeline(current, history), IsCompleted()) == IndexOf(current)
    ensures current == Requested ==> Count(Timeline(current, history), IsCompleted()) == 0
    ensures current == Completed ==> Count(Timeline(current, history), IsCompleted()) == 4
  {
    var r := Timeline(current, history);
    assert forall i :: 0 <= i < |r| ==> r[i] == Step(current, history, i);
    CountPrefix(r, IsCompleted(), IndexOf(current));
    assert JOB_STATUSES[0] == Requested && JOB_STATUSES[4] == Completed;
  }

  /** A connector follows every row but the last, and it is highlighted
      exactly when the row is before the current one. */
  lemma ConnectorHighlighting(current: JobStatus, history: seq<StatusHistoryEntry>)
    ensures var r := Timeline(current, history);
            forall i :: 0 <= i < |r| ==>
              (r[i].connector.Some? <==> i < |r| - 1) &&
              (r[i].connector == Some(true) <==> i < |r| - 1 && i < IndexOf(current))
  {
    var r := Timeline(current, history);
    assert forall i :: 0 <= i < |r| ==> r[i] == Step(current, history, i);
  }

  /** A row shows the time of the first history entry with its status, and no
      time when the history has none. */
  lemma TimestampOfFirstEntry(current: JobStatus, history: seq<StatusHistoryEntry>)
    ensures var r := Timeline(current, history);
            forall i :: 0 <= i < |r| ==>
              (r[i].timestamp.None? <==> forall e :: e in history ==> e.status != r[i].status) &&
              (r[i].timestamp.Some? ==>
                 exists k :: 0 <= k < |history| && history[k].status == r[i].status &&
                             history[k].timestamp == r[i].timestamp.value &&
                             forall m :: 0 <= m < k ==> history[m].status != r[i].status)
  {
    var r := Timeline(current, history);
    assert forall i :: 0 <= i < |r| ==> r[i] == Step(current, history, i);
  }
}
